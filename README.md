# Raccoon engine core, modelled in Dafny

This project models the bookkeeping core of the Raccoon game engine (Rust) and
proves properties of that model. It covers:

- the entity-component-system: data containers, type-erased system wrappers,
  the `Realm`, ECS entities and the entity builder, and both older container
  revisions;
- the scene graph: `core::entity::Entity`, `Scene` and `SceneDirector`;
- the small state machines: `Button`, `Event`, `Input`, `GameState`,
  `GameController` and the `Logger`;
- the value types: `Size`, `Vector2`, `SignCheck`, `Zero` and `Triangle`;
- the GPU resource rules that are not foreign calls:
  - the texture-uid counter of both `GraphicsDevice` revisions;
  - the dispose-before-drop protocol of `Texture`, `Shader`,
    `TextureBindings` and `ShaderBindings`;
  - the row-pitch and padding arithmetic and the row copy of the texture
    bindings;
  - the rules `state.rs` keeps: frame ring, resource counts, vertex padding,
    texture-reload skip, pipeline early return and memory-type choice;
- the winit `VirtualKeyCode` to `KeyCode` table and the close/exit decision
  of the event-loop closure.

## Modelling conventions

- **Runtime typing.** `Box<dyn Component>` is a `Component(tag, instance)`
  value. "The downcast to `T` succeeds" is "`tag == T`". `instance` keeps two
  components of one type apart.
- **Panics.** A panic is an outcome, not a precondition: `Status`
  (`Ok | Panic(message)`) or `Abortable<T>` (`Done(value) | Abort(message)`),
  carrying Rust's own message.
- **Recoverable errors.** `Result<T, E>` is `Result` and `Option<T>` is
  `Option`.
- **Integer arithmetic.** `Numbers.Apply` models debug-build checked
  arithmetic: the operation either yields the exact result in range or panics
  with Rust's overflow message. Division truncates toward zero, as Rust's `/`
  does.
- **Mutable state.** Objects whose fields the Rust code updates in place are
  Dafny classes with `modifies` frames. Values are datatypes. A fixed-size
  buffer (the mapped upload memory) is an `array`.
- **Foreign code.** Component hooks, system bodies and the log listeners are
  recorded in order in a log field of the object that calls them
  (`hooks`, `calls`, `handled`, `delivered`).
- **Code over documented intent.** Where the two differ, the model follows
  the code:
  - `State::new` creates `max(1, frames_in_flight)` command pools. The first
    pool exists before the loop, and further pools are created only for
    frames 1.. (`CreateFrameResources`). It does not create exactly
    `frames_in_flight` pools.
  - `AnySystem::handle` and the older `AnySystem::try_run` remove at the
    filter's ascending indices without adjusting them for earlier removals,
    and never put the removed components back. The source marks this with a
    TODO. The model keeps that behaviour (`EcsSystem.RemoveAtEach`).
    `EcsSystem.UnadjustedRemovalAborts` and
    `EcsSystem.UnadjustedRemovalTakesWrongComponent` show its two outcomes.
  - `ecs::Entity` has no `new` or `add_component`, although
    `EntityBuilder` calls both. The model gives them the meaning the builder
    relies on: a fresh entity with no components, and an append.
  - The one-slot `SystemDataContainer` accepts indices 0 and 1, although its
    panic message names the range `[0, 0]`.

## Model

| member | source | states |
|---|---|---|
| Components.OfType | src/core/ecs/containers/simple_data_container.rs:30-44 | the captured components are all of the requested type and never outnumber the list |
| Components.NotOfType | src/core/ecs/containers/simple_data_container.rs:30-44 | what stays in the entity's list contains no component of the captured type |
| Components.PositionsOfTypeExact | src/core/ecs/any_system.rs:27-40 | the filter's indices are exactly the positions holding type U, each once, strictly ascending |
| Components.PositionsHaveType | src/core/ecs/any_system.rs:27-40 | every index the filter reports is in range and holds a component of type U |
| Components.PositionsAscend | src/core/ecs/any_system.rs:27-40 | the filter's indices are strictly ascending |
| Components.PositionsComplete | src/core/ecs/any_system.rs:27-40 | every position holding type U is reported by the filter |
| Components.TypeSplitIsPartition | src/core/ecs/containers/simple_data_container.rs:30-44 | captured plus remaining components are a permutation of the original list |
| Components.OfTypeCount | src/core/ecs/containers/simple_data_container.rs:30-44 | a component is captured exactly as often as it occurs when it has the type, never otherwise |
| Components.OfTypeEmptyIff | src/core/ecs/containers/simple_data_container.rs:30-44 | nothing is captured iff no component has the type, and then the list is left whole |
| Components.SplitStep | src/core/ecs/containers/simple_data_container.rs:30-44 | one more element of the list extends the captured or the remaining side by that element only |
| EcsContainers.SimpleDataContainer.constructor | src/core/ecs/containers/simple_data_container.rs:23-28 | a new container records no entity |
| EcsContainers.SimpleDataContainer.TryAdd | src/core/ecs/containers/simple_data_container.rs:30-44 | the entity keeps exactly its components of other types, in order; the captured ones, in order, replace any earlier entry for the id; nothing is lost or duplicated |
| EcsContainers.ExtractOfType | src/core/ecs/containers/simple_data_container.rs:33-41 | the in-place removal loop captures `OfType` and leaves `NotOfType`, both in original order |
| EcsContainers.SimpleDataContainer.Drain | src/core/ecs/containers/simple_data_container.rs:46-48 | yields every recorded entry and leaves the container empty |
| EcsContainers.SimpleDataContainer.Get | src/core/ecs/containers/simple_data_container.rs:52-68 | an unrecorded id is an error; otherwise the captured components, all of the container's type |
| EcsContainers.AnyDataContainer.constructor | src/core/ecs/containers/any_data_container.rs:27-31 | a new container is empty |
| EcsContainers.AnyDataContainer.TryAdd | src/core/ecs/containers/any_data_container.rs:33-38 | the entity's list is emptied and recorded whole, in order, overwriting any earlier entry |
| EcsContainers.AnyDataContainer.Drain | src/core/ecs/containers/any_data_container.rs:40-42 | yields every recorded entry and leaves the container empty |
| EcsContainers.AnyDataContainer.Get | src/core/ecs/containers/any_data_container.rs:47-54 | errors iff the id is unrecorded; otherwise exactly the recorded list |
| EcsContainers.AnyContainerRoundTrip | src/core/ecs/containers/any_data_container.rs:33-54 | what `try_add` records, `get` returns unchanged |
| EcsContainers.SimpleContainerOverwrite | src/core/ecs/containers/simple_data_container.rs:30-68 | re-adding an entity id overwrites its earlier entry |
| EcsEntity.Entity.GetComponents | src/core/ecs/entity.rs:9-11 | the read accessor reports the list element for element |
| EcsEntity.Entity.WithComponents | src/core/ecs/entity.rs:13-15 | a write through the mutable accessor keeps the id and is what the read accessor reports |
| EcsEntity.MutableAccessRoundTrip | src/core/ecs/entity.rs:3-15 | write-then-read returns the written list; writing back the current list changes nothing; the id never changes |
| EcsEntity.NewEntity | src/core/ecs/entity_builder.rs:13-18 | the builder's entity carries exactly the given id and no components |
| EcsEntity.AddComponent | src/core/ecs/entity_builder.rs:20-23 | the component is appended after the unchanged earlier ones |
| EcsSystem.RemoveAtEach | src/core/ecs/any_system.rs:108-112 | removal at unadjusted indices either panics with `Vec::remove`'s message or removes one component per index, losing and duplicating nothing |
| EcsSystem.PrefixRemovedAssociates | src/core/ecs/any_system.rs:108-112 | collecting removed components step by step is associative |
| EcsSystem.FilterIndices | src/core/ecs/any_system.rs:27-40 | the filter loop computes exactly the positions of type U |
| EcsSystem.RemoveAt | src/core/ecs/any_system.rs:108-112 | the removal loop computes `RemoveAtEach` |
| EcsSystem.HandleStep | src/core/ecs/any_system.rs:102-124 | what `handle` does to one list with the system present: nothing without a match; otherwise the unadjusted removals, then `try_from` on the removed components; a removal or conversion panic aborts; what is removed and what is left together make up the list, and something is removed iff some component matches |
| EcsSystem.OneMatchRemoval | src/core/ecs/any_system.rs:108-112 | with a single match the removal takes exactly that component |
| EcsSystem.OneMatchIntoOtherSimplePanics | src/core/ecs/simple_data_container.rs:21-30 | one matching component handed to a one-slot container of another component type makes `try_from`'s `expect` panic |
| EcsSystem.SeveralMatchesIntoSimpleDropped | src/core/ecs/simple_data_container.rs:21-25 | several matches handed to a one-slot container: once the removals complete, `try_from` only fails on the length, the handler drops that failure and nothing panics |
| EcsSystem.AnySystem.constructor | src/core/ecs/any_system.rs:24-78 | the boxed system is present and of the registration type; the filter type and container shape are the ones given |
| EcsSystem.AnySystem.Setup | src/core/ecs/any_system.rs:80-89 | panics when the system is absent or of another type; otherwise calls setup once and restores it |
| EcsSystem.AnySystem.Run | src/core/ecs/any_system.rs:91-100 | panics when the system is absent or of another type; otherwise calls run once and restores it |
| EcsSystem.AnySystem.Handle | src/core/ecs/any_system.rs:102-124 | no match leaves list and system alone; otherwise a removal past the end panics, an absent system panics, and otherwise the outcome is `HandleStep`: a `try_from` panic is passed on, or the removed components go to the handler and are not put back |
| EcsSystem.AnySystem.GetSystem | src/core/ecs/any_system.rs:126-131 | panics iff the system is absent, otherwise returns it |
| EcsSystem.UnadjustedRemovalAborts | src/core/ecs/any_system.rs:108-112 | two adjacent matches make the second removal index out of bounds |
| EcsSystem.UnadjustedRemovalTakesWrongComponent | src/core/ecs/any_system.rs:108-112 | with a third component present, the second removal takes a component of the wrong type |
| EcsLegacyContainers.New | src/core/ecs/system_data_container.rs:25-27 | `new` builds the (pair) container componentwise, each slot holding its value |
| EcsLegacyContainers.Take | src/core/ecs/system_data_container.rs:58-63 | `take` yields one item per slot, first slot first, and keeps the shape |
| EcsLegacyContainers.TryFrom | src/core/ecs/system_data_container.rs:29-56 | a wrong length is an error that leaves the list alone; a success has the requested shape |
| EcsLegacyContainers.Get | src/core/ecs/simple_data_container.rs:44-53 | errors when empty or of the wrong type; otherwise returns the held component |
| EcsLegacyContainers.SimpleOnOne | src/core/ecs/simple_data_container.rs:21-36 | one component of type T is taken into the container; of another type, the conversion panics |
| EcsLegacyContainers.OneComponentSuccess | src/core/ecs/simple_data_container.rs:21-36 | a one-element conversion succeeds only for a one-slot container holding that component |
| EcsLegacyContainers.FailureRestoresList | src/core/ecs/system_data_container.rs:29-56 | every conversion error puts the list back exactly as it was, in order |
| EcsLegacyContainers.SuccessTakesAll | src/core/ecs/system_data_container.rs:29-56 | a successful conversion empties the list and holds its components in order |
| EcsLegacyContainers.TakeTwice | src/core/ecs/simple_data_container.rs:38-40 | the first `take` yields the component, the second `[None]` |
| EcsLegacyContainers.PairTakeOrder | src/core/ecs/system_data_container.rs:58-63 | a pair yields T's item first, then U's, and is emptied |
| EcsLegacyContainers.PairOfSimples | src/core/ecs/system_data_container.rs:29-56 | two components convert into (first to T, second to U); a wrong type panics |
| EcsLegacySystem.SlotContainer.constructor | src/core/ecs/system.rs:21-25 | a new one-slot container holds nothing |
| EcsLegacySystem.SlotContainer.Check | src/core/ecs/system.rs:27-33 | panics outside indices 0..1; otherwise true iff the component has type T |
| EcsLegacySystem.SlotContainer.Get | src/core/ecs/system.rs:35-41 | panics outside indices 0..1; otherwise the single slot |
| EcsLegacySystem.SlotContainer.Set | src/core/ecs/system.rs:43-49 | panics outside indices 0..1; otherwise every valid index reads the component afterwards |
| EcsLegacySystem.Fill | src/core/ecs/system.rs:77-90 | the runner's loop succeeds iff all components have type U and there are at most two, leaving the last in the slot; otherwise it panics with the first failing check's message |
| EcsLegacySystem.LegacySystem.constructor | src/core/ecs/system.rs:60-100 | the boxed system is present with no runs |
| EcsLegacySystem.LegacySystem.TryRun | src/core/ecs/system.rs:102-124 | no match is a no-op; otherwise unadjusted removal, then the runner, with every panic in source order; the removed components are not returned |
| EcsRealm.Realm.constructor | src/core/ecs/realm.rs:30-36 | no systems, an empty present entity list, id counter 0 |
| EcsRealm.Realm.SetupSystems | src/core/ecs/realm.rs:38-42 | succeeds iff every system is present and of its type, and then each is set up exactly once |
| EcsRealm.SetupEach | src/core/ecs/realm.rs:38-42 | the loop over the systems sets each up once, or panics at one that is not ready |
| EcsRealm.Realm.RunSystems | src/core/ecs/realm.rs:44-65 | panics when the entities are taken; on success the systems ran in some order listing every label once, the list put back is `Passes` over that order, and each system ran once more and its handler received exactly its pass's removed lists; on a panic the list stays taken and the panic is the first refusal or abort of `Round` along the distinct labels reached, all turns before the last having completed |
| EcsRealm.Realm.PutBack | src/core/ecs/realm.rs:64 | the entity list goes back into the realm, and the systems keep what the pass did to them |
| EcsRealm.RunEach | src/core/ecs/realm.rs:49-59 | the loop visits every key once; its result is `Passes` over that order, and each system's box shows one more run and the lists its handler received; a panic is the first refusal or abort of `Round` along the distinct keys reached |
| EcsRealm.RunStep | src/core/ecs/realm.rs:49-59 | one key's turn appends the key to the order and keeps the loop's state: keys so far each once, `Passes` over them, the other systems untouched; or it stops the pass at this key with `Round`'s message |
| EcsRealm.RunKey | src/core/ecs/realm.rs:50-58 | the system under one key takes its `Turn` from its box: completes with `Turn`'s value or panics with `Turn`'s message, without touching the systems already run |
| EcsRealm.RunOne | src/core/ecs/realm.rs:50-58 | completes iff the box is present and of the registration type and `Pass` completes; a panic carries `Turn`'s message (run refusal or the pass's abort); on success the system ran once more and handled the list as `Pass` says |
| EcsRealm.RoundOfReady | src/core/ecs/realm.rs:49-59 | when every system reached is ready, the turns of `Round` are exactly `Passes` |
| EcsRealm.TurnStops | src/core/ecs/realm.rs:49-59 | after turns that all completed, one more key whose turn aborts stops the pass there with its message |
| EcsRealm.ReadyStopsInPasses | src/core/ecs/realm.rs:49-59 | when every system is ready, a panicking pass panics exactly where `Passes` over the keys reached aborts |
| EcsRealm.HandleAll | src/core/ecs/realm.rs:56-58 | with the system present, completes iff `Pass` does, panics with `Pass`'s message, and otherwise yields `Pass`'s list and appends its received lists to the handler's log; entities without its type are untouched |
| EcsRealm.HandleNext | src/core/ecs/realm.rs:56-58 | handling one more entity extends `Pass` over the entities before it |
| EcsRealm.Pass | src/core/ecs/realm.rs:56-58 | one system over the entities in list order; on success ids and count stay and components only leave |
| EcsRealm.PassAbortExtends | src/core/ecs/realm.rs:56-58 | a panic at one entity ends the whole pass with that panic |
| EcsRealm.PassUntouched | src/core/ecs/realm.rs:56-58 | a system whose type no entity holds changes nothing and receives nothing |
| EcsRealm.ProgressSnoc | src/core/ecs/realm.rs:56-58 | an entity that only loses components extends progress |
| EcsRealm.Passes | src/core/ecs/realm.rs:49-59 | the systems of an order in turn, each over every entity; on success ids and count stay, components only leave, and there is one received-lists entry per system |
| EcsRealm.PassesSnoc | src/core/ecs/realm.rs:49-59 | one more system extends the passes over the systems before it |
| EcsRealm.PassesUntouched | src/core/ecs/realm.rs:49-59 | systems whose types no entity holds leave the list as it is |
| EcsRealm.EachRanSnoc | src/core/ecs/realm.rs:49-59 | one more system that ran once from its box extends the record of the systems run so far |
| EcsRealm.EachRanRunsOnce | src/core/ecs/realm.rs:49-59 | after a whole pass every system was ready and its run count rose by exactly one |
| EcsRealm.ProgressTransitive | src/core/ecs/realm.rs:44-65 | entities keep their ids and only lose components across successive passes |
| EcsRealm.Realm.GetSystem | src/core/ecs/realm.rs:74-86 | an unknown label or a system of another type gives None; a taken system panics |
| EcsRealm.Realm.RegisterSystem | src/core/ecs/realm.rs:88-90 | one fresh system per label, with the given type, filter type and container shape, replacing any earlier one, and nothing else changes |
| EcsRealm.Realm.AddEntity | src/core/ecs/realm.rs:95-100 | appends exactly one entity at the end; panics when the list is taken |
| EcsRealm.Realm.CreateEntity | src/core/ecs/realm.rs:102-106 | bumps the counter first; the id is greater than every earlier id and consumed even without `build` |
| EcsRealm.EntityBuilder.WithComponent | src/core/ecs/entity_builder.rs:20-23 | appends the component to the builder's entity; id and realm unchanged |
| EcsRealm.EntityBuilder.Build | src/core/ecs/entity_builder.rs:25-27 | appends the entity to the realm once |
| EcsRealm.NewBuilder | src/core/ecs/entity_builder.rs:13-18 | wraps an entity with exactly the given id and no components |
| EcsRealm.TwoEntityScene | src/core/ecs/realm.rs:102-106 | two built entities get ids 1 and 2, in order, each with its components |
| CoreEntity.VisitsExact | src/core/entity/entity.rs:16-42 | a pass calls the hook exactly once per component, in list order |
| CoreEntity.NewOnesNeverDuplicate | src/core/entity/entity.rs:135-146 | `register_unique_component!` never duplicates a type, keeps existing types untouched and makes every requested type present |
| CoreEntity.NewOnesStep | src/core/entity/entity.rs:135-146 | one more requested component keeps those three facts |
| CoreEntity.AppendFresh | src/core/entity/entity.rs:135-146 | appending a component of a new type keeps those three facts |
| CoreEntity.StillHasType | src/core/entity/entity.rs:62-75 | appending never loses a type |
| CoreEntity.AppendNewType | src/core/entity/entity.rs:53-60 | appending a component of an absent type adds just it to that type |
| CoreEntity.Entity.constructor | src/core/entity/entity.rs:46-51 | the given name and an empty, present component list |
| CoreEntity.Entity.AddComponent | src/core/entity/entity.rs:53-60 | runs the `added` hook, then appends; panics when the list is taken |
| CoreEntity.Entity.HasComponent | src/core/entity/entity.rs:62-75 | true iff the list is present and holds a component of the type |
| CoreEntity.Entity.GetComponent | src/core/entity/entity.rs:77-90 | the first component of the type in list order, or None |
| CoreEntity.Entity.Update | src/core/entity/entity.rs:16-29 | each component updated once, in order, and the list restored |
| CoreEntity.Entity.Render | src/core/entity/entity.rs:33-42 | each component rendered once, in order |
| CoreEntity.Entity.RequireComponents | src/core/entity/entity.rs:109-120 | panics iff some required type is missing, naming the first one |
| CoreEntity.Entity.RegisterUniqueComponents | src/core/entity/entity.rs:135-146 | adds each requested component whose type is absent, in order, with its hook |
| CoreEntity.Entity.RegisterEach | src/core/entity/entity.rs:143-144 | over a present list, the macro's expansion adds exactly `NewOnes` of the requested components, in order, each after its `added` hook |
| CoreEntity.Entity.AddIfAbsent | src/core/entity/entity.rs:137-141 | one component is appended, after its hook, iff no component of its type is present; otherwise nothing changes |
| CoreEntity.NewOnesSnoc | src/core/entity/entity.rs:137-141 | one more requested component is added iff its type is absent from the list so far |
| Scenes.CallsExact | src/core/scene/scene.rs:30-76 | a phase calls its hook once per scene component, in order |
| Scenes.Scene.constructor | src/core/scene/scene.rs:22-28 | the given name, an empty component list and no entities |
| Scenes.Scene.CallEach | src/core/scene/scene.rs:30-44 | for a hook that sees only its own component (every phase but `initialize`), the loop calls each component once, in order, and leaves the scene's components and entities as they were |
| Scenes.Scene.InitializePhase | src/core/scene/scene.rs:30-44 | for `before_initialize` and `late_initialize`, whose hooks do not see the scene: take the list, call the hook on each component, restore it; components and entities unchanged |
| Scenes.Scene.BeforeInitializeAll | src/core/scene/scene.rs:30-44 | `before_initialize` on each component in order; the list is restored |
| Scenes.Scene.InitializeAll | src/core/scene/scene.rs:46-60 | `initialize` on each component in order, each hook handed the scene: the entities the hooks add are appended, hook by hook, in order; the scene components they add are lost, since the list is out while they run, so the restored list is the old one; the entities stay distinct |
| Scenes.Scene.InitializeEach | src/core/scene/scene.rs:50-55 | over the taken list, one `initialize` call per component, in order, each followed by what its hook does to the scene |
| Scenes.Scene.InitializeOne | src/core/scene/scene.rs:53 | one hook: its call is recorded, its entities are pushed in order, and every scene component it adds is dropped, since `add_component` returns early while the list is taken (115-118) |
| Scenes.Scene.AddEntities | src/core/scene/scene.rs:127-130 | a hook's `add_entity` calls push its entities at the end, in order |
| Scenes.AddedEntitiesSplit | src/core/scene/scene.rs:50-55 | what the hooks before the `i`-th add is a prefix of what all the hooks add |
| Scenes.Scene.LateInitializeAll | src/core/scene/scene.rs:62-76 | `late_initialize` on each component in order; the list is restored |
| Scenes.Scene.Update | src/core/scene/scene.rs:85-98 | scene components first, then entities, each in list order |
| Scenes.Scene.Render | src/core/scene/scene.rs:100-113 | scene components first, then entities, each in list order |
| Scenes.UpdateEach | src/core/scene/scene.rs:95-97 | each entity is updated exactly once; every entity keeps its component list |
| Scenes.RenderEach | src/core/scene/scene.rs:110-112 | each entity is rendered exactly once; every entity keeps its component list |
| Scenes.Scene.AddComponent | src/core/scene/scene.rs:115-125 | appends when the list is present, otherwise no-op |
| Scenes.Scene.AddEntity | src/core/scene/scene.rs:127-130 | appends at the end |
| Scenes.Scene.RemoveEntity | src/core/scene/scene.rs:132-147 | removes the first occurrence of the very same object and reports true; otherwise false and unchanged (in safe Rust the found case cannot arise, see the member's doc) |
| Scenes.SceneDirector.constructor | src/core/scene/scene_director.rs:22-27 | no scenes and no current scene |
| Scenes.SceneDirector.Insert | src/core/scene/scene_director.rs:98-107 | a taken name fails with `DuplicateScene` and changes nothing; otherwise stored under its own name |
| Scenes.SceneDirector.Get | src/core/scene/scene_director.rs:109-111 | the scene stored under the name, or None |
| Scenes.SceneDirector.ContainsWithName | src/core/scene/scene_director.rs:117-119 | true iff `get` finds a scene |
| Scenes.SceneDirector.Play | src/core/scene/scene_director.rs:73-80 | a known name becomes current; an unknown one panics and changes nothing |
| Scenes.SceneDirector.CurrentScene | src/core/scene/scene_director.rs:82-87 | the scene under the current name, or None |
| Scenes.SceneDirector.Update | src/core/scene/scene_director.rs:53-64 | the current scene, if any, runs its update phase on its components and then its entities, other scenes untouched; the game is asked to close iff the timer has reached 3 seconds |
| Scenes.SceneDirector.Render | src/core/scene/scene_director.rs:66-71 | the current scene, if any, runs its render phase on its components and then its entities, other scenes untouched |
| Scenes.SceneDirector.Initialize | src/core/scene/scene_director.rs:29-51 | panics without a current scene, or when it is missing; each scene runs its three phases in order, keeps its components and gains the entities its `initialize` hooks add |
| Scenes.PhaseEach | src/core/scene/scene_director.rs:30-32 | the loop over the scenes runs `before_initialize` (or, at 38-40, `late_initialize`) on each, changing no component or entity list |
| Scenes.InitializeEvery | src/core/scene/scene_director.rs:34-36 | the loop over the scenes runs `initialize` on each; each keeps its components and gains exactly the entities its hooks add |
| Scenes.InsertThenPlay | src/core/scene/scene_director.rs:73-107 | after inserting and playing a scene, it is current |
| Buttons.AfterPress | src/input/button.rs:10-16 | press yields Pressed or Down, Down exactly from Pressed or Down |
| Buttons.AfterRelease | src/input/button.rs:18-24 | release yields Released or Up, Up exactly from Released or Up |
| Buttons.TwoPressesReachDown | src/input/button.rs:10-16 | two presses from any state reach Down |
| Buttons.TwoReleasesReachUp | src/input/button.rs:18-24 | two releases from any state reach Up |
| Buttons.Button.constructor | src/input/button.rs:58-62 | a new button is Up |
| Buttons.Button.Press | src/input/button.rs:10-16 | the state moves by `AfterPress` |
| Buttons.Button.Release | src/input/button.rs:18-24 | the state moves by `AfterRelease` |
| Buttons.ExactlyOnePredicate | src/input/button.rs:30-56 | exactly one of the four state predicates holds |
| Events.Event.constructor | src/events/event.rs:7-12 | a new event has its kind and is not consumed |
| Events.Event.IsConsumed | src/events/event.rs:18-20 | whether the event has been consumed |
| Events.Event.Consume | src/events/event.rs:22-29 | reports true only on the first call; the event ends consumed; the kind is constant |
| Events.ConsumeTwice | src/events/event.rs:22-29 | a second consume reports false and leaves the event consumed |
| Inputs.RegisterKeys | src/input/input.rs:124-286 | every key code is registered, each with its own new button in state Up |
| Inputs.Input.constructor | src/input/input.rs:123-300 | all keys and the Left, Right and Middle mouse buttons are Up; no extra buttons; the position is the default |
| Inputs.Input.Key | src/input/input.rs:115-117 | the registered button of the code, or None |
| Inputs.Input.KeyMut | src/input/input.rs:119-121 | the same button `key` reports, handed out for change |
| Inputs.PressKey | src/input/input.rs:119-121 | pressing through `key_mut` changes that key's button only |
| GameStates.GameState.constructor | src/core/game_state.rs:43-50 | a new game is not running |
| GameStates.GameState.CloseGame | src/core/game_state.rs:78-80 | the game stops running |
| GameStates.GameState.IsRunning | src/core/game_state.rs:74-76 | the running flag |
| GameStates.GameState.Start | src/core/game_state.rs:82-84 | the game runs |
| GameStates.CloseTwice | src/core/game_state.rs:78-80 | closing is idempotent |
| GameControllers.GameController.constructor | src/core/game_controller.rs:42-49 | not running, with its own new window |
| Windows.Window.constructor | src/window/window.rs:23-31 | a new window has no queued events |
| GameControllers.GameController.CloseGame | src/core/game_controller.rs:75-77 | clears the running flag only |
| GameControllers.GameController.IsRunning | src/core/game_controller.rs:71-73 | the running flag |
| GameControllers.GameController.Start | src/core/game_controller.rs:79-81 | sets the running flag only |
| GameControllers.GameController.Handle | src/core/game_controller.rs:29-37 | a close request closes the game and consumes the event; any other event changes nothing |
| GameControllers.GameController.HandleWindowEvents | src/core/game_controller.rs:90-105 | takes and restores the window and hands its events to the controller, then the listener (95-97); with the queue dispatch taken from the commented-out backend (see Left out): empties the queue, stops running iff a close request was queued, and shows the listener every event in order |
| GameControllers.GameController.Deliver | src/window/backends/winit_backend.rs:357-365 | each queued event goes to every listener, the controller first and then the listener, in order (the commented-out dispatch, see Left out) |
| GameControllers.KindsOf | src/window/backends/winit_backend.rs:357-365 | the kinds of the queued events, one per event, in order |
| Logging.ContextOf | src/tools/log/logger.rs:26-38 | the context is None exactly for the empty string |
| Logging.FanoutExact | src/tools/log/logger.rs:26-38 | `write` reaches every listener once, in registration order |
| Logging.LinesCount | src/tools/log/logger.rs:40-63 | `writeln` makes 6 writes per listener with a context and 4 without |
| Logging.LinesConcat | src/tools/log/logger.rs:40-63 | the writes for two groups of listeners are those of each group in turn |
| Logging.ListenerBlock | src/tools/log/logger.rs:40-63 | each listener receives its lines as one block, between those of earlier and later listeners |
| Logging.Logger.constructor | src/tools/log/logger.rs:106-113 | level 0, no listeners, no subjects, context enabled |
| Logging.Logger.Register | src/tools/log/logger.rs:18-20 | appends the listener |
| Logging.Logger.ClearListeners | src/tools/log/logger.rs:22-24 | removes every listener |
| Logging.Logger.Write | src/tools/log/logger.rs:26-38 | the listeners receive the write in order |
| Logging.Logger.WriteLine | src/tools/log/logger.rs:40-63 | always Ok; each listener receives its block of lines in order |
| Logging.Logger.WriteTo | src/tools/log/logger.rs:44-60 | one listener receives timestamp, separator, the context and a separator when there is one, the message and the line break, in that order |
| Logging.Logger.PushSubject | src/tools/log/logger.rs:65-67 | pushes the subject |
| Logging.Logger.PopSubject | src/tools/log/logger.rs:69-71 | drops the most recent subject; no-op when empty |
| Logging.Logger.ClearSubjects | src/tools/log/logger.rs:73-75 | empties the subject stack |
| Logging.Logger.BeginBlock | src/tools/log/logger.rs:77-79 | raises the level by 1, panicking at the `u32` limit |
| Logging.Logger.EndBlock | src/tools/log/logger.rs:81-87 | lowers the level by 1, never below 0 |
| Logging.Logger.EndMultBlocks | src/tools/log/logger.rs:89-96 | the level becomes max(0, level - n) |
| Logging.Logger.BlockLevel | src/tools/log/logger.rs:102-104 | the current block level |
| Logging.Logger.EndAllBlocks | src/tools/log/logger.rs:98-100 | the level becomes 0 |
| Logging.PushThenPop | src/tools/log/logger.rs:65-71 | a push followed by a pop restores the subject stack |
| Logging.EndBlockIsEndOne | src/tools/log/logger.rs:81-96 | `end_block` equals `end_mult_blocks(1)` |
| Numbers.IsNegativeExact | src/math/sign_check.rs:7-33 | `is_negative` holds iff the value is below 0, for every width |
| Numbers.IsPositiveOfZero | src/math/sign_check.rs:7-46 | 0 is positive exactly for unsigned widths and never negative |
| Numbers.Zero | src/math/zero.rs:6-27 | `zero()` is in range, not negative, and not positive for signed widths |
| Numbers.TryConvert | src/math/size.rs:145-157 | an integer conversion succeeds iff the value fits the target width, keeping it |
| Numbers.Apply | src/math/size.rs:27-95 | a checked operation yields the exact result when it fits, else panics with Rust's message; division by 0 panics |
| Numbers.PlusThenMinus | src/math/size.rs:27-69 | subtracting what was added gives the value back |
| Numbers.TimesThenOver | src/math/size.rs:71-95 | dividing by the factor that was multiplied in gives the value back |
| Sizes.New | src/math/size.rs:111-124 | a negative width fails first, then a negative height; otherwise both are stored |
| Sizes.With | src/math/size.rs:126-143 | each negative argument becomes zero; the result is never negative |
| Sizes.WithAgreesWithNew | src/math/size.rs:111-143 | when `new` succeeds, `with` gives the same size |
| Sizes.TryWith | src/math/size.rs:145-157 | fails iff a component does not convert; otherwise behaves as `with` |
| Sizes.FromPair | src/math/size.rs:97-106 | copies the tuple |
| Sizes.FromPairAdmitsNegative | src/math/size.rs:97-124 | `From` accepts a negative width that `new` rejects |
| Sizes.Combine | src/math/size.rs:27-38 | the width is computed before the height, so its panic comes first |
| Sizes.Binary | src/math/size.rs:27-95 | `+`, `-`, `*` and `/` act componentwise |
| Sizes.AddScalar | src/math/size.rs:49-56 | scalar `+=` adds the scalar to both components |
| Sizes.PlusThenMinus | src/math/size.rs:27-69 | `(a + b) - b == a` when the sum fits |
| Sizes.TimesThenOver | src/math/size.rs:71-95 | `(a * b) / b == a` for non-zero factors when the product fits |
| Sizes.SetWidth | src/math/size.rs:179-181 | changes the width only |
| Sizes.SetHeight | src/math/size.rs:183-185 | changes the height only |
| Sizes.Set | src/math/size.rs:187-190 | `set` is both setters, in either order |
| Vectors.New | src/math/vector2.rs:129-134 | both coordinates are 0 |
| Vectors.With | src/math/vector2.rs:136-141 | stores exactly x and y |
| Vectors.TryWith | src/math/vector2.rs:143-158 | fails iff a coordinate does not convert; otherwise stores both |
| Vectors.Index | src/math/vector2.rs:96-110 | 0 is x, 1 is y, any other index panics |
| Vectors.SetIndex | src/math/vector2.rs:112-124 | writing through index 0 or 1 succeeds, any other index panics |
| Vectors.ReadAfterWrite | src/math/vector2.rs:96-124 | a write through an index is read back there and leaves the other coordinate alone |
| Vectors.Combine | src/math/vector2.rs:26-37 | x is computed before y, so its panic comes first |
| Vectors.Binary | src/math/vector2.rs:26-94 | `+`, `-`, `*` and `/` act componentwise |
| Vectors.AddScalar | src/math/vector2.rs:48-55 | scalar `+=` adds the scalar to both coordinates |
| Vectors.PlusThenMinus | src/math/vector2.rs:26-68 | `(a + b) - b == a` when the sum fits |
| Vectors.TimesThenOver | src/math/vector2.rs:70-94 | `(a * b) / b == a` for non-zero factors when the product fits |
| Vectors.SetX | src/math/vector2.rs:180-182 | changes x only |
| Vectors.SetY | src/math/vector2.rs:184-186 | changes y only |
| Vectors.Set | src/math/vector2.rs:188-191 | `set` is both setters, in either order |
| Triangles.PointsFlat | src/math/triangle.rs:7-10 | six values; position 2i is point i's first coordinate and 2i+1 its second |
| Triangles.FromFlat | src/math/triangle.rs:7-10 | six values re-form a triangle of three two-coordinate points |
| Triangles.FlatRoundTrip | src/math/triangle.rs:7-10 | flattening loses nothing and keeps the order of the points |
| GraphicsDevices.GraphicsDevice.constructor | src/rendering/graphics_device.rs:14-19 | the uid counter starts at 1 |
| GraphicsDevices.GraphicsDevice.NextTextureUid | src/rendering/backends/graphics_device.rs:41-45 | returns the counter, never 0, and increments it by 1 |
| GraphicsDevices.TwoUids | src/rendering/graphics_device.rs:25-29 | successive uids are non-zero and strictly increasing |
| Disposal.DropGuard | src/rendering/resource_disposable.rs:11-17 | panics with the guard's message iff the resource is not disposed |
| Disposal.FirstUndisposed | src/rendering/resource_disposable.rs:20-28 | the first undisposed resource in iteration order, or None iff all are disposed |
| Disposal.GuardAll | src/rendering/resource_disposable.rs:20-28 | the loop passes iff every resource is disposed, and panics at the first undisposed one |
| ShaderBinding.ShaderBindings.constructor | src/rendering/backend/hal/shader_bindings.rs:57-74 | not disposed, empty descriptor lists, nothing destroyed |
| ShaderBinding.ShaderBindings.Dispose | src/rendering/backends/shader_bindings.rs:32-43 | the first call marks disposed and destroys the sampler once; later calls are no-ops |
| ShaderBinding.ShaderBindings.IsDisposed | src/rendering/backend/hal/shader_bindings.rs:32-34 | whether the bindings have been disposed |
| ShaderBinding.ShaderBindings.Drop | src/rendering/backend/hal/shader_bindings.rs:50-54 | panics unless disposed |
| ShaderBinding.DisposeTwice | src/rendering/backend/hal/shader_bindings.rs:36-47 | two disposals destroy the sampler exactly once and make drop pass |
| Shaders.Shader.constructor | src/graphics/shaders/shader.rs:44-51 | stores both word lists, new bindings, not disposed |
| Shaders.Shader.VertexData | src/graphics/shaders/shader.rs:53-55 | the stored vertex words, unchanged |
| Shaders.Shader.FragmentData | src/graphics/shaders/shader.rs:57-59 | the stored fragment words, unchanged |
| Shaders.Shader.IsDisposed | src/graphics/shaders/shader.rs:23-25 | whether the shader has been disposed |
| Shaders.Shader.Dispose | src/graphics/shaders/shader.rs:27-35 | the first call marks disposed and disposes the bindings, which destroys the sampler unless the bindings, a public field, were disposed on their own before; later calls are no-ops |
| Shaders.Shader.Drop | src/graphics/shaders/shader.rs:37-41 | panics unless both the shader and its bindings are disposed |
| Shaders.DisposeTwice | src/graphics/shaders/shader.rs:27-41 | after two disposals drop passes |
| Layouts.PadToAtom | src/rendering/backend/hal/texture_bindings.rs:94-95 | padding panics on an overflowing sum, a zero sum or a zero atom size, and otherwise rounds up |
| Layouts.PadToAtomIsLeastMultiple | src/rendering/backend/hal/texture_bindings.rs:94-95 | the padded size is the least multiple of the atom size at or above the size |
| Layouts.CeilMultiple | src/rendering/backend/hal/texture_bindings.rs:95 | `((x + a - 1) / a) * a` is the least multiple of `a` at or above `x` |
| Layouts.RowPitch | src/rendering/backend/hal/texture_bindings.rs:91-93 | the mask underflows for a zero alignment, `width*4` and the masked sum may overflow, otherwise the masked value |
| Layouts.RowPitchCoversRow | src/rendering/backend/hal/texture_bindings.rs:91-93 | the pitch covers a row and exceeds it by less than the alignment |
| Layouts.RowPitchIsLeastMultiple | src/rendering/backend/hal/texture_bindings.rs:91-93 | for a power-of-two alignment the pitch is the least multiple of it at or above `width*4` |
| Layouts.LayoutFor | src/rendering/backend/hal/texture_bindings.rs:90-95 | the layout succeeds iff no step overflows, with its fields related as the code computes them |
| Layouts.LayoutFits | src/rendering/backend/hal/texture_bindings.rs:90-95 | every row fits the pitch and all rows fit the padded upload size |
| TextureBinding.TextureBindings.constructor | src/rendering/backend/hal/texture_bindings.rs:104-112 | no upload memory, not disposed, the computed layout |
| TextureBinding.TextureBindings.Dispose | src/rendering/backend/hal/texture_bindings.rs:53-69 | the first call destroys the buffer and frees any memory, once; later calls are no-ops |
| TextureBinding.TextureBindings.IsDisposed | src/rendering/backend/hal/texture_bindings.rs:49-51 | whether the bindings have been disposed |
| TextureBinding.TextureBindings.Drop | src/rendering/backend/hal/texture_bindings.rs:72-76 | panics unless disposed |
| TextureBinding.TextureBindings.CopyIntoStagingBuffer | src/rendering/backend/hal/texture_bindings.rs:115-156 | returns at once when memory exists; otherwise allocates it and copies every row |
| TextureBinding.CopyRows | src/rendering/backend/hal/texture_bindings.rs:136-145 | row y lands at offset `y*row_pitch`, copied from `data[y*width*4..]` |
| TextureBinding.CopyNonoverlapping | src/rendering/backend/hal/texture_bindings.rs:140-144 | the bytes land at the offset and nothing else changes |
| TextureBinding.With | src/rendering/backend/hal/texture_bindings.rs:79-113 | image errors first, then layout panics, then buffer errors; on success fresh bindings with the layout |
| Textures.Texture.constructor | src/graphics/texture.rs:64-68 | not disposed, with the given uid and bindings |
| Textures.Texture.IsDisposed | src/graphics/texture.rs:39-41 | whether the texture has been disposed |
| Textures.Texture.Uid | src/graphics/texture.rs:71-73 | the uid given at creation |
| Textures.Texture.Dispose | src/graphics/texture.rs:43-51 | the first call marks disposed and disposes the bindings; later calls are no-ops |
| Textures.Texture.Drop | src/graphics/texture.rs:53-57 | panics unless the texture and its bindings are disposed |
| Textures.FromFile | src/graphics/texture.rs:60-69 | a failure leaves the uid counter alone; a success is a new texture with the device's next uid |
| Textures.LoadTwo | src/graphics/texture.rs:60-69 | two textures from one device get distinct, increasing uids |
| RenderStates.FirstMemoryType | src/rendering/backends/hal/state.rs:1222-1237 | the smallest allowed index with the wanted properties; else panics, or overflows the shift past 32 types |
| RenderStates.State.GetMemoryType | src/rendering/backends/hal/state.rs:1222-1237 | the smallest suitable memory type, aborting iff none exists |
| RenderStates.Slots | src/rendering/backends/hal/state.rs:425 | each draw's slot lies below `frames_in_flight` |
| RenderStates.SlotsCycle | src/rendering/backends/hal/state.rs:425 | `frames_in_flight` successive draws use every slot exactly once |
| RenderStates.CreateFrameResources | src/rendering/backends/hal/state.rs:318-349 | max(1, frames) pools and `frames` semaphores, fences and buffers, buffer i from pool i |
| RenderStates.State.constructor | src/rendering/backends/hal/state.rs:362-397 | frame 0, uid 0, no buffer, pipeline or layout, the per-frame resources |
| RenderStates.State.TakeSlot | src/rendering/backends/hal/state.rs:425 | the slot is `current_frame % frames_in_flight`; zero frames panic |
| RenderStates.State.DrawClearFrame | src/rendering/backends/hal/state.rs:400-526 | panics for a missing pipeline, vertex buffer or layout, in that order; on success the frame counter rises by exactly 1 |
| RenderStates.State.LoadVertices | src/rendering/backends/hal/state.rs:970-1055 | overflow and empty buffers panic; the buffer is padded to the least multiple of the atom size |
| RenderStates.State.LoadTexture | src/rendering/backends/hal/state.rs:1056-1087 | skips a texture whose uid is already loaded; otherwise fills its staging buffer, then panics with `get_memory_type`'s unwrap when no device-local type suits the image, and else uploads it and records its uid |
| RenderStates.FirstLoadUploads | src/rendering/backends/hal/state.rs:1056-1087 | since uids start at 1, the first load is never skipped: it uploads iff a device-local memory type suits the image |
| RenderStates.State.CreatePipeline | src/rendering/backends/hal/state.rs:791-802 | returns early when a pipeline exists; otherwise stores the new pipeline and layout or passes the error on |
| RenderStates.State.DrawTextureWithVertices | src/rendering/backends/hal/state.rs:529-635 | succeeds iff the vertex length is a non-zero `u64` whose padding fits with a CPU-visible memory type, the texture is the loaded one or has a device-local type, a pipeline exists or its creation succeeds, and there are frames in flight; otherwise panics with the first failing stage's message (overflow, empty buffer, padding, memory types, `unwrap` of the pipeline error, remainder by zero); on success the vertex buffer has the padded length, slot `current_frame % frames` is used and the counter rises by 1; a panic leaves the counter |
| WinitBackend.ConversionTable | src/window/backends/winit_backend.rs:388-553 | the table's arms, including Key0..Key9 to D0..D9 and the renamings such as Back to Backspace |
| WinitBackend.KeyCodeOfInjective | src/window/backends/winit_backend.rs:391-551 | no two virtual keys map to the same key code |
| WinitBackend.KeyCodeOfOnto | src/window/backends/winit_backend.rs:391-551 | every key code, all registered by `Input::new`, is produced by some virtual key |
| WinitBackend.RunStep | src/window/backends/winit_backend.rs:84-121 | a close request closes the game; the loop exits iff the game is gone or not running, and polls otherwise |

## Left out

- Foreign calls: GPU device, surface, swapchain and command recording. Their successful results are parameters: handles, a memory-type table and the pipeline creation outcome. Their failures (`unwrap`/`expect` on gfx-hal calls) are not modelled.
- `TextureBinding.TextureBindings.Dispose`: does not model `wait_idle`, a foreign call.
- `TextureBinding.TextureBindings.CopyIntoStagingBuffer`: takes the allocation size as the buffer size instead of the device's memory requirements, and drops the memory-type id, which only feeds the foreign allocation.
- `ShaderBinding.ShaderBindings.constructor`: a failed sampler creation is not modelled; the sampler handle is a parameter.
- `TextureBinding.With`: image decoding and file I/O are not modelled; the decoded image, or its error, is a parameter.
- `Textures.FromFile`: the uid counter and the id of a texture are unbounded naturals. The `u64` wrap-around after 2^64 textures is not modelled.
- `EcsRealm.Realm.CreateEntity`: the `u64` entity-id counter is unbounded.
- `RenderStates.State.DrawClearFrame`: `current_frame` is unbounded; its `u64` overflow is not modelled.
- `RenderStates.State.DrawTextureWithVertices`: the same for the `current_frame += 1` at the end of `draw_texture_with_vertices` (state.rs:635).
- `GameControllers.GameController.HandleWindowEvents`: the second listener is foreign code; the model returns what it saw instead of running it.
- `GameControllers.GameController.HandleWindowEvents`: the per-event dispatch and the clearing of the queue follow `WindowEventsHandler for WinitBackend` (winit_backend.rs:357-365), which, like the backend's `window_events` field (line 71), sits in a block comment. The live backend has no queue to hand on; the model keeps the queue on the window and dispatches it as the commented-out code does.
- `poll_events` and `handle_input` in `game_controller.rs`, and the event-loop plumbing around `run` in `winit_backend.rs`: they only forward OS events and are not part of this model.
- `EcsSystem.AnySystem.Handle`: `U::try_from` is modelled with the older containers of `system_data_container.rs` and `simple_data_container.rs`, the ones `any_system.rs` imports; its panics are passed on, and its result, which the handler drops, is not kept.
- `EcsRealm.RunEach`: the map's iteration order is not modelled; the order is an output, any order that lists every label once.
- `Scenes.Scene.InitializeAll` and `Scenes.SceneDirector.Initialize`: an `initialize` hook's doings with its scene are a parameter, limited to `add_entity` and `add_component`, each entity new to the scene; a hook that removes entities, plays a scene or runs another phase from inside is not modelled.
- `CoreEntity`: component hooks are assumed to leave their entity alone (no re-entrant `add_component` or `register_unique_components` from inside a hook); a hook that changes its entity is not modelled.
- The log listeners and the timestamp: a listener is an id, and the timestamp is an opaque string.
- `Scenes.SceneDirector.Update`: the engine's timer is a parameter (whole seconds), and the request to close the game is returned instead of calling `System::close_game`; the `System` handed on to `Scene::update` is not modelled.
- The `println!` output of the scene phases, of `Scene::entering` (which `initialize` calls on the start scene and which does nothing else) and of the director's timer test: console output, not modelled.
- Floating-point data: mouse position, DPI factor, transforms and logical sizes are only carried.
- `Size`/`Vector2` over floats: only the integer element types are modelled.
- The `KeyCode` enum file is not part of this model. `KeyCodes` numbers the codes in the order `Input::new` registers them.
- `halstate.rs`: a dead revision of `state.rs`, not compiled.
- The interface-only traits, error enums and thin backend wrappers: no logic of their own.
