/** A scene: a name, a list of scene components (taken out while an
    initialize phase runs their hooks) and the entities it owns; and the
    director that keeps the scenes by name and knows which one plays.

    Scene-component hooks are foreign code: the model records each call,
    in order, in the scene's call log. Only `initialize` is handed the
    scene; what each of those hooks does with it (the entities it adds and
    the scene components it tries to add) is a parameter. The other hooks
    see only their own component. */
module Scenes {
  import opened Wrappers
  import opened Components
  import opened CoreEntity

  datatype ScenePhase = OnBeforeInitialize | OnInitialize | OnLateInitialize | OnUpdate | OnRender

  /** A hook called on a scene component, or an entity updated or rendered by the scene. */
  datatype SceneCall =
    | ComponentCall(phase: ScenePhase, component: Component)
    | EntityCall(phase: ScenePhase, entity: Entity)

  /** One call of `phase` on each scene component, in list order. */
  function Calls(phase: ScenePhase, s: seq<Component>): seq<SceneCall>
  {
    if s == [] then [] else Calls(phase, s[..|s| - 1]) + [ComponentCall(phase, s[|s| - 1])]
  }

  /** `Calls` calls the hook exactly once per component, in list order. */
  lemma {:induction false} CallsExact(phase: ScenePhase, s: seq<Component>)
    ensures |Calls(phase, s)| == |s|
    ensures forall i :: 0 <= i < |s| ==> Calls(phase, s)[i] == ComponentCall(phase, s[i])
  {
    if s != [] {
      CallsExact(phase, s[..|s| - 1]);
    }
  }

  /** One call of `phase` on each entity, in list order. */
  function EntityCalls(phase: ScenePhase, es: seq<Entity>): seq<SceneCall>
  {
    if es == [] then [] else EntityCalls(phase, es[..|es| - 1]) + [EntityCall(phase, es[|es| - 1])]
  }

  /** The scene components, or none while the list is taken. */
  function Present(components: Option<seq<Component>>): seq<Component>
  {
    if components.Some? then components.value else []
  }

  /** The entity hooks one `Update`/`Render` call of `e` adds. */
  function EntityVisits(phase: Phase, components: Option<seq<Component>>): seq<Hook>
  {
    Visits(phase, Present(components))
  }

  /** No entity occurs twice. */
  predicate DistinctEntities(es: seq<Entity>)
  {
    forall i, j :: 0 <= i < j < |es| ==> es[i] != es[j]
  }

  /** Updates each entity once, in list order. */
  method UpdateEach(es: seq<Entity>)
    requires DistinctEntities(es)
    modifies es
    ensures forall k :: 0 <= k < |es| ==>
      es[k].components == old(es[k].components)
      && es[k].hooks == old(es[k].hooks) + EntityVisits(Updated, es[k].components)
  {
    for j := 0 to |es|
      invariant forall k :: 0 <= k < |es| ==> es[k].components == old(es[k].components)
      invariant forall k :: 0 <= k < j ==> es[k].hooks == old(es[k].hooks) + EntityVisits(Updated, es[k].components)
      invariant forall k :: j <= k < |es| ==> es[k].hooks == old(es[k].hooks)
    {
      var e := es[j];
      assert forall k :: 0 <= k < |es| && k != j ==> es[k] != e;
      e.Update();
    }
  }

  /** Renders each entity once, in list order. */
  method RenderEach(es: seq<Entity>)
    requires DistinctEntities(es)
    modifies es
    ensures forall k :: 0 <= k < |es| ==>
      es[k].components == old(es[k].components)
      && es[k].hooks == old(es[k].hooks) + EntityVisits(Rendered, es[k].components)
  {
    for j := 0 to |es|
      invariant forall k :: 0 <= k < |es| ==> es[k].components == old(es[k].components)
      invariant forall k :: 0 <= k < j ==> es[k].hooks == old(es[k].hooks) + EntityVisits(Rendered, es[k].components)
      invariant forall k :: j <= k < |es| ==> es[k].hooks == old(es[k].hooks)
    {
      var e := es[j];
      assert forall k :: 0 <= k < |es| && k != j ==> es[k] != e;
      e.Render();
    }
  }

  /** The hooks that receive only their own component: every one but
      `initialize`, which is handed the whole scene. */
  predicate SceneBlind(phase: ScenePhase)
  {
    phase != OnInitialize
  }

  /** What one scene component's `initialize` hook does with the scene it is
      handed: the entities it adds and the scene components it tries to add,
      each in call order. */
  datatype InitEffect = InitEffect(newEntities: seq<Entity>, newComponents: seq<Component>)

  /** The entities a run of hooks adds, hook by hook. */
  function AddedEntities(effects: seq<InitEffect>): seq<Entity>
  {
    if effects == [] then [] else AddedEntities(effects[..|effects| - 1]) + effects[|effects| - 1].newEntities
  }

  /** The hooks before `i` add a prefix of what all hooks add. */
  lemma {:induction false} AddedEntitiesSplit(effects: seq<InitEffect>, i: nat)
    requires i <= |effects|
    ensures AddedEntities(effects) == AddedEntities(effects[..i]) + AddedEntities(effects[i..])
  {
    if i == |effects| {
      assert effects[..i] == effects && effects[i..] == [];
    } else {
      var init := effects[..|effects| - 1];
      AddedEntitiesSplit(init, i);
      assert init[..i] == effects[..i];
      assert effects[i..][..|effects[i..]| - 1] == init[i..];
    }
  }

  /** A part of a list without repeats has none. */
  lemma DistinctPrefix(s: seq<Entity>, t: seq<Entity>, whole: seq<Entity>)
    requires whole == s + t && DistinctEntities(whole)
    ensures DistinctEntities(s) && forall e :: e in t ==> e !in s
  {
    forall i, j | 0 <= i < j < |s|
      ensures s[i] != s[j]
    {
      assert whole[i] == s[i] && whole[j] == s[j];
    }
    forall e | e in t
      ensures e !in s
    {
      var j :| 0 <= j < |t| && t[j] == e;
      assert whole[|s| + j] == e;
      forall i | 0 <= i < |s|
        ensures s[i] != e
      {
        assert whole[i] == s[i];
      }
    }
  }

  class Scene {
    var name: string
    var components: Option<seq<Component>>
    var entities: seq<Entity>
    /** The hooks and entity visits issued so far, in call order. */
    var calls: seq<SceneCall>

    /** The scene owns its entities: each occurs once. */
    ghost predicate Valid()
      reads this
    {
      DistinctEntities(entities)
    }

    constructor (name: string)
      ensures Valid()
      ensures this.name == name && components == Some([]) && entities == [] && calls == []
    {
      this.name := name;
      components := Some([]);
      entities := [];
      calls := [];
    }

    /** Calls `phase` on each of `list`, in order. These hooks receive only
        their own component, never the scene, so the scene changes only by
        the calls it records. */
    method CallEach(phase: ScenePhase, list: seq<Component>)
      requires SceneBlind(phase)
      modifies this
      ensures name == old(name) && components == old(components) && entities == old(entities)
      ensures calls == old(calls) + Calls(phase, list)
    {
      for i := 0 to |list|
        invariant name == old(name) && components == old(components) && entities == old(entities)
        invariant calls == old(calls) + Calls(phase, list[..i])
      {
        assert list[..i + 1][..i] == list[..i];
        calls := calls + [ComponentCall(phase, list[i])];
      }
      assert list[..|list|] == list;
    }

    /** Takes the component list out, calls `phase` on each component in
        order and puts the list back. */
    method InitializePhase(phase: ScenePhase)
      requires SceneBlind(phase)
      modifies this
      ensures name == old(name) && components == old(components) && entities == old(entities)
      ensures calls == old(calls) + Calls(phase, Present(components))
    {
      var taken := components;
      components := None;
      if taken.Some? {
        CallEach(phase, taken.value);
      }
      components := taken;
    }

    method BeforeInitializeAll()
      modifies this
      ensures name == old(name) && components == old(components) && entities == old(entities)
      ensures calls == old(calls) + Calls(OnBeforeInitialize, Present(components))
    {
      InitializePhase(OnBeforeInitialize);
    }

    /** Pushes each of `es`, in order, as `add_entity` does. */
    method AddEntities(es: seq<Entity>)
      requires DistinctEntities(entities + es)
      modifies this
      ensures Valid()
      ensures entities == old(entities) + es
      ensures name == old(name) && components == old(components) && calls == old(calls)
    {
      for j := 0 to |es|
        invariant entities == old(entities) + es[..j]
        invariant name == old(name) && components == old(components) && calls == old(calls)
      {
        assert (old(entities) + es)[..|old(entities)| + j] == entities;
        assert (old(entities) + es)[|old(entities)| + j] == es[j];
        DistinctPrefix(entities, es[j..], old(entities) + es);
        assert es[j] !in entities;
        AddEntity(es[j]);
        assert es[..j + 1] == es[..j] + [es[j]];
      }
      assert es[..|es|] == es;
      DistinctPrefix(entities, [], entities);
    }

    /** One `initialize` hook: the call on `component`, then what it does
        with the scene. Its entities are pushed; its scene components are
        offered to `AddComponent` while the list is taken, so none is kept. */
    method InitializeOne(component: Component, effect: InitEffect)
      requires components.None? && DistinctEntities(entities + effect.newEntities)
      modifies this
      ensures name == old(name) && components.None?
      ensures entities == old(entities) + effect.newEntities
      ensures calls == old(calls) + [ComponentCall(OnInitialize, component)]
    {
      calls := calls + [ComponentCall(OnInitialize, component)];
      AddEntities(effect.newEntities);
      var offered := effect.newComponents;
      for j := 0 to |offered|
        invariant name == old(name) && components.None?
        invariant entities == old(entities) + effect.newEntities
        invariant calls == old(calls) + [ComponentCall(OnInitialize, component)]
      {
        AddComponent(offered[j]);
      }
    }

    /** Calls `initialize` on each of `list`, in order, handing the hook the
        scene: the `effects[i]` of the `i`-th hook are carried out right after
        its call. Its entities join the scene; its scene components are
        offered to `AddComponent` while the list is taken, so none is kept. */
    method InitializeEach(list: seq<Component>, effects: seq<InitEffect>)
      requires components.None? && |effects| == |list|
      requires DistinctEntities(entities + AddedEntities(effects))
      modifies this
      ensures Valid()
      ensures name == old(name) && components == old(components)
      ensures entities == old(entities) + AddedEntities(effects)
      ensures calls == old(calls) + Calls(OnInitialize, list)
    {
      for i := 0 to |list|
        invariant name == old(name) && components.None?
        invariant entities == old(entities) + AddedEntities(effects[..i])
        invariant calls == old(calls) + Calls(OnInitialize, list[..i])
      {
        assert list[..i + 1][..i] == list[..i];
        assert effects[..i + 1][..i] == effects[..i];
        var added := AddedEntities(effects[..i + 1]);
        assert added == AddedEntities(effects[..i]) + effects[i].newEntities;
        AddedEntitiesSplit(effects, i + 1);
        assert old(entities) + AddedEntities(effects) == (old(entities) + added) + AddedEntities(effects[i + 1..]);
        DistinctPrefix(old(entities) + added, AddedEntities(effects[i + 1..]), old(entities) + AddedEntities(effects));
        assert entities + effects[i].newEntities == old(entities) + added;
        InitializeOne(list[i], effects[i]);
      }
      assert list[..|list|] == list;
      assert effects[..|effects|] == effects;
      DistinctPrefix(entities, [], entities);
    }

    /** `initialize`: takes the component list out, runs each component's
        hook with the scene in hand (`effects`, one per component, in list
        order) and puts the list back. The entities the hooks add stay;
        the scene components they add are lost, since the list is out. */
    method InitializeAll(effects: seq<InitEffect>)
      requires |effects| == |Present(components)|
      requires DistinctEntities(entities + AddedEntities(effects))
      modifies this
      ensures Valid()
      ensures name == old(name) && components == old(components)
      ensures entities == old(entities) + AddedEntities(effects)
      ensures calls == old(calls) + Calls(OnInitialize, Present(components))
    {
      var taken := components;
      components := None;
      if taken.Some? {
        InitializeEach(taken.value, effects);
      } else {
        DistinctPrefix(entities, [], entities);
      }
      components := taken;
    }

    method LateInitializeAll()
      modifies this
      ensures name == old(name) && components == old(components) && entities == old(entities)
      ensures calls == old(calls) + Calls(OnLateInitialize, Present(components))
    {
      InitializePhase(OnLateInitialize);
    }

    /** Updates the scene components in order, then each entity in order,
        which updates its own components. */
    method Update()
      requires Valid()
      modifies this, entities
      ensures name == old(name) && components == old(components) && entities == old(entities)
      ensures calls == old(calls) + Calls(OnUpdate, Present(components)) + EntityCalls(OnUpdate, entities)
      ensures forall k :: 0 <= k < |entities| ==>
        entities[k].components == old(entities[k].components)
        && entities[k].hooks == old(entities[k].hooks) + EntityVisits(Updated, entities[k].components)
    {
      CallEach(OnUpdate, Present(components));
      UpdateEach(entities);
      calls := calls + EntityCalls(OnUpdate, entities);
    }

    /** Renders the scene components in order, then each entity in order. */
    method Render()
      requires Valid()
      modifies this, entities
      ensures name == old(name) && components == old(components) && entities == old(entities)
      ensures calls == old(calls) + Calls(OnRender, Present(components)) + EntityCalls(OnRender, entities)
      ensures forall k :: 0 <= k < |entities| ==>
        entities[k].components == old(entities[k].components)
        && entities[k].hooks == old(entities[k].hooks) + EntityVisits(Rendered, entities[k].components)
    {
      CallEach(OnRender, Present(components));
      RenderEach(entities);
      calls := calls + EntityCalls(OnRender, entities);
    }

    /** Appends a scene component; does nothing while the list is taken. */
    method AddComponent(component: Component)
      modifies this
      ensures name == old(name) && entities == old(entities) && calls == old(calls)
      ensures old(components).Some? ==> components == Some(old(components).value + [component])
      ensures old(components).None? ==> components == old(components)
    {
      if components.Some? {
        components := Some(components.value + [component]);
      }
    }

    /** Appends an entity; the scene takes ownership of it, so it cannot
        already be in the list. */
    method AddEntity(entity: Entity)
      requires Valid() && entity !in entities
      modifies this
      ensures Valid()
      ensures entities == old(entities) + [entity]
      ensures name == old(name) && components == old(components) && calls == old(calls)
    {
      entities := entities + [entity];
    }

    /** Removes the first entity that is the very same object as `entity`
        and reports whether one was found; the list is unchanged otherwise.
        In safe Rust the found case cannot arise: `remove_entity` borrows the
        scene mutably, so no caller can hold a reference to one of its
        entities at the same time. The model still states what the code
        would do. */
    method RemoveEntity(entity: Entity) returns (removed: bool)
      requires Valid()
      modifies this
      ensures Valid()
      ensures name == old(name) && components == old(components) && calls == old(calls)
      ensures removed <==> entity in old(entities)
      ensures !removed ==> entities == old(entities)
      ensures removed ==>
        exists i :: 0 <= i < |old(entities)| && old(entities)[i] == entity && entity !in old(entities)[..i]
          && entities == old(entities)[..i] + old(entities)[i + 1..]
    {
      var i := 0;
      while i < |entities|
        invariant 0 <= i <= |entities| && entities == old(entities)
        invariant entity !in entities[..i]
      {
        if entities[i] == entity {
          entities := entities[..i] + entities[i + 1..];
          forall a, b | 0 <= a < b < |entities|
            ensures entities[a] != entities[b]
          {
            var a' := if a < i then a else a + 1;
            var b' := if b < i then b else b + 1;
            assert entities[a] == old(entities)[a'] && entities[b] == old(entities)[b'];
          }
          return true;
        }
        assert entities[..i + 1] == entities[..i] + [entities[i]];
        i := i + 1;
      }
      assert entities[..i] == entities;
      return false;
    }
  }

  /** The timer test ends once the engine's timer reaches this many whole seconds. */
  const TimerTestSecs: nat := 3

  const StartSceneNotDefined: string := "Starting scene not defined.\nBefore initializing, please call play(scene_name)."

  function SceneNotFound(name: string): string
  {
    "Scene with name '" + name + "' not found."
  }

  function StartSceneNotFound(name: string): string
  {
    "Scene with name '" + name + "' not found, when initializing start scene."
  }

  datatype SceneError = DuplicateScene(name: string)

  /** No scene object is stored under two names. */
  predicate DistinctScenes(table: map<string, Scene>)
  {
    forall a, b :: a in table && b in table && a != b ==> table[a] != table[b]
  }

  class SceneDirector {
    var currentSceneName: Option<string>
    var scenes: map<string, Scene>

    /** The director owns its scenes: each is stored once. */
    ghost predicate Valid()
      reads this
    {
      DistinctScenes(scenes)
    }

    constructor ()
      ensures Valid()
      ensures currentSceneName == None && scenes == map[]
    {
      currentSceneName := None;
      scenes := map[];
    }

    /** Stores `scene` under its own name, or rejects a name already used. */
    method Insert(scene: Scene) returns (r: Result<Scene, SceneError>)
      requires Valid() && scene !in scenes.Values
      modifies this
      ensures Valid()
      ensures currentSceneName == old(currentSceneName)
      ensures scene.name in old(scenes) ==> r == Failure(DuplicateScene(scene.name)) && scenes == old(scenes)
      ensures scene.name !in old(scenes) ==> r == Success(scene) && scenes == old(scenes)[scene.name := scene]
    {
      if scene.name in scenes {
        return Failure(DuplicateScene(scene.name));
      }
      scenes := scenes[scene.name := scene];
      r := Success(scene);
    }

    function Get(sceneName: string): (r: Option<Scene>)
      reads this
      ensures r.Some? <==> sceneName in scenes
      ensures r.Some? ==> r.value == scenes[sceneName]
    {
      if sceneName in scenes then Some(scenes[sceneName]) else None
    }

    function ContainsWithName(sceneName: string): (r: bool)
      reads this
      ensures r <==> Get(sceneName).Some?
    {
      sceneName in scenes
    }

    /** Chooses the scene stored under `sceneName`, recording the scene's own
        name; aborts for an unknown name. */
    method Play(sceneName: string) returns (status: Status)
      modifies this
      ensures scenes == old(scenes)
      ensures sceneName in scenes ==> status == Ok && currentSceneName == Some(scenes[sceneName].name)
      ensures sceneName !in scenes ==> status == Panic(SceneNotFound(sceneName)) && currentSceneName == old(currentSceneName)
    {
      match Get(sceneName) {
        case Some(scene) =>
          currentSceneName := Some(scene.name);
          status := Ok;
        case None =>
          status := Panic(SceneNotFound(sceneName));
      }
    }

    /** The scene stored under the current scene name, if any. */
    function CurrentScene(): (r: Option<Scene>)
      reads this
      ensures r.Some? <==> currentSceneName.Some? && currentSceneName.value in scenes
      ensures r.Some? ==> r.value == scenes[currentSceneName.value]
    {
      match currentSceneName
      case Some(n) => Get(n)
      case None => None
    }

    /** `update`: the current scene, if any, updates its components and then
        its entities; afterwards the director asks to close the game once the
        engine's timer, `elapsedSecs` whole seconds, reaches the end of the
        timer test. Other scenes are left alone. */
    method Update(elapsedSecs: nat) returns (closeGame: bool)
      requires Valid()
      requires CurrentScene().Some? ==> CurrentScene().value.Valid()
      modifies if CurrentScene().Some? then {CurrentScene().value} else {}
      modifies if CurrentScene().Some? then CurrentScene().value.entities else []
      ensures closeGame <==> elapsedSecs >= TimerTestSecs
      ensures CurrentScene().Some? ==>
        var scene := CurrentScene().value;
        scene.components == old(scene.components) && scene.entities == old(scene.entities)
        && scene.calls == old(scene.calls) + Calls(OnUpdate, Present(scene.components)) + EntityCalls(OnUpdate, scene.entities)
        && forall k :: 0 <= k < |scene.entities| ==>
          scene.entities[k].hooks == old(scene.entities[k].hooks) + EntityVisits(Updated, scene.entities[k].components)
      ensures forall n :: n in scenes && Some(scenes[n]) != CurrentScene() ==> scenes[n].calls == old(scenes[n].calls)
    {
      match CurrentScene() {
        case Some(scene) =>
          scene.Update();
        case None =>
      }
      closeGame := elapsedSecs >= TimerTestSecs;
    }

    /** `render`: the current scene, if any, renders its components and then
        its entities. Other scenes are left alone. */
    method Render()
      requires Valid()
      requires CurrentScene().Some? ==> CurrentScene().value.Valid()
      modifies if CurrentScene().Some? then {CurrentScene().value} else {}
      modifies if CurrentScene().Some? then CurrentScene().value.entities else []
      ensures CurrentScene().Some? ==>
        var scene := CurrentScene().value;
        scene.components == old(scene.components) && scene.entities == old(scene.entities)
        && scene.calls == old(scene.calls) + Calls(OnRender, Present(scene.components)) + EntityCalls(OnRender, scene.entities)
        && forall k :: 0 <= k < |scene.entities| ==>
          scene.entities[k].hooks == old(scene.entities[k].hooks) + EntityVisits(Rendered, scene.entities[k].components)
      ensures forall n :: n in scenes && Some(scenes[n]) != CurrentScene() ==> scenes[n].calls == old(scenes[n].calls)
    {
      match CurrentScene() {
        case Some(scene) =>
          scene.Render();
        case None =>
      }
    }

    /** Runs each initialize phase over all scenes (before-initialize for
        every scene, then initialize, then late-initialize), then checks that
        the start scene was chosen and exists. `effects[n]` are the
        `initialize` hooks' doings in the scene stored under `n`. */
    method Initialize(effects: map<string, seq<InitEffect>>) returns (status: Status)
      requires Valid()
      requires scenes.Keys <= effects.Keys
      requires forall n :: n in scenes ==> HooksFit(scenes[n].components, scenes[n].entities, effects[n])
      modifies scenes.Values
      ensures currentSceneName.None? ==> status == Panic(StartSceneNotDefined)
      ensures currentSceneName.Some? && currentSceneName.value !in scenes ==>
        status == Panic(StartSceneNotFound(currentSceneName.value))
      ensures currentSceneName.Some? && currentSceneName.value in scenes ==> status == Ok
      ensures forall n :: n in scenes ==>
        scenes[n].components == old(scenes[n].components) && scenes[n].name == old(scenes[n].name)
        && scenes[n].entities == old(scenes[n].entities) + AddedEntities(effects[n]) && scenes[n].Valid()
        && scenes[n].calls == old(scenes[n].calls) + Calls(OnBeforeInitialize, Present(scenes[n].components))
             + Calls(OnInitialize, Present(scenes[n].components)) + Calls(OnLateInitialize, Present(scenes[n].components))
    {
      PhaseEach(scenes, OnBeforeInitialize);
      InitializeEvery(scenes, effects);
      PhaseEach(scenes, OnLateInitialize);
      match currentSceneName {
        case None =>
          return Panic(StartSceneNotDefined);
        case Some(start) =>
          if start !in scenes {
            return Panic(StartSceneNotFound(start));
          }
          status := Ok;
      }
    }
  }

  /** `hooks` hold one entry per scene component, and the entities they add
      are new to the scene. */
  predicate HooksFit(components: Option<seq<Component>>, entities: seq<Entity>, hooks: seq<InitEffect>)
  {
    |hooks| == |Present(components)| && DistinctEntities(entities + AddedEntities(hooks))
  }

  /** Runs one of the hooks that do not see the scene on every scene of
      `table`, in the map's (unspecified) order. */
  method PhaseEach(table: map<string, Scene>, phase: ScenePhase)
    requires DistinctScenes(table) && SceneBlind(phase)
    modifies table.Values
    ensures forall n :: n in table ==>
      table[n].components == old(table[n].components) && table[n].name == old(table[n].name)
      && table[n].entities == old(table[n].entities)
      && table[n].calls == old(table[n].calls) + Calls(phase, Present(table[n].components))
  {
    var todo := table.Keys;
    while todo != {}
      invariant todo <= table.Keys
      invariant forall n :: n in table ==>
        table[n].components == old(table[n].components) && table[n].name == old(table[n].name)
        && table[n].entities == old(table[n].entities)
      invariant forall n :: n in table && n !in todo ==>
        table[n].calls == old(table[n].calls) + Calls(phase, Present(table[n].components))
      invariant forall n :: n in todo ==> table[n].calls == old(table[n].calls)
      decreases |todo|
    {
      var n :| n in todo;
      table[n].InitializePhase(phase);
      todo := todo - {n};
    }
  }

  /** Runs `initialize` on every scene of `table`, in the map's
      (unspecified) order, each with the hooks' doings `effects` gives it. */
  method InitializeEvery(table: map<string, Scene>, effects: map<string, seq<InitEffect>>)
    requires DistinctScenes(table)
    requires table.Keys <= effects.Keys
    requires forall n :: n in table ==> HooksFit(table[n].components, table[n].entities, effects[n])
    modifies table.Values
    ensures forall n :: n in table ==>
      table[n].components == old(table[n].components) && table[n].name == old(table[n].name)
      && table[n].entities == old(table[n].entities) + AddedEntities(effects[n]) && table[n].Valid()
      && table[n].calls == old(table[n].calls) + Calls(OnInitialize, Present(table[n].components))
  {
    var todo := table.Keys;
    while todo != {}
      invariant todo <= table.Keys
      invariant forall n :: n in table ==>
        table[n].components == old(table[n].components) && table[n].name == old(table[n].name)
        && (if n in todo then
              table[n].entities == old(table[n].entities) && table[n].calls == old(table[n].calls)
            else
              table[n].entities == old(table[n].entities) + AddedEntities(effects[n])
              && table[n].calls == old(table[n].calls) + Calls(OnInitialize, Present(table[n].components)))
      decreases |todo|
    {
      var n :| n in todo;
      assert HooksFit(table[n].components, table[n].entities, effects[n]);
      assert forall m :: m in table && m != n ==> table[m] != table[n];
      table[n].InitializeAll(effects[n]);
      todo := todo - {n};
    }
  }

  /** A scene inserted under a fresh name and then played becomes the
      current scene. */
  method InsertThenPlay(director: SceneDirector, scene: Scene) returns (status: Status)
    requires director.Valid() && scene !in director.scenes.Values && scene.name !in director.scenes
    modifies director
    ensures status == Ok && director.CurrentScene() == Some(scene)
  {
    var inserted := director.Insert(scene);
    status := director.Play(scene.name);
  }
}
