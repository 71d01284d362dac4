/** The scene-graph entity of the engine: a name and an ordered list of
    components, which is taken out while the components are being updated.

    A component's hooks (`added`, `update`, `render`) are foreign code; the
    model records each call, in order, in the entity's hook log and assumes
    the hooks leave the entity itself alone. */
module CoreEntity {
  import opened Wrappers
  import opened Components

  const InvalidComponentList: string := "Can't add component to entity. Entity's component list is at invalid state."

  /** The hooks an entity calls on its components. */
  datatype Phase = Added | Updated | Rendered

  datatype Hook = Hook(phase: Phase, component: Component)

  /** One call of `phase` on each component of `s`, in list order. */
  function Visits(phase: Phase, s: seq<Component>): seq<Hook>
  {
    if s == [] then [] else Visits(phase, s[..|s| - 1]) + [Hook(phase, s[|s| - 1])]
  }

  /** `Visits` calls the hook exactly once per component, in list order. */
  lemma {:induction false} VisitsExact(phase: Phase, s: seq<Component>)
    ensures |Visits(phase, s)| == |s|
    ensures forall i :: 0 <= i < |s| ==> Visits(phase, s)[i] == Hook(phase, s[i])
  {
    if s != [] {
      VisitsExact(phase, s[..|s| - 1]);
    }
  }

  /** The panic of the `require_component!` macro. */
  function RequiredMessage(name: string, t: TypeTag): string
  {
    "Entity '" + name + "' is required to has component '" + t + "'."
  }

  /** What `register_unique_component!` adds to a list that holds `have`:
      each new component in turn, unless a component of its type is already
      there (counting the ones it added before). */
  function NewOnes(have: seq<Component>, news: seq<Component>): seq<Component>
  {
    if news == [] then []
    else
      var added := NewOnes(have, news[..|news| - 1]);
      var n := news[|news| - 1];
      if HasType(have + added, n.tag) then added else added + [n]
  }

  /** `Visits` of one more component adds its hook call at the end. */
  lemma VisitsSnoc(phase: Phase, s: seq<Component>, c: Component)
    ensures Visits(phase, s + [c]) == Visits(phase, s) + [Hook(phase, c)]
  {
    assert (s + [c])[..|s|] == s;
  }

  /** `NewOnes` of one more requested component: it is added iff its type is absent. */
  lemma NewOnesSnoc(have: seq<Component>, p: seq<Component>, n: Component)
    ensures NewOnes(have, p + [n]) ==
      if HasType(have + NewOnes(have, p), n.tag) then NewOnes(have, p) else NewOnes(have, p) + [n]
  {
    assert (p + [n])[..|p|] == p;
  }

  /** One iteration of the registration loop, on values: how the components
      added so far and their hook calls grow with `news[i]`. */
  lemma RegisterStep(have: seq<Component>, news: seq<Component>, i: nat, added: seq<Component>)
    requires i < |news| && added == NewOnes(have, news[..i])
    ensures NewOnes(have, news[..i + 1]) ==
      if HasType(have + added, news[i].tag) then added else added + [news[i]]
    ensures have + added + [news[i]] == have + (added + [news[i]])
    ensures Visits(Added, added + [news[i]]) == Visits(Added, added) + [Hook(Added, news[i])]
  {
    assert news[..i + 1] == news[..i] + [news[i]];
    NewOnesSnoc(have, news[..i], news[i]);
    VisitsSnoc(Added, added, news[i]);
  }

  /** `register_unique_component!` never creates a duplicate: a type the
      list already had keeps exactly its components, any other type occurs
      at most once afterwards, and every requested type is present. */
  lemma {:induction false} NewOnesNeverDuplicate(have: seq<Component>, news: seq<Component>)
    ensures forall t :: HasType(have, t) ==> OfType(have + NewOnes(have, news), t) == OfType(have, t)
    ensures forall t :: !HasType(have, t) ==> |OfType(have + NewOnes(have, news), t)| <= 1
    ensures forall k :: 0 <= k < |news| ==> HasType(have + NewOnes(have, news), news[k].tag)
  {
    if news == [] {
      assert have + NewOnes(have, news) == have;
      forall t | !HasType(have, t)
        ensures |OfType(have, t)| <= 1
      {
        OfTypeEmptyIff(have, t);
      }
    } else {
      var p := news[..|news| - 1];
      NewOnesNeverDuplicate(have, p);
      NewOnesStep(have, p, news[|news| - 1]);
      assert p + [news[|news| - 1]] == news;
    }
  }

  /** The inductive step of `NewOnesNeverDuplicate`: one more requested component. */
  lemma NewOnesStep(have: seq<Component>, p: seq<Component>, n: Component)
    requires forall t :: HasType(have, t) ==> OfType(have + NewOnes(have, p), t) == OfType(have, t)
    requires forall t :: !HasType(have, t) ==> |OfType(have + NewOnes(have, p), t)| <= 1
    requires forall k :: 0 <= k < |p| ==> HasType(have + NewOnes(have, p), p[k].tag)
    ensures forall t :: HasType(have, t) ==> OfType(have + NewOnes(have, p + [n]), t) == OfType(have, t)
    ensures forall t :: !HasType(have, t) ==> |OfType(have + NewOnes(have, p + [n]), t)| <= 1
    ensures forall k :: 0 <= k < |p| + 1 ==> HasType(have + NewOnes(have, p + [n]), (p + [n])[k].tag)
  {
    var news := p + [n];
    assert news[..|news| - 1] == p;
    if HasType(have + NewOnes(have, p), n.tag) {
      assert NewOnes(have, news) == NewOnes(have, p);
      forall k | 0 <= k < |news|
        ensures HasType(have + NewOnes(have, p), news[k].tag)
      {
        if k < |p| {
          assert news[k] == p[k];
        }
      }
    } else {
      assert NewOnes(have, news) == NewOnes(have, p) + [n];
      assert have + NewOnes(have, news) == (have + NewOnes(have, p)) + [n];
      AppendFresh(have, p, n);
    }
  }

  /** The case of `NewOnesStep` where n's type is not yet present: `n` is appended. */
  lemma AppendFresh(have: seq<Component>, p: seq<Component>, n: Component)
    requires forall t :: HasType(have, t) ==> OfType(have + NewOnes(have, p), t) == OfType(have, t)
    requires forall t :: !HasType(have, t) ==> |OfType(have + NewOnes(have, p), t)| <= 1
    requires forall k :: 0 <= k < |p| ==> HasType(have + NewOnes(have, p), p[k].tag)
    requires !HasType(have + NewOnes(have, p), n.tag)
    ensures forall t :: HasType(have, t) ==> OfType(have + NewOnes(have, p) + [n], t) == OfType(have, t)
    ensures forall t :: !HasType(have, t) ==> |OfType(have + NewOnes(have, p) + [n], t)| <= 1
    ensures forall k :: 0 <= k < |p| + 1 ==> HasType(have + NewOnes(have, p) + [n], (p + [n])[k].tag)
  {
    var all := have + NewOnes(have, p);
    assert all[..|have|] == have;
    AppendNewType(have, all, n);
    AppendFreshCovers(all, p, n);
  }

  /** Appending `n` to a list that has the type of every element of `p`
      gives one that has the type of every element of `p + [n]`. */
  lemma AppendFreshCovers(all: seq<Component>, p: seq<Component>, n: Component)
    requires forall k :: 0 <= k < |p| ==> HasType(all, p[k].tag)
    ensures forall k :: 0 <= k < |p| + 1 ==> HasType(all + [n], (p + [n])[k].tag)
  {
    var news := p + [n];
    forall k | 0 <= k < |news|
      ensures HasType(all + [n], news[k].tag)
    {
      if k < |p| {
        assert news[k] == p[k];
        StillHasType(all, [n], p[k].tag);
      } else {
        assert (all + [n])[|all|] == n;
      }
    }
  }

  /** Appending to a list keeps every type it has. */
  lemma StillHasType(a: seq<Component>, b: seq<Component>, t: TypeTag)
    requires HasType(a, t)
    ensures HasType(a + b, t)
  {
    var i :| 0 <= i < |a| && a[i].tag == t;
    assert (a + b)[i] == a[i];
  }

  /** Appending `n` to `all`, which extends `have` and lacks n's type,
      adds exactly `n` to the components of n's type and nothing else. */
  lemma AppendNewType(have: seq<Component>, all: seq<Component>, n: Component)
    requires |have| <= |all| && all[..|have|] == have
    requires !HasType(all, n.tag)
    ensures !HasType(have, n.tag)
    ensures forall t :: OfType(all + [n], t) == OfType(all, t) + (if n.tag == t then [n] else [])
    ensures OfType(all + [n], n.tag) == [n]
  {
    assert (all + [n])[..|all|] == all;
    OfTypeEmptyIff(all, n.tag);
  }

  class Entity {
    var name: string
    /** None while `Update` has the list taken out. */
    var components: Option<seq<Component>>
    /** The component hooks called so far, in call order. */
    var hooks: seq<Hook>

    constructor (name: string)
      ensures this.name == name && components == Some([]) && hooks == []
    {
      this.name := name;
      components := Some([]);
      hooks := [];
    }

    /** Calls the component's `added` hook, then appends the component;
        aborts (after the hook) when the list is taken. */
    method AddComponent(component: Component) returns (status: Status)
      modifies this
      ensures name == old(name) && hooks == old(hooks) + [Hook(Added, component)]
      ensures old(components).None? ==> status == Panic(InvalidComponentList) && components == old(components)
      ensures old(components).Some? ==> status == Ok && components == Some(old(components).value + [component])
    {
      hooks := hooks + [Hook(Added, component)];
      match components {
        case Some(list) =>
          components := Some(list + [component]);
          status := Ok;
        case None =>
          status := Panic(InvalidComponentList);
      }
    }

    /** Whether some component has runtime type `t`, by a scan with early return. */
    method HasComponent(t: TypeTag) returns (b: bool)
      ensures b <==> components.Some? && HasType(components.value, t)
    {
      if components.None? {
        return false;
      }
      var list := components.value;
      for i := 0 to |list|
        invariant !HasType(list[..i], t)
      {
        if list[i].tag == t {
          return true;
        }
        assert forall j :: 0 <= j < i + 1 ==> list[..i + 1][j] == list[j];
      }
      assert list[..|list|] == list;
      return false;
    }

    /** The first component of runtime type `t` in list order, or None. */
    method GetComponent(t: TypeTag) returns (r: Option<Component>)
      ensures r.None? <==> components.None? || !HasType(components.value, t)
      ensures r.Some? ==>
        exists i :: 0 <= i < |components.value| && components.value[i] == r.value && r.value.tag == t && !HasType(components.value[..i], t)
    {
      if components.None? {
        return None;
      }
      var list := components.value;
      for i := 0 to |list|
        invariant !HasType(list[..i], t)
      {
        if list[i].tag == t {
          return Some(list[i]);
        }
        assert forall j :: 0 <= j < i + 1 ==> list[..i + 1][j] == list[j];
      }
      assert list[..|list|] == list;
      return None;
    }

    /** Takes the list out, calls `update` on each component in order and
        puts the list back. */
    method Update()
      modifies this
      ensures name == old(name) && components == old(components)
      ensures hooks == old(hooks) + if components.Some? then Visits(Updated, components.value) else []
    {
      var taken := components;
      components := None;
      if taken.Some? {
        var list := taken.value;
        for i := 0 to |list|
          invariant name == old(name) && components == None
          invariant hooks == old(hooks) + Visits(Updated, list[..i])
        {
          assert list[..i + 1][..i] == list[..i];
          hooks := hooks + [Hook(Updated, list[i])];
        }
        assert list[..|list|] == list;
      }
      components := taken;
    }

    /** Calls `render` on each component in order; the list stays in place. */
    method Render()
      modifies this
      ensures name == old(name) && components == old(components)
      ensures hooks == old(hooks) + if components.Some? then Visits(Rendered, components.value) else []
    {
      if components.Some? {
        var list := components.value;
        for i := 0 to |list|
          invariant name == old(name) && components == old(components)
          invariant hooks == old(hooks) + Visits(Rendered, list[..i])
        {
          assert list[..i + 1][..i] == list[..i];
          hooks := hooks + [Hook(Rendered, list[i])];
        }
        assert list[..|list|] == list;
      }
    }

    /** The entity holds a component of runtime type `t`. */
    ghost predicate Has(t: TypeTag)
      reads this
    {
      components.Some? && HasType(components.value, t)
    }

    /** `require_component!` over `types`, in order: aborts at the first type
        the entity lacks. */
    method RequireComponents(types: seq<TypeTag>) returns (status: Status)
      ensures status.Ok? <==> forall k :: 0 <= k < |types| ==> Has(types[k])
      ensures status.Panic? ==>
        exists k :: 0 <= k < |types| && status == Panic(RequiredMessage(name, types[k])) && !Has(types[k])
                    && forall j :: 0 <= j < k ==> Has(types[j])
    {
      for i := 0 to |types|
        invariant forall j :: 0 <= j < i ==> Has(types[j])
      {
        var has := HasComponent(types[i]);
        if !has {
          return Panic(RequiredMessage(name, types[i]));
        }
      }
      return Ok;
    }

    /** `register_unique_component!`: for each of `news` in order, adds it
        unless a component of its type is already present. With the list
        taken, the first addition aborts after its `added` hook. */
    method RegisterUniqueComponents(news: seq<Component>) returns (status: Status)
      modifies this
      ensures name == old(name)
      ensures news == [] ==> status == Ok && components == old(components) && hooks == old(hooks)
      ensures news != [] && old(components).None? ==>
        status == Panic(InvalidComponentList) && components == old(components) && hooks == old(hooks) + [Hook(Added, news[0])]
      ensures old(components).Some? ==>
        status == Ok
        && components == Some(old(components).value + NewOnes(old(components).value, news))
        && hooks == old(hooks) + Visits(Added, NewOnes(old(components).value, news))
    {
      if components.None? {
        status := Ok;
        if news != [] {
          status := AddComponent(news[0]);
        }
      } else {
        ghost var have := components.value;
        status := RegisterEach(news);
        assert news == [] ==> have + NewOnes(have, news) == have && Visits(Added, NewOnes(have, news)) == [];
      }
    }

    /** One step of `RegisterUniqueComponents` over a present list: adds
        `n` unless a component of its type is there. */
    method AddIfAbsent(n: Component) returns (appended: bool)
      requires components.Some?
      modifies this
      ensures name == old(name)
      ensures appended <==> !HasType(old(components).value, n.tag)
      ensures !appended ==> components == old(components) && hooks == old(hooks)
      ensures appended ==> components == Some(old(components).value + [n]) && hooks == old(hooks) + [Hook(Added, n)]
    {
      var has := HasComponent(n.tag);
      appended := !has;
      if appended {
        var status := AddComponent(n);
      }
    }

    /** One iteration of `RegisterEach`: registers `news[i]`, given the
        components `added` so far and the hook log `h0` from before the loop. */
    method RegisterNext(news: seq<Component>, i: nat, ghost have: seq<Component>, ghost added: seq<Component>, ghost h0: seq<Hook>)
      returns (ghost added': seq<Component>)
      requires i < |news| && added == NewOnes(have, news[..i])
      requires components == Some(have + added) && hooks == h0 + Visits(Added, added)
      modifies this
      ensures name == old(name)
      ensures added' == NewOnes(have, news[..i + 1])
      ensures components == Some(have + added') && hooks == h0 + Visits(Added, added')
    {
      RegisterStep(have, news, i, added);
      var appended := AddIfAbsent(news[i]);
      added' := if appended then added + [news[i]] else added;
    }

    /** The loop of `RegisterUniqueComponents` over a present list. */
    method RegisterEach(news: seq<Component>) returns (status: Status)
      requires components.Some?
      modifies this
      ensures name == old(name) && status == Ok
      ensures components == Some(old(components).value + NewOnes(old(components).value, news))
      ensures hooks == old(hooks) + Visits(Added, NewOnes(old(components).value, news))
    {
      status := Ok;
      ghost var have := components.value;
      ghost var added: seq<Component> := [];
      assert have + added == have;
      for i := 0 to |news|
        invariant name == old(name)
        invariant added == NewOnes(have, news[..i])
        invariant components == Some(have + added)
        invariant hooks == old(hooks) + Visits(Added, added)
      {
        added := RegisterNext(news, i, have, added, old(hooks));
      }
      assert news[..|news|] == news;
    }
  }
}
