/** The type-erased system wrapper of the entity-component-system.

    An `AnySystem` boxes a user system of type T whose data container type
    is U. The user system itself is foreign code: the model keeps its type
    tag and a record of how often its setup and run hooks were invoked and
    which component lists its handler received. */
module EcsSystem {
  import opened Wrappers
  import opened Components
  import Legacy = EcsLegacyContainers

  const SystemIsNoneOnSetup: string := "Impossible to setup, system is None."
  const SystemIsNoneOnRun: string := "Impossible to run, system is None."
  const CannotReconstruct: string := "Can't reconstruct system type."
  /** The panic of `Vec::remove` with an index not below the length
      (shortened, as in the container module). */
  const RemovalOutOfBounds: string := Legacy.RemovalOutOfBounds

  /** The boxed user system: its runtime type and the hook invocations it saw. */
  datatype SystemBox = SystemBox(tag: TypeTag, setups: nat, runs: nat, handled: seq<seq<Component>>)

  /** Removing `idx[0]`, then `idx[1]`, ... from `s`, each index taken
      against the list as it is at that moment (no adjustment for earlier
      removals). Yields the removed components in removal order and what is
      left, or the abort of the first out-of-range removal. */
  function RemoveAtEach(s: seq<Component>, idx: seq<nat>): (r: Abortable<(seq<Component>, seq<Component>)>)
    ensures r.Abort? ==> r.message == RemovalOutOfBounds
    ensures r.Done? ==> |r.value.0| == |idx| && |r.value.1| + |idx| == |s|
    ensures r.Done? ==> multiset(r.value.0) + multiset(r.value.1) == multiset(s)
    decreases |idx|
  {
    if idx == [] then Done(([], s))
    else if idx[0] >= |s| then Abort(RemovalOutOfBounds)
    else
      var i := idx[0];
      assert s == s[..i] + [s[i]] + s[i + 1..];
      assert multiset(s) == multiset(s[..i] + s[i + 1..]) + multiset{s[i]};
      PrefixRemoved([s[i]], RemoveAtEach(s[..i] + s[i + 1..], idx[1..]))
  }

  /** `a` with `removed` put in front of its removed components. */
  function PrefixRemoved(removed: seq<Component>, a: Abortable<(seq<Component>, seq<Component>)>): Abortable<(seq<Component>, seq<Component>)>
  {
    match a
    case Abort(m) => Abort(m)
    case Done(p) => Done((removed + p.0, p.1))
  }

  lemma PrefixRemovedAssociates(a: seq<Component>, b: seq<Component>, x: Abortable<(seq<Component>, seq<Component>)>)
    ensures PrefixRemoved(a, PrefixRemoved(b, x)) == PrefixRemoved(a + b, x)
  {
    if x.Done? {
      assert a + (b + x.value.0) == (a + b) + x.value.0;
    }
  }

  /** The filter closure of both system wrappers: the positions of
      `components` holding a component of runtime type `t`, collected with a
      running counter. */
  method FilterIndices(components: seq<Component>, t: TypeTag) returns (indices: seq<nat>)
    ensures indices == PositionsOfType(components, t)
  {
    indices := [];
    var i := 0;
    while i < |components|
      invariant 0 <= i <= |components|
      invariant indices == PositionsOfType(components[..i], t)
    {
      assert components[..i + 1][..i] == components[..i];
      if components[i].tag == t {
        indices := indices + [i];
      }
      i := i + 1;
    }
    assert components[..i] == components;
  }

  /** The removal loop of the handlers: removes at each index in turn,
      collecting what it removes; `Vec::remove` aborts on an index past the end. */
  method RemoveAt(components: seq<Component>, indices: seq<nat>) returns (r: Abortable<(seq<Component>, seq<Component>)>)
    ensures r == RemoveAtEach(components, indices)
  {
    var requirements: seq<Component> := [];
    var comps := components;
    assert PrefixRemoved([], RemoveAtEach(components, indices)) == RemoveAtEach(components, indices) by {
      var x := RemoveAtEach(components, indices);
      if x.Done? {
        assert [] + x.value.0 == x.value.0;
      }
    }
    for j := 0 to |indices|
      invariant PrefixRemoved(requirements, RemoveAtEach(comps, indices[j..])) == RemoveAtEach(components, indices)
    {
      assert indices[j..][0] == indices[j] && indices[j..][1..] == indices[j + 1..];
      if indices[j] >= |comps| {
        return Abort(RemovalOutOfBounds);
      }
      PrefixRemovedAssociates(requirements, [comps[indices[j]]], RemoveAtEach(comps[..indices[j]] + comps[indices[j] + 1..], indices[j + 1..]));
      requirements := requirements + [comps[indices[j]]];
      comps := comps[..indices[j]] + comps[indices[j] + 1..];
    }
    assert requirements + [] == requirements;
    return Done((requirements, comps));
  }

  /** What `handle` does to one entity's component list `components` when
      the system is present, for a filter looking for `t` and a data
      container of static shape `shape`: nothing when no component matches;
      otherwise the unadjusted removals, then `try_from` on the removed
      components. Yields the removed components (empty iff none matched)
      and the list left behind, or the abort of a removal or of the
      conversion. The conversion's own result is dropped by the handler. */
  function HandleStep(components: seq<Component>, t: TypeTag, shape: Legacy.Shape): (r: Abortable<(seq<Component>, seq<Component>)>)
    ensures r.Done? ==> multiset(r.value.0) + multiset(r.value.1) == multiset(components)
    ensures r.Done? ==> (r.value.0 == [] <==> !HasType(components, t))
  {
    if !HasType(components, t) then Done(([], components))
    else
      PositionsOfTypeExact(components, t);
      var removal := RemoveAtEach(components, PositionsOfType(components, t));
      if removal.Abort? then removal
      else
        match Legacy.TryFrom(shape, removal.value.0).0
        case Abort(m) => Abort(m)
        case Done(_) => removal
  }

  /** With a single match at `i`, the removal takes exactly that component. */
  lemma OneMatchRemoval(components: seq<Component>, t: TypeTag)
    requires |PositionsOfType(components, t)| == 1
    ensures var i := PositionsOfType(components, t)[0];
      i < |components| && components[i].tag == t && HasType(components, t)
      && RemoveAtEach(components, PositionsOfType(components, t)) == Done(([components[i]], components[..i] + components[i + 1..]))
  {
    var idx := PositionsOfType(components, t);
    PositionsHaveType(components, t);
    var i := idx[0];
    assert components[i].tag == t;
    var left := components[..i] + components[i + 1..];
    assert idx[1..] == [];
    assert RemoveAtEach(left, idx[1..]) == Done(([], left));
    calc {
      RemoveAtEach(components, idx);
      PrefixRemoved([components[i]], RemoveAtEach(left, idx[1..]));
      Done(([components[i]] + [], left));
      { assert [components[i]] + [] == [components[i]]; }
      Done(([components[i]], left));
    }
  }

  /** A single matching component handed to a one-slot container of another
      component type: the removal succeeds, and `try_from`'s downcast panics.
      The filter looks for the container type itself, never its own element
      type, so this is the single-match case of every one-slot system. */
  lemma OneMatchIntoOtherSimplePanics(components: seq<Component>, t: TypeTag, c: TypeTag)
    requires |PositionsOfType(components, t)| == 1 && c != t
    ensures HandleStep(components, t, Legacy.SimpleOf(c)) == Abort(Legacy.CannotConvert)
  {
    OneMatchRemoval(components, t);
    var i := PositionsOfType(components, t)[0];
    assert Legacy.TryFrom(Legacy.SimpleOf(c), [components[i]]).0 == Abort(Legacy.CannotConvert);
  }

  /** Several matching components handed to a one-slot container: once the
      removals complete, `try_from` only reports the wrong length, which the
      handler drops, so nothing panics and the matches are simply gone. */
  lemma SeveralMatchesIntoSimpleDropped(components: seq<Component>, t: TypeTag, c: TypeTag)
    requires |PositionsOfType(components, t)| >= 2
    requires RemoveAtEach(components, PositionsOfType(components, t)).Done?
    ensures HandleStep(components, t, Legacy.SimpleOf(c)) == RemoveAtEach(components, PositionsOfType(components, t))
  {
    PositionsOfTypeExact(components, t);
    assert components[PositionsOfType(components, t)[0]].tag == t;
  }

  class AnySystem {
    var sys: Option<SystemBox>
    /** T, the type the system was registered with. */
    const systemType: TypeTag
    /** U, the type the filter looks for. */
    const dataType: TypeTag
    /** U's static shape, the container `try_from` converts into. */
    const shape: Legacy.Shape

    /** A present system always has the registration type. */
    ghost predicate Valid()
      reads this
    {
      sys.Some? ==> sys.value.tag == systemType
    }

    constructor (system: TypeTag, dataType: TypeTag, shape: Legacy.Shape)
      ensures Valid()
      ensures sys == Some(SystemBox(system, 0, 0, []))
      ensures systemType == system && this.dataType == dataType && this.shape == shape
    {
      sys := Some(SystemBox(system, 0, 0, []));
      systemType := system;
      this.dataType := dataType;
      this.shape := shape;
    }

    /** The setup thunk applied to the stored system, which is taken for the
        call and put back afterwards. */
    method Setup() returns (status: Status)
      modifies this
      ensures Valid()
      ensures old(sys).None? ==> status == Panic(SystemIsNoneOnSetup)
      ensures old(sys).Some? && old(sys).value.tag != systemType ==> status == Panic(CannotReconstruct)
      ensures old(sys).Some? && old(sys).value.tag == systemType ==>
        status == Ok && sys == Some(old(sys).value.(setups := old(sys).value.setups + 1))
    {
      var s := sys;
      sys := None;
      match s {
        case None =>
          return Panic(SystemIsNoneOnSetup);
        case Some(b) =>
          if b.tag != systemType {
            return Panic(CannotReconstruct);
          }
          s := Some(b.(setups := b.setups + 1));
      }
      sys := s;
      status := Ok;
    }

    /** The run thunk applied to the stored system, which is taken for the
        call and put back afterwards. */
    method Run() returns (status: Status)
      modifies this
      ensures Valid()
      ensures old(sys).None? ==> status == Panic(SystemIsNoneOnRun)
      ensures old(sys).Some? && old(sys).value.tag != systemType ==> status == Panic(CannotReconstruct)
      ensures old(sys).Some? && old(sys).value.tag == systemType ==>
        status == Ok && sys == Some(old(sys).value.(runs := old(sys).value.runs + 1))
    {
      var s := sys;
      sys := None;
      match s {
        case None =>
          return Panic(SystemIsNoneOnRun);
        case Some(b) =>
          if b.tag != systemType {
            return Panic(CannotReconstruct);
          }
          s := Some(b.(runs := b.runs + 1));
      }
      sys := s;
      status := Ok;
    }

    /** Removes from `components` the entries at the filter's indices, in
        ascending order and without adjusting later indices for earlier
        removals, and hands them to the handler, which converts them with
        `try_from`. They are never put back: `rest` is the entity's list
        afterwards. */
    method Handle(components: seq<Component>) returns (status: Status, rest: seq<Component>)
      modifies this
      ensures old(Valid()) ==> Valid()
      ensures !HasType(components, dataType) ==> status == Ok && rest == components && sys == old(sys)
      ensures HasType(components, dataType) && RemoveAtEach(components, PositionsOfType(components, dataType)).Abort? ==>
        status == Panic(RemovalOutOfBounds)
      ensures HasType(components, dataType) && RemoveAtEach(components, PositionsOfType(components, dataType)).Done? && old(sys).None? ==>
        status == Panic(SystemIsNoneOnRun)
      ensures old(sys).Some? ==>
        match HandleStep(components, dataType, shape)
        case Abort(m) => status == Panic(m)
        case Done(p) =>
          status == Ok && rest == p.1
          && sys == if p.0 == [] then old(sys) else Some(old(sys).value.(handled := old(sys).value.handled + [p.0]))
    {
      var indices := FilterIndices(components, dataType);
      PositionsOfTypeExact(components, dataType);
      if |indices| == 0 {
        assert !HasType(components, dataType);
        return Ok, components;
      }
      assert HasType(components, dataType) by {
        assert components[indices[0]].tag == dataType;
      }
      var removal := RemoveAt(components, indices);
      if removal.Abort? {
        return Panic(removal.message), components;
      }
      var (requirements, comps) := removal.value;
      var s := sys;
      sys := None;
      match s {
        case None =>
          return Panic(SystemIsNoneOnRun), comps;
        case Some(b) =>
          var (converted, _) := Legacy.TryFrom(shape, requirements);
          if converted.Abort? {
            return Panic(converted.message), comps;
          }
          s := Some(b.(handled := b.handled + [requirements]));
      }
      sys := s;
      status, rest := Ok, comps;
    }

    /** The stored system; aborts when it is absent (taken). */
    function GetSystem(): (r: Abortable<SystemBox>)
      reads this
      ensures r.Abort? <==> sys.None?
      ensures r.Abort? ==> r.message == SystemIsNoneOnRun
      ensures r.Done? ==> Some(r.value) == sys
    {
      match sys
      case Some(b) => Done(b)
      case None => Abort(SystemIsNoneOnRun)
    }
  }

  /** Two matches side by side: the filter reports [0, 1], and after the
      first removal index 1 is past the end, so the handler aborts. */
  lemma UnadjustedRemovalAborts(u: Component, v: Component, t: TypeTag)
    requires u.tag == t && v.tag == t
    ensures PositionsOfType([u, v], t) == [0, 1]
    ensures RemoveAtEach([u, v], [0, 1]) == Abort(RemovalOutOfBounds)
  {
    assert [u, v][..1] == [u];
    assert [u][..0] == [];
    assert PositionsOfType([u], t) == [0];
    assert [u, v][..0] + [u, v][1..] == [v];
    assert [0, 1][1..] == [1];
  }

  /** Matches at 0 and 1 before a non-matching component: the second removal
      takes the non-matching component and a match stays in the list. */
  lemma UnadjustedRemovalTakesWrongComponent(u: Component, v: Component, x: Component, t: TypeTag)
    requires u.tag == t && v.tag == t && x.tag != t
    ensures PositionsOfType([u, v, x], t) == [0, 1]
    ensures RemoveAtEach([u, v, x], [0, 1]) == Done(([u, x], [v]))
  {
    assert [u, v, x][..2] == [u, v];
    UnadjustedRemovalAborts(u, v, t);
    assert [u, v, x][..0] + [u, v, x][1..] == [v, x];
    assert [v, x][..1] + [v, x][2..] == [v];
    assert [0, 1][1..] == [1] && [1][1..] == [];
    var vx := [v, x];
    assert vx[1] == x && vx[..1] + vx[2..] == [v];
    assert RemoveAtEach([v], []) == Done(([], [v]));
    assert [x] + [] == [x];
    assert RemoveAtEach(vx, [1]) == Done(([x], [v]));
    var uvx := [u, v, x];
    assert uvx[0] == u && uvx[..0] + uvx[1..] == vx;
    assert [u] + [x] == [u, x];
  }
}
