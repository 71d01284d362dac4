/** Runtime-typed components, shared by both entity revisions.

    Rust stores components as `Box<dyn Component>` and recovers their concrete
    type with `as_any().is::<T>()` / `downcast_ref::<T>()`. The model gives
    every component an explicit type tag: "the downcast to T succeeds" is
    "tag == T". The `instance` field stands for the identity of the box, so
    two components of the same type stay distinguishable. */
module Components {

  type TypeTag = string

  /** `u64` entity identifiers (overflow of the id counter is not modelled). */
  type EntityId = nat

  datatype Component = Component(tag: TypeTag, instance: nat)

  /** Every component of `s` has runtime type `t`. */
  predicate AllOfType(s: seq<Component>, t: TypeTag)
  {
    forall i :: 0 <= i < |s| ==> s[i].tag == t
  }

  /** Some component of `s` has runtime type `t`. */
  predicate HasType(s: seq<Component>, t: TypeTag)
  {
    exists i :: 0 <= i < |s| && s[i].tag == t
  }

  /** The components of `s` whose runtime type is `t`, in list order. */
  function OfType(s: seq<Component>, t: TypeTag): (r: seq<Component>)
    ensures |r| <= |s|
    ensures AllOfType(r, t)
  {
    if s == [] then []
    else OfType(s[..|s| - 1], t) + (if s[|s| - 1].tag == t then [s[|s| - 1]] else [])
  }

  /** The components of `s` whose runtime type is not `t`, in list order. */
  function NotOfType(s: seq<Component>, t: TypeTag): (r: seq<Component>)
    ensures |r| <= |s|
    ensures !HasType(r, t)
  {
    if s == [] then []
    else NotOfType(s[..|s| - 1], t) + (if s[|s| - 1].tag != t then [s[|s| - 1]] else [])
  }

  /** The positions of `s`, in ascending order, whose component has
      runtime type `t` (see `PositionsOfTypeExact`). */
  function PositionsOfType(s: seq<Component>, t: TypeTag): seq<nat>
  {
    if s == [] then []
    else PositionsOfType(s[..|s| - 1], t) + (if s[|s| - 1].tag == t then [|s| - 1] else [])
  }

  /** `PositionsOfType` lists exactly the positions holding a component of
      type `t`, each once, strictly ascending. */
  lemma PositionsOfTypeExact(s: seq<Component>, t: TypeTag)
    ensures forall i :: 0 <= i < |PositionsOfType(s, t)| ==>
      PositionsOfType(s, t)[i] < |s| && s[PositionsOfType(s, t)[i]].tag == t
    ensures forall i, j :: 0 <= i < j < |PositionsOfType(s, t)| ==> PositionsOfType(s, t)[i] < PositionsOfType(s, t)[j]
    ensures forall k :: 0 <= k < |s| && s[k].tag == t ==> k in PositionsOfType(s, t)
  {
    PositionsHaveType(s, t);
    PositionsAscend(s, t);
    PositionsComplete(s, t);
  }

  /** Every listed position is in range and holds a component of type `t`. */
  lemma {:induction false} PositionsHaveType(s: seq<Component>, t: TypeTag)
    ensures forall i :: 0 <= i < |PositionsOfType(s, t)| ==>
      PositionsOfType(s, t)[i] < |s| && s[PositionsOfType(s, t)[i]].tag == t
  {
    if s != [] {
      var p := s[..|s| - 1];
      PositionsHaveType(p, t);
      var q := PositionsOfType(p, t);
      var all := PositionsOfType(s, t);
      assert all == q + (if s[|s| - 1].tag == t then [|s| - 1] else []);
      forall i | 0 <= i < |all|
        ensures all[i] < |s| && s[all[i]].tag == t
      {
        if i < |q| {
          assert all[i] == q[i] && s[q[i]] == p[q[i]];
        }
      }
    }
  }

  /** The listed positions ascend strictly, and all lie below `|s|`. */
  lemma {:induction false} PositionsAscend(s: seq<Component>, t: TypeTag)
    ensures forall i :: 0 <= i < |PositionsOfType(s, t)| ==> PositionsOfType(s, t)[i] < |s|
    ensures forall i, j :: 0 <= i < j < |PositionsOfType(s, t)| ==> PositionsOfType(s, t)[i] < PositionsOfType(s, t)[j]
  {
    if s != [] {
      var p := s[..|s| - 1];
      PositionsAscend(p, t);
      var q := PositionsOfType(p, t);
      var all := PositionsOfType(s, t);
      assert all == q + (if s[|s| - 1].tag == t then [|s| - 1] else []);
      forall i | 0 <= i < |all|
        ensures all[i] < |s|
      {
        if i < |q| {
          assert all[i] == q[i];
        }
      }
      forall i, j | 0 <= i < j < |all|
        ensures all[i] < all[j]
      {
        assert all[i] == q[i];
        if j < |q| {
          assert all[j] == q[j];
        }
      }
    }
  }

  /** Every position holding a component of type `t` is listed. */
  lemma {:induction false} PositionsComplete(s: seq<Component>, t: TypeTag)
    ensures forall k :: 0 <= k < |s| && s[k].tag == t ==> k in PositionsOfType(s, t)
  {
    if s != [] {
      var p := s[..|s| - 1];
      var last := |s| - 1;
      PositionsComplete(p, t);
      var q := PositionsOfType(p, t);
      var all := PositionsOfType(s, t);
      assert all == q + (if s[last].tag == t then [last] else []);
      forall k | 0 <= k < |s| && s[k].tag == t
        ensures k in all
      {
        if k < last {
          assert p[k] == s[k];
          var m :| 0 <= m < |q| && q[m] == k;
          assert all[m] == k;
        } else {
          assert all[|q|] == k;
        }
      }
    }
  }

  /** Splitting a list by type loses and duplicates nothing. */
  lemma {:induction false} TypeSplitIsPartition(s: seq<Component>, t: TypeTag)
    ensures multiset(OfType(s, t)) + multiset(NotOfType(s, t)) == multiset(s)
  {
    if s != [] {
      var p := s[..|s| - 1];
      var x := s[|s| - 1];
      TypeSplitIsPartition(p, t);
      assert s == p + [x];
      if x.tag == t {
        assert OfType(s, t) == OfType(p, t) + [x];
        assert NotOfType(s, t) == NotOfType(p, t);
      } else {
        assert OfType(s, t) == OfType(p, t);
        assert NotOfType(s, t) == NotOfType(p, t) + [x];
      }
      assert multiset(s) == multiset(p) + multiset{x};
    }
  }

  /** A component is captured by `OfType` exactly as often as it occurs in `s`
      when it has type `t`, and never otherwise. */
  lemma {:induction false} OfTypeCount(s: seq<Component>, t: TypeTag, x: Component)
    ensures multiset(OfType(s, t))[x] == if x.tag == t then multiset(s)[x] else 0
  {
    if s != [] {
      var p := s[..|s| - 1];
      OfTypeCount(p, t, x);
      assert s == p + [s[|s| - 1]];
    }
  }

  /** Nothing of type `t` means nothing is captured, and the rest is the whole list. */
  lemma {:induction false} OfTypeEmptyIff(s: seq<Component>, t: TypeTag)
    ensures OfType(s, t) == [] <==> !HasType(s, t)
    ensures !HasType(s, t) ==> NotOfType(s, t) == s
  {
    if s != [] {
      var p := s[..|s| - 1];
      OfTypeEmptyIff(p, t);
      assert s == p + [s[|s| - 1]];
      if HasType(s, t) && s[|s| - 1].tag != t {
        var i :| 0 <= i < |s| && s[i].tag == t;
        assert p[i].tag == t;
      }
    }
  }

  /** Extending a list by one element extends each side of the split by at most that element. */
  lemma SplitStep(s: seq<Component>, k: nat, t: TypeTag)
    requires k < |s|
    ensures OfType(s[..k + 1], t) == OfType(s[..k], t) + (if s[k].tag == t then [s[k]] else [])
    ensures NotOfType(s[..k + 1], t) == NotOfType(s[..k], t) + (if s[k].tag != t then [s[k]] else [])
  {
    assert s[..k + 1][..k] == s[..k];
  }
}
