/** The guards every GPU resource runs when it is dropped: a resource that
    was never disposed ends the process, one by one or over a collection. */
module Disposal {
  import opened Wrappers

  const NotDisposed: string := "Managed resource hasn't been properly disposed.\nPlease, call dispose() at it!"

  /** `panic_if_resource_isnt_disposed!` for a resource whose disposed flag is `disposed`. */
  function DropGuard(disposed: bool): (s: Status)
    ensures s.Ok? <==> disposed
    ensures s.Panic? ==> s.message == NotDisposed
  {
    if !disposed then Panic(NotDisposed) else Ok
  }

  /** The index of the first resource not disposed, if any. */
  function FirstUndisposed(flags: seq<bool>): (r: Option<nat>)
    ensures r.None? <==> forall i :: 0 <= i < |flags| ==> flags[i]
    ensures r.Some? ==> r.value < |flags| && !flags[r.value] && forall i :: 0 <= i < r.value ==> flags[i]
  {
    if flags == [] then None
    else if !flags[0] then Some(0)
    else
      var rest := FirstUndisposed(flags[1..]);
      if rest.None? then None else Some(rest.value + 1)
  }

  /** `panic_if_resources_isnt_disposed!`: checks the flags in order and
      aborts at the first resource that is not disposed. */
  method GuardAll(flags: seq<bool>) returns (s: Status, checked: nat)
    ensures s.Ok? <==> forall i :: 0 <= i < |flags| ==> flags[i]
    ensures s.Panic? ==> s.message == NotDisposed
    ensures s.Ok? ==> checked == |flags|
    ensures s.Panic? ==> FirstUndisposed(flags) == Some(checked - 1)
  {
    checked := 0;
    while checked < |flags|
      invariant checked <= |flags|
      invariant forall i :: 0 <= i < checked ==> flags[i]
    {
      checked := checked + 1;
      if !flags[checked - 1] {
        return Panic(NotDisposed), checked;
      }
    }
    s := Ok;
  }
}
