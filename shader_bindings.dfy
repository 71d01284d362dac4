/** The descriptor layout and sampler a shader is bound with. Both backend
    revisions keep the same state and follow the same disposal protocol:
    the first `dispose` destroys the sampler, any later one does nothing,
    and dropping the bindings before disposing them ends the process.

    The sampler is a foreign object; the model keeps its handle and records
    each destroy call issued for it. Descriptor entries are foreign values
    and are kept as opaque handles. */
module ShaderBinding {
  import opened Wrappers
  import opened GraphicsDevices
  import Disposal

  class ShaderBindings {
    var descriptorsSetLayout: seq<Handle>
    var descriptorsPool: seq<Handle>
    /** The sampler created with the bindings. */
    const sampler: Handle
    var disposed: bool
    /** The samplers destroyed through these bindings, in call order. */
    var destroyedSamplers: seq<Handle>

    /** The sampler is destroyed exactly when the bindings are disposed, and
        then exactly once. */
    predicate Valid()
      reads this
    {
      destroyedSamplers == if disposed then [sampler] else []
    }

    /** Empty descriptor lists, a fresh sampler, not disposed. A failure to
        create the sampler is foreign and not part of the model. */
    constructor (sampler: Handle)
      ensures descriptorsSetLayout == [] && descriptorsPool == []
      ensures this.sampler == sampler && !disposed && destroyedSamplers == []
      ensures Valid()
    {
      descriptorsSetLayout := [];
      descriptorsPool := [];
      this.sampler := sampler;
      disposed := false;
      destroyedSamplers := [];
    }

    function IsDisposed(): (r: bool)
      reads this
      ensures r <==> disposed
    {
      disposed
    }

    method Dispose()
      requires Valid()
      modifies this
      ensures Valid() && disposed
      ensures descriptorsSetLayout == old(descriptorsSetLayout) && descriptorsPool == old(descriptorsPool)
      ensures old(disposed) ==> destroyedSamplers == old(destroyedSamplers)
      ensures !old(disposed) ==> destroyedSamplers == old(destroyedSamplers) + [sampler]
    {
      if disposed {
        return;
      }
      disposed := true;
      destroyedSamplers := destroyedSamplers + [sampler];
    }

    /** The drop guard. */
    function Drop(): (s: Status)
      reads this
      ensures s.Ok? <==> disposed
    {
      Disposal.DropGuard(disposed)
    }
  }

  /** Disposing twice destroys the sampler once, and the bindings may then
      be dropped. */
  method DisposeTwice(b: ShaderBindings)
    requires b.Valid() && !b.disposed
    modifies b
    ensures b.destroyedSamplers == [b.sampler]
    ensures b.Drop() == Ok
  {
    b.Dispose();
    b.Dispose();
  }
}
