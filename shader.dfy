/** A compiled shader: its vertex and fragment SPIR-V words and the bindings
    it owns. Disposing the shader disposes its bindings once. */
module Shaders {
  import opened Wrappers
  import opened GraphicsDevices
  import opened ShaderBinding
  import Disposal

  /** A SPIR-V word, a Rust `u32`. */
  type Word = x: int | 0 <= x < 0x1_0000_0000

  class Shader {
    const bindings: ShaderBindings
    const vertexData: seq<Word>
    const fragmentData: seq<Word>
    var disposed: bool

    /** A disposed shader has disposed its bindings. The bindings are a
        public field, so they may also be disposed on their own first. */
    predicate Valid()
      reads this, bindings
    {
      bindings.Valid() && (disposed ==> bindings.disposed)
    }

    /** Creates the bindings with `sampler` and stores the words. */
    constructor (vertexData: seq<Word>, fragmentData: seq<Word>, sampler: Handle)
      ensures this.vertexData == vertexData && this.fragmentData == fragmentData
      ensures !disposed && fresh(bindings) && bindings.sampler == sampler
      ensures Valid()
    {
      bindings := new ShaderBindings(sampler);
      this.vertexData := vertexData;
      this.fragmentData := fragmentData;
      disposed := false;
    }

    function VertexData(): (r: seq<Word>)
      ensures r == vertexData
    {
      vertexData[..]
    }

    function FragmentData(): (r: seq<Word>)
      ensures r == fragmentData
    {
      fragmentData[..]
    }

    function IsDisposed(): (r: bool)
      reads this
      ensures r <==> disposed
    {
      disposed
    }

    method Dispose()
      requires Valid()
      modifies this, bindings
      ensures Valid() && disposed
      ensures old(disposed) ==> bindings.destroyedSamplers == old(bindings.destroyedSamplers)
      ensures !old(disposed) && old(bindings.disposed) ==> bindings.destroyedSamplers == old(bindings.destroyedSamplers)
      ensures !old(disposed) && !old(bindings.disposed) ==>
        bindings.destroyedSamplers == old(bindings.destroyedSamplers) + [bindings.sampler]
    {
      if disposed {
        return;
      }
      disposed := true;
      bindings.Dispose();
    }

    /** The shader's guard runs first, then the guard of its bindings. */
    function Drop(): (s: Status)
      reads this, bindings
      ensures s.Ok? <==> disposed && bindings.disposed
    {
      match Disposal.DropGuard(disposed)
      case Ok => bindings.Drop()
      case Panic(m) => Panic(m)
    }
  }

  /** A second dispose is a no-op: the sampler is destroyed once, and the
      shader may be dropped. */
  method DisposeTwice(s: Shader)
    requires s.Valid() && !s.disposed
    modifies s, s.bindings
    ensures s.bindings.destroyedSamplers == [s.bindings.sampler]
    ensures s.Drop() == Ok
  {
    s.Dispose();
    s.Dispose();
  }
}
