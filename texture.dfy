/** A texture loaded from an image file: its GPU bindings, the uid the
    device issued for it and its own disposed flag. */
module Textures {
  import opened Wrappers
  import opened GraphicsDevices
  import opened TextureBinding
  import Disposal

  datatype TextureError = Loading(cause: BindingsError)

  class Texture {
    const bindings: TextureBindings
    const uid: nat
    var disposed: bool

    /** Device uids are never 0, and a disposed texture has disposed its
        bindings. */
    ghost predicate Valid()
      reads this, bindings
    {
      uid >= 1 && bindings.Valid() && (disposed ==> bindings.disposed)
    }

    constructor (bindings: TextureBindings, uid: nat)
      requires bindings.Valid() && uid >= 1
      ensures this.bindings == bindings && this.uid == uid && !disposed
      ensures Valid()
    {
      this.bindings := bindings;
      this.uid := uid;
      disposed := false;
    }

    function Uid(): (r: nat)
      ensures r == uid
    {
      uid
    }

    function IsDisposed(): (r: bool)
      reads this
      ensures r <==> disposed
    {
      disposed
    }

    /** The first call marks the texture disposed and disposes its
        bindings; a later call does nothing. */
    method Dispose()
      requires Valid()
      modifies this, bindings
      ensures Valid() && disposed && bindings.disposed
      ensures old(disposed) ==> bindings.destroyedBuffers == old(bindings.destroyedBuffers) && bindings.freedMemory == old(bindings.freedMemory)
      ensures !old(disposed) && !old(bindings.disposed) ==> bindings.destroyedBuffers == [bindings.uploadBuffer]
    {
      if disposed {
        return;
      }
      disposed := true;
      bindings.Dispose();
    }

    /** The texture's guard runs first, then the guard of its bindings. */
    function Drop(): (s: Status)
      reads this, bindings
      ensures s.Ok? <==> disposed && bindings.disposed
      ensures Valid() ==> (s.Ok? <==> disposed)
    {
      match Disposal.DropGuard(disposed)
      case Ok => bindings.Drop()
      case Panic(m) => Panic(m)
    }
  }

  /** `Texture::from_file`: creates the bindings first; only when that
      succeeds does the device issue a uid for the new texture. */
  method FromFile(image: Result<RgbaImage, string>, device: GraphicsDevice, buffer: Result<Handle, string>)
    returns (r: Abortable<Result<Texture, TextureError>>)
    requires image.Success? ==> WellFormed(image.value)
    requires device.Valid()
    modifies device
    ensures device.Valid()
    ensures !(r.Done? && r.value.Success?) ==> device.nextTextureUid == old(device.nextTextureUid)
    ensures r.Done? && r.value.Success? ==>
      fresh(r.value.value) && r.value.value.Valid() && !r.value.value.disposed
      && r.value.value.uid == old(device.nextTextureUid) && device.nextTextureUid == old(device.nextTextureUid) + 1
    ensures image.Failure? ==> r == Done(Failure(Loading(ImageLoading(image.error))))
  {
    var b := With(image, device, buffer);
    match b
    case Abort(m) =>
      r := Abort(m);
    case Done(Failure(e)) =>
      r := Done(Failure(Loading(e)));
    case Done(Success(bindings)) =>
      var uid := device.NextTextureUid();
      var texture := new Texture(bindings, uid);
      r := Done(Success(texture));
  }

  /** Two textures loaded through one device get distinct, increasing uids. */
  method LoadTwo(first: Result<RgbaImage, string>, second: Result<RgbaImage, string>, device: GraphicsDevice,
                 buffers: (Result<Handle, string>, Result<Handle, string>))
    returns (r: Abortable<Result<Texture, TextureError>>, s: Abortable<Result<Texture, TextureError>>)
    requires first.Success? ==> WellFormed(first.value)
    requires second.Success? ==> WellFormed(second.value)
    requires device.Valid()
    modifies device
    ensures r.Done? && r.value.Success? && s.Done? && s.value.Success? ==>
      1 <= r.value.value.uid < s.value.value.uid
  {
    r := FromFile(first, device, buffers.0);
    s := FromFile(second, device, buffers.1);
  }
}
