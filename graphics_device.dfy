/** The graphics device: the gfx-hal device and adapter the renderer works
    through, plus the counter that hands out texture uids. Both revisions of
    the type (the newer one reaches device and adapter through its backend)
    hold the same state and issue uids the same way.

    Device and adapter are foreign handles; the model keeps them as opaque
    identifiers, together with the limits the adapter reports. The `u64`
    counter is unbounded here. */
module GraphicsDevices {
  import Layouts

  /** Opaque handle of a foreign gfx-hal object. */
  type Handle = nat

  /** The two limits the model reads from the physical device. */
  datatype Limits = Limits(nonCoherentAtomSize: Layouts.U64, optimalBufferCopyPitchAlignment: Layouts.U64)

  class GraphicsDevice {
    const device: Handle
    const adapter: Handle
    const limits: Limits
    var nextTextureUid: nat

    /** The uid counter never hands out 0. */
    predicate Valid()
      reads this
    {
      nextTextureUid >= 1
    }

    constructor (device: Handle, adapter: Handle, limits: Limits)
      ensures this.device == device && this.adapter == adapter && this.limits == limits
      ensures nextTextureUid == 1
      ensures Valid()
    {
      this.device := device;
      this.adapter := adapter;
      this.limits := limits;
      nextTextureUid := 1;
    }

    /** Returns the current counter and advances it by one; device, adapter
        and limits are constants and so stay as they are. */
    method NextTextureUid() returns (uid: nat)
      requires Valid()
      modifies this
      ensures Valid()
      ensures uid == old(nextTextureUid) && nextTextureUid == uid + 1
      ensures uid >= 1
    {
      uid := nextTextureUid;
      nextTextureUid := nextTextureUid + 1;
    }
  }

  /** Successive uids from one device are non-zero and strictly increasing. */
  method TwoUids(d: GraphicsDevice) returns (a: nat, b: nat)
    requires d.Valid()
    modifies d
    ensures d.Valid()
    ensures 0 < a < b
    ensures a == old(d.nextTextureUid) && b == a + 1 && d.nextTextureUid == b + 1
  {
    a := d.NextTextureUid();
    b := d.NextTextureUid();
  }
}
