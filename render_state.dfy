/** The rules the gfx-hal renderer state keeps around its GPU plumbing: the
    per-frame resources and the ring of frame slots the draws cycle
    through, the padding of the vertex buffer, the choice of a memory type,
    the skip of a texture that is already loaded and the one-time creation
    of the graphics pipeline.

    Everything else the state does (surface, swapchain, command recording,
    submission and presentation, raw memory mapping) is foreign; failures
    of those calls are not part of the model. GPU objects are opaque
    handles, and the `u64` frame counter is unbounded. */
module RenderStates {
  import opened Wrappers
  import opened GraphicsDevices
  import opened Layouts
  import Numbers
  import Textures

  const MissingPipeline: string := "Missing graphics pipeline."
  const MissingVertexBuffer: string := "Missing vertex buffer."
  const MissingPipelineLayout: string := "Missing pipeline layout."
  const RemainderByZero: string := "attempt to calculate the remainder with a divisor of zero"
  const ShiftOverflow: string := "attempt to shift left with overflow"
  const EmptyVertexBuffer: string := "assertion failed: `(left != right)`\n  left: `0`,\n right: `0`"
  const NoneUnwrapped: string := "called `Option::unwrap()` on a `None` value"

  /** The message of `unwrap` on an `Err` holding the string `e`. */
  function ErrUnwrapped(e: string): string
  {
    "called `Result::unwrap()` on an `Err` value: \"" + e + "\""
  }

  datatype Property = DeviceLocal | CpuVisible | Coherent | CpuCached | LazilyAllocated

  datatype MemoryType = MemoryType(properties: set<Property>)

  /** Memory type `id` is allowed by `typeMask` and has every requested property. */
  predicate Suits(types: seq<MemoryType>, typeMask: U32, wanted: set<Property>, id: nat)
    requires id < |types|
  {
    And(typeMask, Numbers.Pow2(id)) != 0 && wanted <= types[id].properties
  }

  /** `get_memory_type` from index `id` on: the first suitable index, in
      order. `1 << id` is a `u32` shift, which aborts once `id` reaches 32;
      running out of types aborts in `unwrap`. */
  function FirstMemoryType(types: seq<MemoryType>, typeMask: U32, wanted: set<Property>, id: nat): (r: Abortable<nat>)
    requires id <= |types| && id <= 32
    decreases |types| - id
    ensures r.Done? <==> exists j :: id <= j < |types| && j < 32 && Suits(types, typeMask, wanted, j)
    ensures r.Done? ==>
      id <= r.value < |types| && r.value < 32 && Suits(types, typeMask, wanted, r.value)
      && forall j :: id <= j < r.value ==> !Suits(types, typeMask, wanted, j)
    ensures r.Abort? ==> r.message == if |types| > 32 then ShiftOverflow else NoneUnwrapped
  {
    if id == |types| then Abort(NoneUnwrapped)
    else if id >= 32 then Abort(ShiftOverflow)
    else if Suits(types, typeMask, wanted, id) then Done(id)
    else FirstMemoryType(types, typeMask, wanted, id + 1)
  }

  /** The slots `n` draws use, starting with frame counter `start`. */
  function Slots(start: nat, n: nat, frames: nat): (s: seq<nat>)
    requires frames > 0
    ensures |s| == n && forall i :: 0 <= i < n ==> s[i] < frames
  {
    seq(n, i requires 0 <= i < n => (start + i) % frames)
  }

  /** Any `frames` consecutive draws use every slot exactly once. */
  lemma SlotsCycle(start: nat, frames: nat)
    requires frames > 0
    ensures forall i, j :: 0 <= i < j < frames ==> Slots(start, frames, frames)[i] != Slots(start, frames, frames)[j]
    ensures forall slot :: 0 <= slot < frames ==> slot in Slots(start, frames, frames)
  {
    var s := Slots(start, frames, frames);
    forall i, j | 0 <= i < j < frames
      ensures s[i] != s[j]
    {
      DistinctRemainders(start + i, start + j, frames);
    }
    forall slot | 0 <= slot < frames
      ensures slot in s
    {
      var i := (slot - start % frames + frames) % frames;
      HitsSlot(start, slot, frames, i);
      assert s[i] == slot;
    }
  }

  /** Two numbers less than `f` apart have different remainders. */
  lemma DistinctRemainders(a: nat, b: nat, f: nat)
    requires f > 0 && a < b < a + f
    ensures a % f != b % f
  {
    var r := a % f;
    var q := a / f;
    assert a == q * f + r;
    var d := b - a;
    if d + r < f {
      DivUnique(b, f, q, d + r);
    } else {
      assert (q + 1) * f == q * f + f;
      DivUnique(b, f, q + 1, d + r - f);
    }
  }

  lemma HitsSlot(start: nat, slot: nat, f: nat, i: nat)
    requires f > 0 && slot < f && i == (slot - start % f + f) % f
    ensures i < f && (start + i) % f == slot
  {
    var q := start / f;
    assert start == q * f + start % f;
    var t := slot - start % f + f;
    assert 0 < t < 2 * f;
    if t < f {
      DivUnique(t, f, 0, t);
      DivUnique(start + i, f, q + 1, slot);
    } else {
      DivUnique(t, f, 1, t - f);
      DivUnique(start + i, f, q, slot);
    }
  }

  /** A created vertex buffer: the vertex bytes and the padded size. */
  datatype VertexBuffer = VertexBuffer(length: U64, paddedLength: U64)

  /** The command pool each command buffer is allocated from. */
  datatype CommandBuffer = CommandBuffer(pool: Handle)

  /** The per-frame resources `State::new` creates. The first command pool
      already exists; a further pool is created for each frame after the
      first, then a semaphore, a fence and a command buffer per frame, the
      buffer of frame `i` from pool `i`. New handles are `next`, `next + 1`, ... */
  method CreateFrameResources(frames: nat, firstPool: Handle, next: Handle)
    returns (pools: seq<Handle>, semaphores: seq<Handle>, fences: seq<Handle>, buffers: seq<CommandBuffer>)
    ensures |pools| == if frames == 0 then 1 else frames
    ensures |semaphores| == frames && |fences| == frames && |buffers| == frames
    ensures pools[0] == firstPool
    ensures forall i :: 0 <= i < frames ==> buffers[i] == CommandBuffer(pools[i])
    ensures forall i :: 1 <= i < |pools| ==> pools[i] == next + i - 1
  {
    pools := [firstPool];
    var handle := next;
    var i := 1;
    while i < frames
      invariant 1 <= i <= (if frames == 0 then 1 else frames)
      invariant |pools| == i && pools[0] == firstPool && handle == next + i - 1
      invariant forall k :: 1 <= k < i ==> pools[k] == next + k - 1
    {
      pools := pools + [handle];
      handle := handle + 1;
      i := i + 1;
    }
    semaphores, fences, buffers := [], [], [];
    for i := 0 to frames
      invariant |semaphores| == i && |fences| == i && |buffers| == i
      invariant forall k :: 0 <= k < i ==> buffers[k] == CommandBuffer(pools[k])
    {
      semaphores := semaphores + [handle];
      fences := fences + [handle + 1];
      buffers := buffers + [CommandBuffer(pools[i])];
      handle := handle + 2;
    }
  }

  class State {
    const framesInFlight: nat
    const memoryTypes: seq<MemoryType>
    const nonCoherentAtomSize: U64
    var currentFrame: nat
    var commandPools: seq<Handle>
    var semaphores: seq<Handle>
    var fences: seq<Handle>
    var commandBuffers: seq<CommandBuffer>
    var vertexBuffer: Option<VertexBuffer>
    var vertexMemoryType: Option<nat>
    var graphicsPipeline: Option<Handle>
    var pipelineLayout: Option<Handle>
    var loadedTextureUid: nat
    /** The frame slot of every draw, in draw order. */
    var usedSlots: seq<nat>
    /** The uids of the textures uploaded, in upload order. */
    var uploads: seq<nat>

    /** The pipeline and its layout are created together. */
    ghost predicate Valid()
      reads this
    {
      graphicsPipeline.Some? <==> pipelineLayout.Some?
    }

    constructor (framesInFlight: nat, firstPool: Handle, next: Handle, memoryTypes: seq<MemoryType>, nonCoherentAtomSize: U64)
      ensures this.framesInFlight == framesInFlight && this.memoryTypes == memoryTypes
      ensures this.nonCoherentAtomSize == nonCoherentAtomSize
      ensures currentFrame == 0 && loadedTextureUid == 0
      ensures vertexBuffer.None? && vertexMemoryType.None? && graphicsPipeline.None? && pipelineLayout.None?
      ensures |commandPools| == (if framesInFlight == 0 then 1 else framesInFlight)
      ensures |semaphores| == framesInFlight && |fences| == framesInFlight && |commandBuffers| == framesInFlight
      ensures usedSlots == [] && uploads == []
      ensures Valid()
    {
      this.framesInFlight := framesInFlight;
      this.memoryTypes := memoryTypes;
      this.nonCoherentAtomSize := nonCoherentAtomSize;
      currentFrame := 0;
      var pools, sems, fs, buffers := CreateFrameResources(framesInFlight, firstPool, next);
      commandPools, semaphores, fences, commandBuffers := pools, sems, fs, buffers;
      vertexBuffer, vertexMemoryType := None, None;
      graphicsPipeline, pipelineLayout := None, None;
      loadedTextureUid := 0;
      usedSlots, uploads := [], [];
    }

    /** Takes the slot of the current frame: `current_frame % frames_in_flight`,
        which aborts when there are no frames in flight. */
    method TakeSlot() returns (s: Status)
      modifies this
      ensures framesInFlight == 0 ==> s == Panic(RemainderByZero) && usedSlots == old(usedSlots)
      ensures framesInFlight > 0 ==> s == Ok && usedSlots == old(usedSlots) + [old(currentFrame) % framesInFlight]
      ensures currentFrame == old(currentFrame) && vertexBuffer == old(vertexBuffer) && vertexMemoryType == old(vertexMemoryType)
      ensures graphicsPipeline == old(graphicsPipeline) && pipelineLayout == old(pipelineLayout)
      ensures loadedTextureUid == old(loadedTextureUid) && uploads == old(uploads)
      ensures commandPools == old(commandPools) && semaphores == old(semaphores) && fences == old(fences) && commandBuffers == old(commandBuffers)
    {
      if framesInFlight == 0 {
        return Panic(RemainderByZero);
      }
      usedSlots := usedSlots + [currentFrame % framesInFlight];
      s := Ok;
    }

    /** `draw_clear_frame`: takes the frame's slot, aborts when pipeline,
        vertex buffer or pipeline layout is missing (in that order), and
        otherwise advances the frame counter by one. */
    method DrawClearFrame() returns (s: Status)
      modifies this
      ensures framesInFlight == 0 ==> s == Panic(RemainderByZero)
      ensures framesInFlight > 0 ==> usedSlots == old(usedSlots) + [old(currentFrame) % framesInFlight]
      ensures framesInFlight > 0 && graphicsPipeline.None? ==> s == Panic(MissingPipeline)
      ensures framesInFlight > 0 && graphicsPipeline.Some? && vertexBuffer.None? ==> s == Panic(MissingVertexBuffer)
      ensures framesInFlight > 0 && graphicsPipeline.Some? && vertexBuffer.Some? && pipelineLayout.None? ==> s == Panic(MissingPipelineLayout)
      ensures s.Ok? <==> framesInFlight > 0 && graphicsPipeline.Some? && vertexBuffer.Some? && pipelineLayout.Some?
      ensures currentFrame == if s.Ok? then old(currentFrame) + 1 else old(currentFrame)
      ensures vertexBuffer == old(vertexBuffer) && graphicsPipeline == old(graphicsPipeline) && pipelineLayout == old(pipelineLayout)
      ensures loadedTextureUid == old(loadedTextureUid) && uploads == old(uploads)
    {
      s := TakeSlot();
      if s.Panic? {
        return;
      }
      if graphicsPipeline.None? {
        return Panic(MissingPipeline);
      }
      if vertexBuffer.None? {
        return Panic(MissingVertexBuffer);
      }
      if pipelineLayout.None? {
        return Panic(MissingPipelineLayout);
      }
      currentFrame := currentFrame + 1;
    }

    /** `get_memory_type`. */
    function GetMemoryType(typeMask: U32, wanted: set<Property>): (r: Abortable<nat>)
      ensures r.Done? ==> r.value < |memoryTypes| && Suits(memoryTypes, typeMask, wanted, r.value)
      ensures r.Done? ==> forall j :: 0 <= j < r.value ==> !Suits(memoryTypes, typeMask, wanted, j)
      ensures r.Abort? <==> forall j :: 0 <= j < |memoryTypes| && j < 32 ==> !Suits(memoryTypes, typeMask, wanted, j)
    {
      FirstMemoryType(memoryTypes, typeMask, wanted, 0)
    }

    /** `load_vertices` for `count` vertices of `stride` bytes: the byte
        length (a `u64` product) must be non-zero; the buffer is created with
        the length padded to the non-coherent atom size, and its memory is
        the first CPU-visible type the buffer's `typeMask` allows. */
    method LoadVertices(count: U64, stride: U64, typeMask: U32) returns (r: Abortable<nat>)
      modifies this
      ensures count * stride >= U64Limit ==> r == Abort(Numbers.MulOverflow)
      ensures count * stride == 0 ==> r == Abort(EmptyVertexBuffer)
      ensures 0 < count * stride < U64Limit && PadToAtom(count * stride, nonCoherentAtomSize).Abort? ==>
        r == Abort(PadToAtom(count * stride, nonCoherentAtomSize).message)
      ensures 0 < count * stride < U64Limit && PadToAtom(count * stride, nonCoherentAtomSize).Done? ==>
        r == GetMemoryType(typeMask, {CpuVisible})
      ensures r.Done? ==>
        vertexBuffer == Some(VertexBuffer(count * stride, PadToAtom(count * stride, nonCoherentAtomSize).value))
        && LeastMultipleFrom(vertexBuffer.value.paddedLength, count * stride, nonCoherentAtomSize)
        && vertexMemoryType == Some(r.value)
      ensures graphicsPipeline == old(graphicsPipeline) && pipelineLayout == old(pipelineLayout)
      ensures currentFrame == old(currentFrame) && usedSlots == old(usedSlots)
      ensures loadedTextureUid == old(loadedTextureUid) && uploads == old(uploads)
    {
      var length := count * stride;
      if length >= U64Limit {
        return Abort(Numbers.MulOverflow);
      }
      if length == 0 {
        return Abort(EmptyVertexBuffer);
      }
      var padded := PadToAtom(length, nonCoherentAtomSize);
      if padded.Abort? {
        return Abort(padded.message);
      }
      PadToAtomIsLeastMultiple(length, nonCoherentAtomSize);
      r := GetMemoryType(typeMask, {CpuVisible});
      if r.Abort? {
        return;
      }
      vertexBuffer := Some(VertexBuffer(length, padded.value));
      vertexMemoryType := Some(r.value);
    }

    /** `load_texture`: nothing happens when the texture's uid is the one
        loaded last; otherwise its pixels are copied into its staging
        buffer, the image memory takes the first device-local type that the
        image's `imageTypeMask` allows (a panic when there is none), and the
        texture is uploaded and its uid recorded. */
    method LoadTexture(texture: Textures.Texture, imageTypeMask: U32) returns (s: Status)
      requires texture.Valid() && !texture.bindings.disposed
      modifies this, texture.bindings
      ensures texture.Valid()
      ensures old(loadedTextureUid) == texture.uid ==>
        s == Ok && uploads == old(uploads) && loadedTextureUid == old(loadedTextureUid)
        && texture.bindings.uploadMemory == old(texture.bindings.uploadMemory)
      ensures old(loadedTextureUid) != texture.uid ==> texture.bindings.uploadMemory.Some?
      ensures old(loadedTextureUid) != texture.uid && GetMemoryType(imageTypeMask, {DeviceLocal}).Abort? ==>
        s == Panic(GetMemoryType(imageTypeMask, {DeviceLocal}).message)
        && uploads == old(uploads) && loadedTextureUid == old(loadedTextureUid)
      ensures old(loadedTextureUid) != texture.uid && GetMemoryType(imageTypeMask, {DeviceLocal}).Done? ==>
        s == Ok && uploads == old(uploads) + [texture.uid] && loadedTextureUid == texture.uid
      ensures vertexBuffer == old(vertexBuffer) && graphicsPipeline == old(graphicsPipeline) && pipelineLayout == old(pipelineLayout)
      ensures currentFrame == old(currentFrame) && usedSlots == old(usedSlots)
    {
      if loadedTextureUid == texture.Uid() {
        return Ok;
      }
      var _ := texture.bindings.CopyIntoStagingBuffer();
      var imageMemoryType := GetMemoryType(imageTypeMask, {DeviceLocal});
      if imageMemoryType.Abort? {
        return Panic(imageMemoryType.message);
      }
      uploads := uploads + [texture.uid];
      loadedTextureUid := texture.Uid();
      s := Ok;
    }

    /** `create_pipeline`: returns at once when a pipeline exists; otherwise
        `creation` is the outcome of building the layout and the pipeline. */
    method CreatePipeline(creation: Result<(Handle, Handle), string>) returns (r: Result<(), string>)
      requires Valid()
      modifies this
      ensures Valid()
      ensures old(graphicsPipeline).Some? ==> r.Success? && graphicsPipeline == old(graphicsPipeline) && pipelineLayout == old(pipelineLayout)
      ensures old(graphicsPipeline).None? && creation.Failure? ==>
        r == Failure(creation.error) && graphicsPipeline.None? && pipelineLayout == old(pipelineLayout)
      ensures old(graphicsPipeline).None? && creation.Success? ==>
        r.Success? && pipelineLayout == Some(creation.value.0) && graphicsPipeline == Some(creation.value.1)
      ensures vertexBuffer == old(vertexBuffer) && currentFrame == old(currentFrame) && usedSlots == old(usedSlots)
      ensures loadedTextureUid == old(loadedTextureUid) && uploads == old(uploads)
    {
      if graphicsPipeline.Some? {
        return Success(());
      }
      if creation.Failure? {
        return Failure(creation.error);
      }
      pipelineLayout := Some(creation.value.0);
      graphicsPipeline := Some(creation.value.1);
      r := Success(());
    }

    /** `load_vertices` succeeds: the byte length is a non-zero `u64`, its
        padding fits, and a CPU-visible memory type suits the buffer. */
    predicate VerticesLoad(count: U64, stride: U64, typeMask: U32)
    {
      0 < count * stride < U64Limit && PadToAtom(count * stride, nonCoherentAtomSize).Done?
      && GetMemoryType(typeMask, {CpuVisible}).Done?
    }

    /** `draw_texture_with_vertices`: loads the vertices and the texture,
        makes sure a pipeline exists, takes the frame's slot and advances the
        frame counter by one. `typeMask` and `imageTypeMask` are the memory
        requirements of the vertex buffer and of the texture's image. */
    method DrawTextureWithVertices(count: U64, stride: U64, typeMask: U32, texture: Textures.Texture, imageTypeMask: U32,
                                   creation: Result<(Handle, Handle), string>) returns (s: Status)
      requires Valid() && texture.Valid() && !texture.bindings.disposed
      modifies this, texture.bindings
      ensures Valid()
      ensures s.Ok? ==>
        framesInFlight > 0
        && usedSlots == old(usedSlots) + [old(currentFrame) % framesInFlight]
        && currentFrame == old(currentFrame) + 1
        && loadedTextureUid == texture.uid
        && vertexBuffer.Some? && graphicsPipeline.Some? && pipelineLayout.Some?
      ensures s.Ok? <==>
        VerticesLoad(count, stride, typeMask)
        && (old(loadedTextureUid) == texture.uid || GetMemoryType(imageTypeMask, {DeviceLocal}).Done?)
        && (old(graphicsPipeline).Some? || creation.Success?)
        && framesInFlight > 0
      ensures s.Ok? ==> vertexBuffer == Some(VertexBuffer(count * stride, PadToAtom(count * stride, nonCoherentAtomSize).value))
      ensures s.Panic? ==> currentFrame == old(currentFrame)
      ensures count * stride >= U64Limit ==> s == Panic(Numbers.MulOverflow)
      ensures count * stride == 0 ==> s == Panic(EmptyVertexBuffer)
      ensures 0 < count * stride < U64Limit && PadToAtom(count * stride, nonCoherentAtomSize).Abort? ==>
        s == Panic(PadToAtom(count * stride, nonCoherentAtomSize).message)
      ensures (0 < count * stride < U64Limit && PadToAtom(count * stride, nonCoherentAtomSize).Done?
               && GetMemoryType(typeMask, {CpuVisible}).Abort?) ==>
        s == Panic(GetMemoryType(typeMask, {CpuVisible}).message)
      ensures (VerticesLoad(count, stride, typeMask)
               && old(loadedTextureUid) != texture.uid && GetMemoryType(imageTypeMask, {DeviceLocal}).Abort?) ==>
        s == Panic(GetMemoryType(imageTypeMask, {DeviceLocal}).message)
      ensures (VerticesLoad(count, stride, typeMask)
               && (old(loadedTextureUid) == texture.uid || GetMemoryType(imageTypeMask, {DeviceLocal}).Done?)
               && old(graphicsPipeline).None? && creation.Failure?) ==>
        s == Panic(ErrUnwrapped(creation.error))
      ensures (VerticesLoad(count, stride, typeMask)
               && (old(loadedTextureUid) == texture.uid || GetMemoryType(imageTypeMask, {DeviceLocal}).Done?)
               && (old(graphicsPipeline).Some? || creation.Success?) && framesInFlight == 0) ==>
        s == Panic(RemainderByZero)
    {
      var memoryType := LoadVertices(count, stride, typeMask);
      if memoryType.Abort? {
        return Panic(memoryType.message);
      }
      s := LoadTexture(texture, imageTypeMask);
      if s.Panic? {
        return;
      }
      var pipeline := CreatePipeline(creation);
      if pipeline.Failure? {
        return Panic(ErrUnwrapped(pipeline.error));
      }
      s := TakeSlot();
      if s.Panic? {
        return;
      }
      currentFrame := currentFrame + 1;
    }
  }

  /** A new state has loaded no texture, and device uids start at 1, so the
      first texture drawn is never skipped: it is uploaded unless no
      device-local memory type suits its image. */
  method FirstLoadUploads(state: State, texture: Textures.Texture, imageTypeMask: U32) returns (s: Status)
    requires state.loadedTextureUid == 0 && state.uploads == []
    requires texture.Valid() && !texture.bindings.disposed
    modifies state, texture.bindings
    ensures s.Ok? <==> state.GetMemoryType(imageTypeMask, {DeviceLocal}).Done?
    ensures state.uploads == if s.Ok? then [texture.uid] else []
  {
    s := state.LoadTexture(texture, imageTypeMask);
  }
}
