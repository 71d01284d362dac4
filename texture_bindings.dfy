/** The GPU side of a texture: the decoded RGBA pixels, a staging buffer
    sized by the layout arithmetic of `Layouts`, and the upload memory the
    pixels are copied into, row by row at the buffer's row pitch.

    Image decoding, buffer creation and the memory calls are foreign; their
    outcomes are parameters or opaque handles. The mapped memory is an
    array of bytes sized as the buffer. */
module TextureBinding {
  import opened Wrappers
  import opened GraphicsDevices
  import opened Layouts
  import Disposal

  type Byte = x: int | 0 <= x < 256

  /** A decoded image, 4 bytes per pixel, rows top to bottom. */
  datatype RgbaImage = RgbaImage(width: U32, height: U32, pixels: seq<Byte>)

  predicate WellFormed(image: RgbaImage)
  {
    |image.pixels| == image.width * image.height * 4
  }

  datatype BindingsError = ImageLoading(reason: string) | BufferCreation(reason: string)

  /** Row `y` of `data` (rows of `rowBytes` bytes) sits in `mem` at
      `y * pitch`. */
  ghost predicate RowCopied(mem: seq<Byte>, data: seq<Byte>, y: nat, rowBytes: nat, pitch: nat)
  {
    y * pitch + rowBytes <= |mem| && y * rowBytes + rowBytes <= |data|
    && mem[y * pitch .. y * pitch + rowBytes] == data[y * rowBytes .. y * rowBytes + rowBytes]
  }

  class TextureBindings {
    const data: seq<Byte>
    const width: U32
    const height: U32
    const rowPitch: U32
    const imageStride: nat
    /** The staging buffer and the size it was created with. */
    const uploadBuffer: Handle
    const bufferSize: U64
    var uploadMemory: Option<array<Byte>>
    var disposed: bool
    /** Foreign release calls issued by `Dispose`. */
    var destroyedBuffers: seq<Handle>
    var freedMemory: seq<array<Byte>>

    /** The layout leaves room for every row, and the buffer (and any
        memory bound to it) is released exactly when the bindings are
        disposed. */
    ghost predicate Valid()
      reads this
    {
      imageStride == 4
      && |data| == width * height * 4
      && width * 4 <= rowPitch && height * rowPitch <= bufferSize
      && (uploadMemory.Some? ==> uploadMemory.value.Length == bufferSize)
      && destroyedBuffers == (if disposed then [uploadBuffer] else [])
      && (|freedMemory| <= 1 && (freedMemory != [] ==> disposed && uploadMemory == Some(freedMemory[0])))
    }

    constructor (image: RgbaImage, layout: Layout, buffer: Handle)
      requires WellFormed(image)
      requires image.width * 4 <= layout.rowPitch && image.height * layout.rowPitch <= layout.paddedUploadSize
      ensures data == image.pixels && width == image.width && height == image.height
      ensures rowPitch == layout.rowPitch && bufferSize == layout.paddedUploadSize && uploadBuffer == buffer
      ensures imageStride == 4 && uploadMemory.None? && !disposed
      ensures Valid()
    {
      data := image.pixels;
      width := image.width;
      height := image.height;
      rowPitch := layout.rowPitch;
      imageStride := 4;
      uploadBuffer := buffer;
      bufferSize := layout.paddedUploadSize;
      uploadMemory := None;
      disposed := false;
      destroyedBuffers := [];
      freedMemory := [];
    }

    function IsDisposed(): (r: bool)
      reads this
      ensures r <==> disposed
    {
      disposed
    }

    /** Releases the staging buffer and any upload memory the first time;
        a later call does nothing. Waiting for the device to go idle is
        foreign and not part of the model. */
    method Dispose()
      requires Valid()
      modifies this
      ensures Valid() && disposed && uploadMemory == old(uploadMemory)
      ensures old(disposed) ==> destroyedBuffers == old(destroyedBuffers) && freedMemory == old(freedMemory)
      ensures !old(disposed) ==> destroyedBuffers == [uploadBuffer]
      ensures !old(disposed) ==> freedMemory == if uploadMemory.Some? then [uploadMemory.value] else []
    {
      if disposed {
        return;
      }
      disposed := true;
      destroyedBuffers := destroyedBuffers + [uploadBuffer];
      if uploadMemory.Some? {
        freedMemory := freedMemory + [uploadMemory.value];
      }
    }

    function Drop(): (s: Status)
      reads this
      ensures s.Ok? <==> disposed
    {
      Disposal.DropGuard(disposed)
    }

    /** Allocates upload memory and copies every row of pixels into it at
        the row pitch; once memory exists the buffer is returned at once. */
    method CopyIntoStagingBuffer() returns (buffer: Handle)
      requires Valid() && !disposed
      modifies this
      ensures Valid() && buffer == uploadBuffer && !disposed
      ensures old(uploadMemory).Some? ==> uploadMemory == old(uploadMemory)
      ensures old(uploadMemory).None? ==> uploadMemory.Some? && fresh(uploadMemory.value)
      ensures old(uploadMemory).None? ==>
        forall y :: 0 <= y < height ==> RowCopied(uploadMemory.value[..], data, y, width * 4, rowPitch)
    {
      buffer := uploadBuffer;
      if uploadMemory.Some? {
        return;
      }
      var memory := new Byte[bufferSize];
      assert height * (width * 4) == width * height * 4;
      CopyRows(data, memory, height, width * imageStride, rowPitch);
      uploadMemory := Some(memory);
    }
  }

  /** The copy loop: row `y` of `data` goes to `memory` at `y * pitch`. */
  method CopyRows(data: seq<Byte>, memory: array<Byte>, rows: nat, rowBytes: nat, pitch: nat)
    requires rowBytes <= pitch && rows * pitch <= memory.Length && rows * rowBytes <= |data|
    modifies memory
    ensures forall y :: 0 <= y < rows ==> RowCopied(memory[..], data, y, rowBytes, pitch)
  {
    var src, dst := 0, 0;
    for y := 0 to rows
      invariant src == y * rowBytes && dst == y * pitch
      invariant forall k :: 0 <= k < y ==> RowCopied(memory[..], data, k, rowBytes, pitch)
    {
      RowInBounds(y, rows, rowBytes, pitch, memory.Length, |data|);
      ghost var before := memory[..];
      CopyNonoverlapping(data[src .. src + rowBytes], memory, dst);
      forall k | 0 <= k < y
        ensures RowCopied(memory[..], data, k, rowBytes, pitch)
      {
        RowsApart(k, y, rowBytes, pitch);
        KeepsRow(before, memory[..], data, k, rowBytes, pitch, dst);
      }
      assert memory[..][dst .. dst + rowBytes] == data[src .. src + rowBytes];
      NextRow(y, rowBytes);
      NextRow(y, pitch);
      src, dst := src + rowBytes, dst + pitch;
    }
  }

  lemma NextRow(y: nat, a: nat)
    ensures (y + 1) * a == y * a + a
  {
  }

  /** Rows that fit the buffer: row `y` of the source and of the memory
      both lie in range. */
  lemma RowInBounds(y: nat, rows: nat, rowBytes: nat, pitch: nat, size: nat, length: nat)
    requires y < rows && rowBytes <= pitch && rows * pitch <= size && rows * rowBytes <= length
    ensures y * pitch + rowBytes <= size && y * rowBytes + rowBytes <= length
  {
    MulLeq(y + 1, rows, pitch);
    MulLeq(y + 1, rows, rowBytes);
    assert (y + 1) * pitch == y * pitch + pitch;
    assert (y + 1) * rowBytes == y * rowBytes + rowBytes;
  }

  /** A copy that starts after row `k` leaves row `k` in place. */
  lemma KeepsRow(before: seq<Byte>, after: seq<Byte>, data: seq<Byte>, k: nat, rowBytes: nat, pitch: nat, start: nat)
    requires RowCopied(before, data, k, rowBytes, pitch) && |after| == |before| && k * pitch + rowBytes <= start
    requires forall j :: 0 <= j < start && j < |after| ==> after[j] == before[j]
    ensures RowCopied(after, data, k, rowBytes, pitch)
  {
    assert after[k * pitch .. k * pitch + rowBytes] == before[k * pitch .. k * pitch + rowBytes];
  }

  /** An earlier row ends before a later one starts. */
  lemma RowsApart(k: nat, y: nat, rowBytes: nat, pitch: nat)
    requires k < y && rowBytes <= pitch
    ensures k * pitch + rowBytes <= y * pitch
  {
    MulLeq(k + 1, y, pitch);
    assert (k + 1) * pitch == k * pitch + pitch;
  }

  lemma MulLeq(a: nat, b: nat, c: nat)
    requires a <= b
    ensures a * c <= b * c
  {
    assert b * c == a * c + (b - a) * c;
  }

  /** `ptr::copy_nonoverlapping` into `dst` at `offset`. */
  method CopyNonoverlapping(src: seq<Byte>, dst: array<Byte>, offset: nat)
    requires offset + |src| <= dst.Length
    modifies dst
    ensures dst[offset .. offset + |src|] == src
    ensures forall j :: 0 <= j < dst.Length && !(offset <= j < offset + |src|) ==> dst[j] == old(dst[j])
  {
    for i := 0 to |src|
      invariant forall j :: 0 <= j < i ==> dst[offset + j] == src[j]
      invariant forall j :: 0 <= j < dst.Length && !(offset <= j < offset + i) ==> dst[j] == old(dst[j])
    {
      dst[offset + i] := src[i];
    }
  }

  /** `TextureBindings::with`: decodes the image, computes the layout from
      the device limits and creates the staging buffer. A failed decode or
      buffer creation is an error; the layout arithmetic may abort. */
  method With(image: Result<RgbaImage, string>, device: GraphicsDevice, buffer: Result<Handle, string>)
    returns (r: Abortable<Result<TextureBindings, BindingsError>>)
    requires image.Success? ==> WellFormed(image.value)
    ensures image.Failure? ==> r == Done(Failure(ImageLoading(image.error)))
    ensures image.Success? ==>
      var l := LayoutFor(image.value.width, image.value.height, device.limits.optimalBufferCopyPitchAlignment, device.limits.nonCoherentAtomSize);
      (l.Abort? ==> r == Abort(l.message))
      && (l.Done? && buffer.Failure? ==> r == Done(Failure(BufferCreation(buffer.error))))
      && (l.Done? && buffer.Success? ==>
            r.Done? && r.value.Success? && fresh(r.value.value)
            && r.value.value.data == image.value.pixels && r.value.value.width == image.value.width
            && r.value.value.height == image.value.height && r.value.value.rowPitch == l.value.rowPitch
            && r.value.value.bufferSize == l.value.paddedUploadSize && r.value.value.uploadBuffer == buffer.value
            && r.value.value.uploadMemory.None? && !r.value.value.disposed && r.value.value.Valid())
  {
    if image.Failure? {
      return Done(Failure(ImageLoading(image.error)));
    }
    var img := image.value;
    var alignment := device.limits.optimalBufferCopyPitchAlignment;
    var atom := device.limits.nonCoherentAtomSize;
    var layout := LayoutFor(img.width, img.height, alignment, atom);
    if layout.Abort? {
      return Abort(layout.message);
    }
    if buffer.Failure? {
      return Done(Failure(BufferCreation(buffer.error)));
    }
    LayoutFits(img.width, img.height, alignment, atom);
    var bindings := new TextureBindings(img, layout.value, buffer.value);
    r := Done(Success(bindings));
  }
}
