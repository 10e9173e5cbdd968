/**
 * The resource calls of Source/Gfx.cpp that feed the deferred queue and the
 * staging ring: `GfxCreateBuffer`, `GfxCreateTexture`, the present-layout
 * transitions of `CreateSwapchain`, `GfxAllocateUploadBuffer`, and the
 * queue drain of `GfxBeginFrame`.
 *
 * Vulkan and allocator calls are not modelled: the handle `vmaCreateBuffer`
 * or `vmaCreateImage` returns is an input, and so is the mip count the
 * source computes with floating-point `log`. A parameter structure copied
 * into the queue is written as the list of its fields in declaration order,
 * each little-endian at its own width, with no padding.
 */
module Device {
  import opened Machine
  import opened Wrappers
  import Vk
  import Gfx
  import Conversion
  import Staging
  import Frames
  import DeferredQueue
  import GfxStream

  /** The deferred functions whose pointers `QueueCmd` stores. */
  datatype CmdKind = UploadBufferCmd | UploadImageCmd | TransitionImageCmd | GenerateMipmapCmd

  /** `CmdUploadBufferParams`, `CmdUploadImageParams`, `CmdTransitionImageParams`, `CmdGenerateMipmapParams`. */
  datatype CmdParams =
    | UploadBufferParams(dstBuffer: U64, dstOffset: U64, dstAccess: Vk.Flags, srcBuffer: U64, srcOffset: U64, size: U64)
    | UploadImageParams(image: U64, width: U32, height: U32, aspect: Vk.Flags, access: Vk.Flags, layout: U32,
                        srcBuffer: U64, srcOffset: U64)
    | TransitionImageParams(image: U64, aspect: Vk.Flags, access: Vk.Flags, layout: U32)
    | GenerateMipmapParams(image: U64, width: U32, height: U32, mipCount: U32, aspect: Vk.Flags, access: Vk.Flags,
                           layout: U32, srcBuffer: U64, srcOffset: U64)

  /** The function each parameter structure is queued with. */
  function KindOf(p: CmdParams): CmdKind {
    match p
    case UploadBufferParams(_, _, _, _, _, _) => UploadBufferCmd
    case UploadImageParams(_, _, _, _, _, _, _, _) => UploadImageCmd
    case TransitionImageParams(_, _, _, _) => TransitionImageCmd
    case GenerateMipmapParams(_, _, _, _, _, _, _, _, _) => GenerateMipmapCmd
  }

  function Word(x: Vk.Flags): GfxStream.Field {
    GfxStream.FUint32(x as int)
  }

  /** The fields of a parameter structure in declaration order. */
  function Fields(p: CmdParams): seq<GfxStream.Field> {
    match p
    case UploadBufferParams(dst, dstOffset, access, src, srcOffset, size) =>
      [GfxStream.FUint64(dst), GfxStream.FUint64(dstOffset), Word(access), GfxStream.FUint64(src),
       GfxStream.FUint64(srcOffset), GfxStream.FUint64(size)]
    case UploadImageParams(image, width, height, aspect, access, layout, src, srcOffset) =>
      [GfxStream.FUint64(image), GfxStream.FUint32(width), GfxStream.FUint32(height), Word(aspect), Word(access),
       GfxStream.FUint32(layout), GfxStream.FUint64(src), GfxStream.FUint64(srcOffset)]
    case TransitionImageParams(image, aspect, access, layout) =>
      [GfxStream.FUint64(image), Word(aspect), Word(access), GfxStream.FUint32(layout)]
    case GenerateMipmapParams(image, width, height, mipCount, aspect, access, layout, src, srcOffset) =>
      [GfxStream.FUint64(image), GfxStream.FUint32(width), GfxStream.FUint32(height), GfxStream.FUint32(mipCount),
       Word(aspect), Word(access), GfxStream.FUint32(layout), GfxStream.FUint64(src), GfxStream.FUint64(srcOffset)]
  }

  /** The bytes `QueueCmd` copies for a parameter structure. */
  function Payload(p: CmdParams): seq<Byte> {
    GfxStream.EncodeAll(Fields(p))
  }

  /** The field kinds a deferred function expects behind its `user_data` pointer. */
  function Layout(k: CmdKind): seq<GfxStream.Kind> {
    match k
    case UploadBufferCmd => [GfxStream.Uint64, GfxStream.Uint64, GfxStream.Uint32, GfxStream.Uint64, GfxStream.Uint64, GfxStream.Uint64]
    case UploadImageCmd =>
      [GfxStream.Uint64, GfxStream.Uint32, GfxStream.Uint32, GfxStream.Uint32, GfxStream.Uint32, GfxStream.Uint32,
       GfxStream.Uint64, GfxStream.Uint64]
    case TransitionImageCmd => [GfxStream.Uint64, GfxStream.Uint32, GfxStream.Uint32, GfxStream.Uint32]
    case GenerateMipmapCmd =>
      [GfxStream.Uint64, GfxStream.Uint32, GfxStream.Uint32, GfxStream.Uint32, GfxStream.Uint32, GfxStream.Uint32,
       GfxStream.Uint32, GfxStream.Uint64, GfxStream.Uint64]
  }

  /** A bound on the bytes of any parameter structure: at most nine fields of at most eight bytes. */
  const MAX_PAYLOAD: nat := 72

  /** Rebuild a parameter structure from fields of the kinds `Layout(k)` lists. */
  function ParamsOf(k: CmdKind, fs: seq<GfxStream.Field>): (r: Option<CmdParams>)
    ensures r.Some? ==> KindOf(r.value) == k
  {
    match k
    case UploadBufferCmd =>
      if |fs| == 6 && fs[0].FUint64? && fs[1].FUint64? && fs[2].FUint32? && fs[3].FUint64? && fs[4].FUint64? && fs[5].FUint64?
      then Some(UploadBufferParams(fs[0].u64, fs[1].u64, fs[2].u32 as Vk.Flags, fs[3].u64, fs[4].u64, fs[5].u64))
      else None
    case UploadImageCmd =>
      if |fs| == 8 && fs[0].FUint64? && fs[1].FUint32? && fs[2].FUint32? && fs[3].FUint32? && fs[4].FUint32?
         && fs[5].FUint32? && fs[6].FUint64? && fs[7].FUint64?
      then Some(UploadImageParams(fs[0].u64, fs[1].u32, fs[2].u32, fs[3].u32 as Vk.Flags, fs[4].u32 as Vk.Flags,
                                  fs[5].u32, fs[6].u64, fs[7].u64))
      else None
    case TransitionImageCmd =>
      if |fs| == 4 && fs[0].FUint64? && fs[1].FUint32? && fs[2].FUint32? && fs[3].FUint32?
      then Some(TransitionImageParams(fs[0].u64, fs[1].u32 as Vk.Flags, fs[2].u32 as Vk.Flags, fs[3].u32))
      else None
    case GenerateMipmapCmd =>
      if |fs| == 9 && fs[0].FUint64? && fs[1].FUint32? && fs[2].FUint32? && fs[3].FUint32? && fs[4].FUint32?
         && fs[5].FUint32? && fs[6].FUint32? && fs[7].FUint64? && fs[8].FUint64?
      then Some(GenerateMipmapParams(fs[0].u64, fs[1].u32, fs[2].u32, fs[3].u32, fs[4].u32 as Vk.Flags,
                                     fs[5].u32 as Vk.Flags, fs[6].u32, fs[7].u64, fs[8].u64))
      else None
  }

  /**
   * What a deferred function of kind `k` finds behind its `user_data`
   * pointer: the fields of its structure, read in order, covering the bytes
   * exactly; `None` when the bytes do not hold such a structure.
   */
  function DecodeParams(k: CmdKind, bytes: seq<Byte>): (r: Option<CmdParams>)
    ensures r.Some? ==> KindOf(r.value) == k
  {
    match GfxStream.ReadFields(bytes, 0, Layout(k))
    case RunOverrun => None
    case GotRun(fs, next) => if next == |bytes| then ParamsOf(k, fs) else None
  }

  /** The field kinds of a structure are the layout its function reads. */
  lemma FieldKinds(p: CmdParams)
    ensures GfxStream.KindsOf(Fields(p)) == Layout(KindOf(p))
  {
    GfxStream.KindsOfAt(Fields(p));
  }

  /** The fields of a structure rebuild it. */
  lemma ParamsOfFields(p: CmdParams)
    ensures ParamsOf(KindOf(p), Fields(p)) == Some(p)
  {
    match p
    case UploadBufferParams(_, _, _, _, _, _) => UploadBufferRebuilt(p);
    case UploadImageParams(_, _, _, _, _, _, _, _) => UploadImageRebuilt(p);
    case TransitionImageParams(_, _, _, _) => TransitionImageRebuilt(p);
    case GenerateMipmapParams(_, _, _, _, _, _, _, _, _) => GenerateMipmapRebuilt(p);
  }

  lemma UploadBufferRebuilt(p: CmdParams)
    requires p.UploadBufferParams?
    ensures ParamsOf(UploadBufferCmd, Fields(p)) == Some(p)
  {
    WordRoundTrip(p.dstAccess);
  }

  lemma UploadImageRebuilt(p: CmdParams)
    requires p.UploadImageParams?
    ensures ParamsOf(UploadImageCmd, Fields(p)) == Some(p)
  {
    WordRoundTrip(p.aspect);
    WordRoundTrip(p.access);
  }

  lemma TransitionImageRebuilt(p: CmdParams)
    requires p.TransitionImageParams?
    ensures ParamsOf(TransitionImageCmd, Fields(p)) == Some(p)
  {
    WordRoundTrip(p.aspect);
    WordRoundTrip(p.access);
  }

  lemma GenerateMipmapRebuilt(p: CmdParams)
    requires p.GenerateMipmapParams?
    ensures ParamsOf(GenerateMipmapCmd, Fields(p)) == Some(p)
  {
    WordRoundTrip(p.aspect);
    WordRoundTrip(p.access);
  }

  lemma WordRoundTrip(x: Vk.Flags)
    ensures Word(x).u32 as Vk.Flags == x
  {
  }

  /** The deferred function reads back exactly the structure that was queued for it. */
  lemma DecodePayload(p: CmdParams)
    ensures DecodeParams(KindOf(p), Payload(p)) == Some(p)
  {
    FieldKinds(p);
    ParamsOfFields(p);
    GfxStream.BlobRoundTrip(Fields(p));
  }

  /** A parameter structure takes at most `MAX_PAYLOAD` bytes. */
  lemma PayloadSize(p: CmdParams)
    ensures |Payload(p)| <= MAX_PAYLOAD
  {
    var fs := Fields(p);
    GfxStream.SizeAllIsLength(fs);
    GfxStream.SizeAllBound(fs, 8);
  }

  /** `memcpy(staging + offset, data, |data|)`. */
  function Write(mem: seq<Byte>, offset: nat, data: seq<Byte>): (r: seq<Byte>)
    requires offset + |data| <= |mem|
    ensures |r| == |mem|
    ensures r[offset..offset + |data|] == data
    ensures forall i :: 0 <= i < |mem| && !(offset <= i < offset + |data|) ==> r[i] == mem[i]
  {
    mem[..offset] + data + mem[offset + |data|..]
  }

  /**
   * The device state these calls touch: the frame ring (with the staging
   * head), the deferred queue, the mapped staging memory and the staging
   * buffer's handle.
   */
  datatype Device = Device(ring: Frames.Ring, queue: DeferredQueue.Queue<CmdKind>, staging: seq<Byte>, stagingBuffer: U64)
  {
    predicate Valid() {
      ring.Valid() && queue.Valid() && |staging| == Staging.SIZE
    }

    /** Room in the queue for one more structure without overflowing its `uint32_t` offsets. */
    predicate HasRoom() {
      |queue.data| + MAX_PAYLOAD < TWO_32
    }
  }

  /** `QueueCmd` of a parameter structure with its function. */
  function Queue(d: Device, p: CmdParams): (r: Device)
    requires d.Valid() && d.HasRoom()
    ensures r.Valid() && r.ring == d.ring && r.staging == d.staging && r.stagingBuffer == d.stagingBuffer
    ensures DeferredQueue.Pending(r.queue) == DeferredQueue.Pending(d.queue) + [DeferredQueue.Command(KindOf(p), Payload(p))]
    ensures |r.queue.data| == |d.queue.data| + |Payload(p)| <= |d.queue.data| + MAX_PAYLOAD
  {
    PayloadSize(p);
    DeferredQueue.QueueCmdAppends(d.queue, KindOf(p), Payload(p));
    d.(queue := DeferredQueue.QueueCmd(d.queue, KindOf(p), Payload(p)))
  }

  /** What the layer keeps of a buffer (`GfxBuffer_T`) and the usage it created it with. */
  datatype BufferObject = BufferObject(handle: U64, size: U64, vkUsage: Vk.Flags)

  datatype BufferCreated = BufferCreated(device: Device, buffer: BufferObject)

  /**
   * `GfxCreateBuffer` with `handle` the buffer the allocator created. With
   * data, the bytes go to a fresh piece of the staging ring and an upload of
   * the whole buffer is queued; the staging allocator's abort is `Failure`.
   * `m_Data` must point at `m_Size` bytes.
   */
  function CreateBuffer(d: Device, params: Gfx.BufferParams, handle: U64): (r: Result<BufferCreated, Staging.StagingError>)
    requires d.Valid() && d.HasRoom()
    requires params.data.Some? ==> |params.data.value| == params.size
    ensures r.Success? ==> r.value.device.Valid()
    ensures r.Success? ==> r.value.buffer == BufferObject(handle, params.size, Conversion.BufferUsageMask(params.usage))
    ensures params.data.None? ==> r.Success? && r.value.device == d
    ensures params.data.Some? ==>
      (r.Success? <==> Staging.Allocate(d.ring.head, d.ring.tails[d.ring.next], params.size, Staging.DEFAULT_ALIGNMENT).Success?)
  {
    var buffer := BufferObject(handle, params.size, Conversion.BufferUsageMask(params.usage));
    match params.data
    case None => Success(BufferCreated(d, buffer))
    case Some(data) =>
      match Frames.AllocateUpload(d.ring, params.size, Staging.DEFAULT_ALIGNMENT)
      case Failure(e) => Failure(e)
      case Success(u) =>
        var upload := UploadBufferParams(handle, 0, Vk.ACCESS_MEMORY_READ, d.stagingBuffer, u.offset, params.size);
        var d1 := d.(ring := u.ring, staging := Write(d.staging, u.offset, data));
        Success(BufferCreated(Queue(d1, upload), buffer))
  }

  /**
   * A buffer with data leaves exactly one command in the queue, an upload
   * of the whole buffer from the piece of the staging ring that now holds
   * the data; nothing else in the staging memory changes.
   */
  lemma CreateBufferQueuesUpload(d: Device, params: Gfx.BufferParams, handle: U64)
    requires d.Valid() && d.HasRoom()
    requires params.data.Some? && |params.data.value| == params.size
    requires CreateBuffer(d, params, handle).Success?
    ensures var d2 := CreateBuffer(d, params, handle).value.device;
      var offset := d2.ring.head - params.size;
      0 <= offset && offset % Staging.DEFAULT_ALIGNMENT == 0 && d2.ring.head <= Staging.SIZE &&
      DeferredQueue.Pending(d2.queue) == DeferredQueue.Pending(d.queue) +
        [DeferredQueue.Command(UploadBufferCmd,
           Payload(UploadBufferParams(handle, 0, Vk.ACCESS_MEMORY_READ, d.stagingBuffer, offset, params.size)))] &&
      d2.staging[offset..d2.ring.head] == params.data.value &&
      (forall i :: 0 <= i < Staging.SIZE && !(offset <= i < d2.ring.head) ==> d2.staging[i] == d.staging[i])
  {
  }

  /** What the layer keeps of a texture (`GfxTexture_T`) and how it created the image. */
  datatype TextureObject = TextureObject(
    image: U64,
    width: U32,
    height: U32,
    depth: U32,
    format: U32,
    mipLevels: U32,
    vkUsage: Vk.Flags)

  datatype TextureCreated = TextureCreated(device: Device, texture: TextureObject)

  /**
   * The one command `GfxCreateTexture` queues for a texture whose data (if
   * any) sits at `srcOffset` of the staging buffer: a mip-chain generation
   * when data is given and mipmaps are asked for, a plain upload when only
   * data is given, and a layout transition otherwise. All three leave the
   * image in the layout and access of the initial state.
   */
  function TextureCommand(d: Device, params: Gfx.TextureParams, t: TextureObject, srcOffset: U64): (p: CmdParams)
    ensures !p.UploadBufferParams?
  {
    var aspect := Conversion.ImageAspectMask(t.format);
    var access := Conversion.TextureAccessMask(params.initialState);
    var layout := Conversion.ImageLayout(params.initialState);
    if params.data.None? then TransitionImageParams(t.image, aspect, access, layout)
    else if params.generateMipmaps then
      GenerateMipmapParams(t.image, t.width, t.height, t.mipLevels, aspect, access, layout, d.stagingBuffer, srcOffset)
    else UploadImageParams(t.image, t.width, t.height, aspect, access, layout, d.stagingBuffer, srcOffset)
  }

  /**
   * `GfxCreateTexture` with `image` the image the allocator created and
   * `mipCount` the value of `MipCount(width, height, 1)`. With data, the
   * bytes go to a fresh piece of the staging ring first; the allocator's
   * abort is `Failure`.
   */
  function CreateTexture(d: Device, params: Gfx.TextureParams, image: U64, mipCount: U32): (r: Result<TextureCreated, Staging.StagingError>)
    requires d.Valid() && d.HasRoom()
    requires params.data.Some? ==> |params.data.value| < TWO_64
    ensures params.data.None? ==> r.Success?
    ensures params.data.Some? ==>
      (r.Success? <==> Staging.Allocate(d.ring.head, d.ring.tails[d.ring.next], |params.data.value|, Staging.DEFAULT_ALIGNMENT).Success?)
    ensures r.Success? ==> r.value.device.Valid()
    ensures r.Success? ==> r.value.texture.format == Conversion.VkFormatOfEnum(params.format)
    ensures r.Success? ==> r.value.texture.mipLevels == (if params.generateMipmaps then mipCount else 1)
    ensures r.Success? ==> r.value.texture.vkUsage == Conversion.ImageUsageMask(params.usage)
  {
    var texture := TextureObject(image, params.width, params.height, params.depth, Conversion.VkFormatOfEnum(params.format),
      if params.generateMipmaps then mipCount else 1, Conversion.ImageUsageMask(params.usage));
    match params.data
    case None => Success(TextureCreated(Queue(d, TextureCommand(d, params, texture, 0)), texture))
    case Some(data) =>
      match Frames.AllocateUpload(d.ring, |data|, Staging.DEFAULT_ALIGNMENT)
      case Failure(e) => Failure(e)
      case Success(u) =>
        var d1 := d.(ring := u.ring, staging := Write(d.staging, u.offset, data));
        Success(TextureCreated(Queue(d1, TextureCommand(d, params, texture, u.offset)), texture))
  }

  /**
   * `GfxCreateTexture` queues exactly one command, and which one follows the
   * parameters: generate mipmaps iff data is given and mipmaps are asked
   * for, upload iff data is given without mipmaps, transition iff no data.
   */
  lemma CreateTextureQueuesOne(d: Device, params: Gfx.TextureParams, image: U64, mipCount: U32)
    requires d.Valid() && d.HasRoom()
    requires params.data.Some? ==> |params.data.value| < TWO_64
    requires CreateTexture(d, params, image, mipCount).Success?
    ensures var d2 := CreateTexture(d, params, image, mipCount).value.device;
      var pending := DeferredQueue.Pending(d2.queue);
      |pending| == |DeferredQueue.Pending(d.queue)| + 1 &&
      pending[..|pending| - 1] == DeferredQueue.Pending(d.queue) &&
      (pending[|pending| - 1].func == GenerateMipmapCmd <==> params.data.Some? && params.generateMipmaps) &&
      (pending[|pending| - 1].func == UploadImageCmd <==> params.data.Some? && !params.generateMipmaps) &&
      (pending[|pending| - 1].func == TransitionImageCmd <==> params.data.None?)
  {
  }

  /**
   * Every command `GfxCreateTexture` queues carries the layout and access
   * of the initial state, the aspect of the texture's format and the image
   * itself. Without data it is a transition.
   */
  lemma CreateTextureCommandTargets(d: Device, params: Gfx.TextureParams, image: U64, mipCount: U32)
    requires d.Valid() && d.HasRoom() && params.data.None?
    ensures var c := CreateTexture(d, params, image, mipCount);
      var p := TextureCommand(d, params, c.value.texture, 0);
      var pending := DeferredQueue.Pending(c.value.device.queue);
      c.Success? && |pending| > 0 &&
      pending[|pending| - 1] == DeferredQueue.Command(KindOf(p), Payload(p)) &&
      p == TransitionImageParams(image, Conversion.ImageAspectMask(Conversion.VkFormatOfEnum(params.format)),
                                 Conversion.TextureAccessMask(params.initialState), Conversion.ImageLayout(params.initialState))
  {
  }

  /**
   * With data, the command reads from the piece of the staging ring the
   * allocator handed out, which now holds the data, and carries the same
   * image, layout, access and aspect.
   */
  lemma CreateTextureUploadTargets(d: Device, params: Gfx.TextureParams, image: U64, mipCount: U32, data: seq<Byte>)
    requires d.Valid() && d.HasRoom() && params.data == Some(data) && |data| < TWO_64
    requires CreateTexture(d, params, image, mipCount).Success?
    ensures var u := Frames.AllocateUpload(d.ring, |data|, Staging.DEFAULT_ALIGNMENT);
      var c := CreateTexture(d, params, image, mipCount).value;
      var p := TextureCommand(d, params, c.texture, u.value.offset);
      var pending := DeferredQueue.Pending(c.device.queue);
      u.Success? && |pending| > 0 &&
      pending[|pending| - 1] == DeferredQueue.Command(KindOf(p), Payload(p)) &&
      p.image == image && p.srcBuffer == d.stagingBuffer && p.srcOffset == u.value.offset &&
      p.layout == Conversion.ImageLayout(params.initialState) &&
      p.access == Conversion.TextureAccessMask(params.initialState) &&
      p.aspect == Conversion.ImageAspectMask(Conversion.VkFormatOfEnum(params.format)) &&
      c.device.staging[u.value.offset..u.value.offset + |data|] == data
  {
  }

  /**
   * A texture created with the default parameters gets no upload: one
   * transition to the shader-read layout, with shader-read access, on the
   * colour aspect (the UNKNOWN format maps to an undefined format, which
   * is not a depth format).
   */
  lemma DefaultTextureIsTransitioned(d: Device, image: U64, mipCount: U32)
    requires d.Valid() && d.HasRoom()
    ensures var c := CreateTexture(d, Gfx.DEFAULT_TEXTURE_PARAMS, image, mipCount);
      c.Success? &&
      DeferredQueue.Pending(c.value.device.queue) == DeferredQueue.Pending(d.queue) +
        [DeferredQueue.Command(TransitionImageCmd, Payload(TransitionImageParams(image, Vk.ASPECT_COLOR, Vk.ACCESS_SHADER_READ,
           Vk.IMAGE_LAYOUT_SHADER_READ_ONLY_OPTIMAL)))] &&
      c.value.texture.mipLevels == 1 && c.value.texture.format == Vk.FORMAT_UNDEFINED
  {
  }

  /** The transition `CreateSwapchain` queues for each swapchain image: to the present layout, memory-read access. */
  function PresentTransition(image: U64): CmdParams {
    TransitionImageParams(image, Vk.ASPECT_COLOR, Vk.ACCESS_MEMORY_READ, Vk.IMAGE_LAYOUT_PRESENT_SRC)
  }

  /** The present transitions of the first `n` images, in image order. */
  function PresentTransitions(images: seq<U64>, n: nat): (cs: seq<DeferredQueue.Command<CmdKind>>)
    requires n <= |images|
    ensures |cs| == n
  {
    seq(n, k requires 0 <= k < n => DeferredQueue.Command(TransitionImageCmd, Payload(PresentTransition(images[k]))))
  }

  lemma PresentTransitionsStep(images: seq<U64>, n: nat)
    requires n < |images|
    ensures PresentTransitions(images, n + 1)
            == PresentTransitions(images, n) + [DeferredQueue.Command(TransitionImageCmd, Payload(PresentTransition(images[n])))]
  {
  }

  /** The queue part of `CreateSwapchain`: one present transition per image, in image order. */
  method QueueSwapchainTransitions(d: Device, images: seq<U64>) returns (r: Device)
    requires d.Valid() && |d.queue.data| + |images| * MAX_PAYLOAD < TWO_32
    ensures r.Valid() && r.ring == d.ring && r.staging == d.staging
    ensures DeferredQueue.Pending(r.queue) == DeferredQueue.Pending(d.queue) + PresentTransitions(images, |images|)
  {
    r := d;
    var i := 0;
    while i < |images|
      invariant 0 <= i <= |images|
      invariant r.Valid() && r.ring == d.ring && r.staging == d.staging && r.stagingBuffer == d.stagingBuffer
      invariant |r.queue.data| <= |d.queue.data| + i * MAX_PAYLOAD
      invariant DeferredQueue.Pending(r.queue) == DeferredQueue.Pending(d.queue) + PresentTransitions(images, i)
    {
      assert (i + 1) * MAX_PAYLOAD <= |images| * MAX_PAYLOAD;
      var before := DeferredQueue.Pending(r.queue);
      r := Queue(r, PresentTransition(images[i]));
      PresentTransitionsStep(images, i);
      assert DeferredQueue.Pending(r.queue) == DeferredQueue.Pending(d.queue) + PresentTransitions(images, i + 1) by {
        assert DeferredQueue.Pending(r.queue) == before + [DeferredQueue.Command(TransitionImageCmd, Payload(PresentTransition(images[i])))];
      }
      i := i + 1;
    }
  }

  /** `GfxAllocateUploadBuffer`: a piece of the staging ring at the default alignment, in the staging buffer. */
  datatype UploadAllocation = UploadAllocation(buffer: U64, offset: nat)

  function AllocateUploadBuffer(d: Device, size: U64): (r: Result<(Device, UploadAllocation), Staging.StagingError>)
    requires d.Valid()
    ensures r.Success? ==> r.value.0.Valid() && r.value.0 == d.(ring := r.value.0.ring)
    ensures r.Success? ==> r.value.1.buffer == d.stagingBuffer
    ensures r.Success? ==> r.value.1.offset % Staging.DEFAULT_ALIGNMENT == 0 && r.value.1.offset + size <= Staging.SIZE
    ensures r.Success? <==> Staging.Allocate(d.ring.head, d.ring.tails[d.ring.next], size, Staging.DEFAULT_ALIGNMENT).Success?
  {
    match Frames.AllocateUpload(d.ring, size, Staging.DEFAULT_ALIGNMENT)
    case Failure(e) => Failure(e)
    case Success(u) => Success((d.(ring := u.ring), UploadAllocation(d.stagingBuffer, u.offset)))
  }

  /**
   * The queue part of `GfxBeginFrame`: run every queued command and empty
   * the queue. `calls` are the commands run, each with the structure its
   * function reads from the queued bytes.
   */
  method BeginFrame(d: Device) returns (calls: seq<DeferredQueue.Command<CmdKind>>, r: Device)
    requires d.Valid()
    ensures calls == DeferredQueue.Pending(d.queue)
    ensures r.Valid() && r == d.(queue := DeferredQueue.Empty())
  {
    var q;
    calls, q := DeferredQueue.Drain(d.queue);
    r := d.(queue := q);
  }

  /**
   * End to end: a buffer created with data, followed by the next frame's
   * drain, runs as its last command an upload whose structure the upload
   * function reads back intact, copying the whole buffer from staging bytes
   * that hold exactly the data.
   */
  lemma BufferUploadRunsAtNextFrame(d: Device, params: Gfx.BufferParams, handle: U64)
    requires d.Valid() && d.HasRoom()
    requires params.data.Some? && |params.data.value| == params.size
    requires CreateBuffer(d, params, handle).Success?
    ensures var d2 := CreateBuffer(d, params, handle).value.device;
      var calls := DeferredQueue.Pending(d2.queue);
      var last := calls[|calls| - 1];
      last.func == UploadBufferCmd &&
      match DecodeParams(last.func, last.params)
      case None => false
      case Some(p) =>
        p.UploadBufferParams? && p.dstBuffer == handle && p.dstOffset == 0 && p.size == params.size &&
        p.srcBuffer == d.stagingBuffer && p.srcOffset + p.size <= Staging.SIZE &&
        d2.staging[p.srcOffset..p.srcOffset + p.size] == params.data.value
  {
    CreateBufferQueuesUpload(d, params, handle);
    var d2 := CreateBuffer(d, params, handle).value.device;
    var offset := d2.ring.head - params.size;
    var p := UploadBufferParams(handle, 0, Vk.ACCESS_MEMORY_READ, d.stagingBuffer, offset, params.size);
    var calls := DeferredQueue.Pending(d2.queue);
    assert calls == DeferredQueue.Pending(d.queue) + [DeferredQueue.Command(UploadBufferCmd, Payload(p))];
    assert calls[|calls| - 1] == DeferredQueue.Command(UploadBufferCmd, Payload(p));
    DecodePayload(p);
    assert DecodeParams(UploadBufferCmd, Payload(p)) == Some(p);
  }
}
