/**
 * The command recorder of Source/Gfx.cpp (`GfxCmdBeginTechnique` to
 * `GfxCmdDispatch`): the technique and render setup bound to a command
 * buffer, one pending descriptor write per shader binding, the dirty flag
 * that decides whether a draw allocates a descriptor set, and the Vulkan
 * commands recorded, as a log of events.
 */
module Recorder {
  import opened Machine
  import opened Wrappers
  import Vk
  import Gfx
  import HT = GfxHashTable
  import T = Technique
  import TB = TechniqueBlob
  import TF = TechniqueFile
  import GfxArray
  import Frames
  import Staging
  import Conversion

  /** What a descriptor write points at: `VkDescriptorBufferInfo` or `VkDescriptorImageInfo`. */
  datatype Info =
    | NoInfo
    | BufferInfo(buffer: U64, offset: U64, range: U64)
    | ImageInfo(view: U64, layout: U32)
    | SamplerInfo(sampler: U64)

  /** One `VkWriteDescriptorSet` of `m_DescriptorWrites`, without the set it goes to. */
  datatype Write = Write(dstBinding: U32, descriptorType: U32, info: Info)

  /** What a slot holds before any `GfxCmdSet*` wrote it: storage `Resize` left alone. */
  const UNWRITTEN: Write := Write(0, Vk.MAX_ENUM, NoInfo)

  /** The Vulkan commands the recorder issues, in the order it issues them. */
  datatype Event =
    | BindPipeline(bindPoint: U32)
    | BeginRenderPass(setup: nat)
    | EndRenderPass
    | BindDescriptorSet(bindPoint: U32, writes: seq<Write>)
    | DrawCall
    | DrawIndexedCall
    | DispatchCall
  {
    predicate IsDraw() {
      DrawCall? || DrawIndexedCall? || DispatchCall?
    }
  }

  /**
   * What the source would abort on, or dereference NULL for: no technique
   * bound, a name the technique does not declare, a binding of the wrong
   * kind for the call, a compute technique given a render setup, or a full
   * staging ring.
   */
  datatype Fault = NoTechnique | UnknownBinding | WrongKind | NotGraphics | StagingFull | EndlessProbe

  /**
   * The recorder part of `GfxCommandBuffer_T`, with the device's frame ring
   * (for `GfxCmdAllocUploadBuffer`) and the handle of its staging buffer.
   * `sets` counts the descriptor sets allocated.
   */
  datatype Recorder = Recorder(
    technique: Option<T.TechniqueState>,
    setup: Option<nat>,
    writes: GfxArray.Array<Write>,
    dirty: bool,
    sets: nat,
    log: seq<Event>,
    ring: Frames.Ring,
    stagingBuffer: U64)
  {
    /** A bound technique has one pending write per binding. */
    predicate Valid() {
      writes.Valid() && ring.Valid()
      && (technique.Some? ==> Bindable(technique.value) && writes.count == technique.value.bindingCount as nat)
    }
  }

  /** A technique the recorder can bind: every name in its table maps to one of its binding slots. */
  predicate Bindable(tech: T.TechniqueState) {
    tech.Valid() && T.SlotsBelow(tech.table, tech.bindingCount as nat)
  }

  /** A command buffer as `GfxCreateDevice` leaves it: nothing bound, nothing recorded. */
  function Fresh(ring: Frames.Ring, stagingBuffer: U64): (r: Recorder)
    requires ring.Valid()
    ensures r.Valid() && r.technique.None? && r.setup.None? && !r.dirty && r.sets == 0 && r.log == []
  {
    Recorder(None, None, GfxArray.New(0, UNWRITTEN), false, 0, [], ring, stagingBuffer)
  }

  // ---------------------------------------------------------------------
  // Binding a technique and a render setup

  /**
   * `GfxCmdBeginTechnique`: bind the pipeline, size the writes to the
   * binding count and clear the dirty flag. The render setup stays bound,
   * and slots kept by `Resize` keep what an earlier technique wrote there.
   */
  function BeginTechnique(r: Recorder, tech: T.TechniqueState): (s: Recorder)
    requires r.Valid() && Bindable(tech)
    ensures s.Valid() && s.technique == Some(tech) && !s.dirty
    ensures s.writes.count == tech.bindingCount as nat
    ensures tech.bindingCount as nat <= r.writes.Capacity() ==> s.writes.Items() == r.writes.slots[..tech.bindingCount]
    ensures s.log == r.log + [BindPipeline(tech.bindPoint)]
    ensures s.setup == r.setup && s.sets == r.sets && s.ring == r.ring
  {
    r.(technique := Some(tech),
       writes := GfxArray.Resize(r.writes, tech.bindingCount as nat, UNWRITTEN),
       dirty := false,
       log := r.log + [BindPipeline(tech.bindPoint)])
  }

  /**
   * `GfxCmdEndTechnique`: end the render pass if a setup is bound, then
   * unbind both. The dirty flag and the pending writes stay as they are.
   */
  function EndTechnique(r: Recorder): (s: Recorder)
    requires r.Valid()
    ensures s.Valid() && s.technique.None? && s.setup.None?
    ensures s.log == r.log + (if r.setup.Some? then [EndRenderPass] else [])
    ensures s.dirty == r.dirty && s.writes == r.writes && s.sets == r.sets && s.ring == r.ring
  {
    r.(technique := None, setup := None, log := r.log + (if r.setup.Some? then [EndRenderPass] else []))
  }

  /** `GfxCmdSetRenderSetup`: only a graphics technique can begin a render pass. */
  function SetRenderSetup(r: Recorder, setup: nat): (s: Result<Recorder, Fault>)
    requires r.Valid()
    ensures s.Success? <==> r.technique.Some? && r.technique.value.bindPoint == Vk.PIPELINE_BIND_POINT_GRAPHICS
    ensures r.technique.None? ==> s == Failure(NoTechnique)
    ensures s.Success? ==> s.value == r.(setup := Some(setup), log := r.log + [BeginRenderPass(setup)])
    ensures s.Success? ==> s.value.Valid()
  {
    if r.technique.None? then Failure(NoTechnique)
    else if r.technique.value.bindPoint != Vk.PIPELINE_BIND_POINT_GRAPHICS then Failure(NotGraphics)
    else Success(r.(setup := Some(setup), log := r.log + [BeginRenderPass(setup)]))
  }

  // ---------------------------------------------------------------------
  // Resolving a binding name

  /** The descriptor types `GfxCmdSetBuffer` accepts: the six buffer kinds. */
  const BUFFER_KINDS: set<U32> := {
    Vk.DESCRIPTOR_TYPE_UNIFORM_TEXEL_BUFFER, Vk.DESCRIPTOR_TYPE_STORAGE_TEXEL_BUFFER,
    Vk.DESCRIPTOR_TYPE_UNIFORM_BUFFER, Vk.DESCRIPTOR_TYPE_STORAGE_BUFFER,
    Vk.DESCRIPTOR_TYPE_UNIFORM_BUFFER_DYNAMIC, Vk.DESCRIPTOR_TYPE_STORAGE_BUFFER_DYNAMIC }

  /** The descriptor types `GfxCmdSetTexture` accepts. */
  const TEXTURE_KINDS: set<U32> := { Vk.DESCRIPTOR_TYPE_SAMPLED_IMAGE, Vk.DESCRIPTOR_TYPE_STORAGE_IMAGE }

  /** The descriptor type `GfxCmdSetSampler` accepts. */
  const SAMPLER_KINDS: set<U32> := { Vk.DESCRIPTOR_TYPE_SAMPLER }

  /** The descriptor types `GfxCmdAllocUploadBuffer` accepts. */
  const UPLOAD_KINDS: set<U32> := { Vk.DESCRIPTOR_TYPE_UNIFORM_BUFFER, Vk.DESCRIPTOR_TYPE_STORAGE_BUFFER }

  /**
   * The lookup at the head of every `GfxCmdSet*` as it is evidently meant:
   * find the name's hash in the bound technique's table and check its kind,
   * reporting a name whose probe would never stop as unknown. The calls
   * themselves use the lookup as written, `ResolveAsWritten`.
   */
  function Resolve(r: Recorder, hash: U64, kinds: set<U32>): (b: Result<T.SlotBinding, Fault>)
    requires r.Valid()
    ensures b.Success? <==> r.technique.Some? && HT.FindOrMiss(r.technique.value.table, hash).Some?
                            && HT.FindOrMiss(r.technique.value.table, hash).value.descriptorType in kinds
    ensures b.Success? ==> Some(b.value) == HT.FindOrMiss(r.technique.value.table, hash)
    ensures b.Success? ==> b.value.slot as nat < r.writes.count && b.value.descriptorType in kinds
    ensures r.technique.Some? && HT.FindOrMiss(r.technique.value.table, hash).None? ==> b == Failure(UnknownBinding)
  {
    if r.technique.None? then Failure(NoTechnique)
    else
      var found := HT.FindOrMiss(r.technique.value.table, hash);
      if found.None? then Failure(UnknownBinding)
      else if found.value.descriptorType !in kinds then Failure(WrongKind)
      else
        FoundSlotBelow(r.technique.value, hash);
        Success(found.value)
  }

  /** What a bindable technique's table finds is one of its binding slots. */
  lemma FoundSlotBelow(tech: T.TechniqueState, hash: U64)
    requires Bindable(tech)
    ensures HT.FindOrMiss(tech.table, hash).Some? ==> HT.FindOrMiss(tech.table, hash).value.slot < tech.bindingCount
  {
    if HT.FindOrMiss(tech.table, hash).Some? {
      var j :| 0 <= j < tech.table.Capacity() && tech.table.hashes[j] == hash && tech.table.entries[j] == HT.FindOrMiss(tech.table, hash).value;
      assert hash != HT.EMPTY;
    }
  }

  /**
   * The lookup as written: `HashTable::Find` probes until it meets the hash
   * or an empty slot, so in a table with neither it never returns.
   */
  function ResolveAsWritten(r: Recorder, hash: U64, kinds: set<U32>): (b: Result<T.SlotBinding, Fault>)
    requires r.Valid()
    ensures r.technique.Some? && !HT.CanProbe(r.technique.value.table, hash) ==> b == Failure(EndlessProbe)
    ensures r.technique.Some? && HT.CanProbe(r.technique.value.table, hash) ==> b == Resolve(r, hash, kinds)
    ensures r.technique.None? ==> b == Failure(NoTechnique)
  {
    if r.technique.None? then Failure(NoTechnique)
    else if !HT.CanProbe(r.technique.value.table, hash) then Failure(EndlessProbe)
    else
      var found := HT.Find(r.technique.value.table, hash);
      if found.None? then Failure(UnknownBinding)
      else if found.value.descriptorType !in kinds then Failure(WrongKind)
      else
        FoundSlotBelow(r.technique.value, hash);
        Success(found.value)
  }

  /**
   * A technique whose table has no empty slot left hangs the as-written
   * lookup of any name it does not declare; the corrected lookup reports
   * the name as unknown, which is what `ASSERT(binding)` is there for.
   */
  lemma FullTableHangs(r: Recorder, hash: U64, kinds: set<U32>)
    requires r.Valid() && r.technique.Some? && HT.EmptySlots(r.technique.value.table) == 0
    requires forall j :: 0 <= j < r.technique.value.table.Capacity() ==> r.technique.value.table.hashes[j] != hash
    ensures ResolveAsWritten(r, hash, kinds) == Failure(EndlessProbe)
    ensures Resolve(r, hash, kinds) == Failure(UnknownBinding)
  {
    HT.FullTableNeverStops(r.technique.value.table, hash);
  }

  /** Every technique `GfxCreateTechnique` returns can be bound. */
  lemma CreatedIsBindable(data: seq<Byte>, previous: Option<T.TechniqueState>, swapchainFormat: U32)
    requires previous.Some? ==> previous.value.Valid()
    requires T.CreateTechnique(data, previous, swapchainFormat).Some?
    ensures Bindable(T.CreateTechnique(data, previous, swapchainFormat).value)
  {
    T.CreatedSlotsBelow(data, previous, swapchainFormat);
  }

  /**
   * On a technique from `GfxCreateTechnique`, the name of its binding `k`
   * resolves to slot `k` when the call accepts that binding's kind, and is
   * refused as the wrong kind otherwise (unless a later binding shares the
   * hash, or the hash is the empty-slot marker).
   */
  lemma ResolvesDeclaredBinding(data: seq<Byte>, previous: Option<T.TechniqueState>, swapchainFormat: U32,
                                r: Recorder, k: nat, kinds: set<U32>)
    requires previous.Some? ==> previous.value.Valid()
    requires T.CreateTechnique(data, previous, swapchainFormat).Some?
    requires var blob := TF.Deserialise(data).value.blob;
             k < blob.bindingCount as nat && blob.bindings[k].hash != HT.EMPTY && T.LastWithHash(blob.bindings, blob.bindingCount as nat, k)
    requires r.Valid() && r.technique == T.CreateTechnique(data, previous, swapchainFormat)
    ensures var b := TF.Deserialise(data).value.blob.bindings[k];
            Resolve(r, b.hash, kinds) ==
              if b.descriptorType in kinds then Success(T.SlotBinding(k as U32, b.descriptorType)) else Failure(WrongKind)
    ensures var b := TF.Deserialise(data).value.blob.bindings[k];
            ResolveAsWritten(r, b.hash, kinds) == Resolve(r, b.hash, kinds)
  {
    T.CreatedFindsBindings(data, previous, swapchainFormat, k);
  }

  /**
   * A technique made from sixteen shader bindings with distinct names fills
   * its table, so any `GfxCmdSet*` with a name it does not declare hangs in
   * `HashTable::Find` as written, instead of reaching `ASSERT(binding)`.
   */
  lemma SixteenBindingsHang(data: seq<Byte>, previous: Option<T.TechniqueState>, swapchainFormat: U32, r: Recorder, hash: U64, kinds: set<U32>)
    requires previous.Some? ==> previous.value.Valid()
    requires T.CreateTechnique(data, previous, swapchainFormat).Some?
    requires var blob := TF.Deserialise(data).value.blob;
             blob.bindingCount as nat == TB.MAX_SHADER_BINDINGS && T.DistinctHashes(blob.bindings, TB.MAX_SHADER_BINDINGS)
             && (forall k :: 0 <= k < TB.MAX_SHADER_BINDINGS ==> blob.bindings[k].hash != HT.EMPTY && blob.bindings[k].hash != hash)
    requires r.Valid() && r.technique == T.CreateTechnique(data, previous, swapchainFormat)
    ensures ResolveAsWritten(r, hash, kinds) == Failure(EndlessProbe)
    ensures Resolve(r, hash, kinds) == Failure(UnknownBinding)
  {
    T.CreatedFullTable(data, previous, swapchainFormat, hash);
  }

  // ---------------------------------------------------------------------
  // Writing a slot

  /** The write every `GfxCmdSet*` stores: the slot's own binding number and type, and the resource. */
  function WriteFor(b: T.SlotBinding, info: Info): Write {
    Write(b.slot, b.descriptorType, info)
  }

  /**
   * `s` is `r` with the write for `info` in slot `b.slot` and the
   * descriptor set marked dirty: every other slot, the bound technique and
   * setup, the recorded commands, the set count and the ring are as before.
   */
  predicate Stored(r: Recorder, s: Recorder, b: T.SlotBinding, info: Info) {
    r.writes.Valid() && b.slot as nat < r.writes.count
    && s.Valid() && s.dirty
    && s.writes.count == r.writes.count
    && s.writes.Items() == r.writes.Items()[b.slot := WriteFor(b, info)]
    && s.technique == r.technique && s.setup == r.setup && s.log == r.log && s.sets == r.sets
    && s.ring == r.ring && s.stagingBuffer == r.stagingBuffer
  }

  /** Store a write in the resolved slot and mark the descriptor set dirty. */
  function Store(r: Recorder, b: T.SlotBinding, info: Info): (s: Recorder)
    requires r.Valid() && b.slot as nat < r.writes.count
    ensures Stored(r, s, b, info)
  {
    var slots := r.writes.slots[b.slot := WriteFor(b, info)];
    assert slots[..r.writes.count] == r.writes.Items()[b.slot := WriteFor(b, info)];
    r.(writes := r.writes.(slots := slots), dirty := true)
  }

  /** `GfxCmdSetBuffer`: a buffer range for a binding of one of the six buffer kinds. */
  function SetBuffer(r: Recorder, hash: U64, buffer: U64, offset: U64, size: U64): (s: Result<Recorder, Fault>)
    requires r.Valid()
    ensures r.technique.Some? && !HT.CanProbe(r.technique.value.table, hash) ==> s == Failure(EndlessProbe)
    ensures s.Success? <==> ResolveAsWritten(r, hash, BUFFER_KINDS).Success?
    ensures s.Failure? ==> s.error == ResolveAsWritten(r, hash, BUFFER_KINDS).error
    ensures s.Success? ==> Stored(r, s.value, ResolveAsWritten(r, hash, BUFFER_KINDS).value, BufferInfo(buffer, offset, size))
  {
    var b :- ResolveAsWritten(r, hash, BUFFER_KINDS);
    Success(Store(r, b, BufferInfo(buffer, offset, size)))
  }

  /** `GfxCmdSetTexture`: an image view in the layout of the given state, for a sampled or storage image binding. */
  function SetTexture(r: Recorder, hash: U64, view: U64, state: int): (s: Result<Recorder, Fault>)
    requires r.Valid()
    ensures r.technique.Some? && !HT.CanProbe(r.technique.value.table, hash) ==> s == Failure(EndlessProbe)
    ensures s.Success? <==> ResolveAsWritten(r, hash, TEXTURE_KINDS).Success?
    ensures s.Failure? ==> s.error == ResolveAsWritten(r, hash, TEXTURE_KINDS).error
    ensures s.Success? ==> Stored(r, s.value, ResolveAsWritten(r, hash, TEXTURE_KINDS).value, ImageInfo(view, Conversion.ImageLayout(state)))
  {
    var b :- ResolveAsWritten(r, hash, TEXTURE_KINDS);
    Success(Store(r, b, ImageInfo(view, Conversion.ImageLayout(state))))
  }

  /** `GfxCmdSetSampler`: a sampler, for a sampler binding. */
  function SetSampler(r: Recorder, hash: U64, sampler: U64): (s: Result<Recorder, Fault>)
    requires r.Valid()
    ensures r.technique.Some? && !HT.CanProbe(r.technique.value.table, hash) ==> s == Failure(EndlessProbe)
    ensures s.Success? <==> ResolveAsWritten(r, hash, SAMPLER_KINDS).Success?
    ensures s.Failure? ==> s.error == ResolveAsWritten(r, hash, SAMPLER_KINDS).error
    ensures s.Success? ==> Stored(r, s.value, ResolveAsWritten(r, hash, SAMPLER_KINDS).value, SamplerInfo(sampler))
  {
    var b :- ResolveAsWritten(r, hash, SAMPLER_KINDS);
    Success(Store(r, b, SamplerInfo(sampler)))
  }

  /** The result of `GfxCmdAllocUploadBuffer`: the new recorder and where the caller may write. */
  datatype Upload = Upload(recorder: Recorder, offset: nat)

  /**
   * `GfxCmdAllocUploadBuffer`: take `size` bytes of the staging ring at the
   * default alignment and point a uniform or storage buffer binding at them.
   */
  function AllocUploadBuffer(r: Recorder, hash: U64, size: U32): (u: Result<Upload, Fault>)
    requires r.Valid()
    ensures u.Success? ==>
              ResolveAsWritten(r, hash, UPLOAD_KINDS).Success? && Frames.AllocateUpload(r.ring, size as U64, Staging.DEFAULT_ALIGNMENT).Success? &&
              var b := ResolveAsWritten(r, hash, UPLOAD_KINDS).value;
              var a := Frames.AllocateUpload(r.ring, size as U64, Staging.DEFAULT_ALIGNMENT).value;
              u.value.offset == a.offset && u.value.offset % Staging.DEFAULT_ALIGNMENT == 0
              && u.value.offset + size as nat <= Staging.SIZE
              && Stored(r.(ring := a.ring), u.value.recorder, b, BufferInfo(r.stagingBuffer, a.offset as U64, size as U64))
    ensures ResolveAsWritten(r, hash, UPLOAD_KINDS).Success? ==>
              (u.Success? <==> Frames.AllocateUpload(r.ring, size as U64, Staging.DEFAULT_ALIGNMENT).Success?)
    ensures ResolveAsWritten(r, hash, UPLOAD_KINDS).Failure? ==> u == Failure(ResolveAsWritten(r, hash, UPLOAD_KINDS).error)
    ensures r.technique.Some? && !HT.CanProbe(r.technique.value.table, hash) ==> u == Failure(EndlessProbe)
  {
    var b :- ResolveAsWritten(r, hash, UPLOAD_KINDS);
    assert Staging.ValidAlignment(Staging.DEFAULT_ALIGNMENT);
    match Frames.AllocateUpload(r.ring, size as U64, Staging.DEFAULT_ALIGNMENT)
    case Failure(_) => Failure(StagingFull)
    case Success(a) =>
      Success(Upload(Store(r.(ring := a.ring), b, BufferInfo(r.stagingBuffer, a.offset as U64, size as U64)), a.offset))
  }

  // ---------------------------------------------------------------------
  // Flushing the descriptor set and drawing

  /**
   * `UpdateDescriptorSet`: when something was set since the last flush,
   * allocate one set, fill it with every pending write and bind it.
   */
  function Flush(r: Recorder): (s: Result<Recorder, Fault>)
    requires r.Valid()
    ensures s.Failure? <==> r.dirty && r.technique.None?
    ensures s.Success? ==> s.value.Valid() && !s.value.dirty
    ensures s.Success? ==> s.value.sets == r.sets + (if r.dirty then 1 else 0)
    ensures s.Success? && r.dirty ==>
              s.value.log == r.log + [BindDescriptorSet(r.technique.value.bindPoint, r.writes.Items())]
    ensures s.Success? && !r.dirty ==> s.value == r
    ensures s.Success? ==> s.value.technique == r.technique && s.value.setup == r.setup && s.value.writes == r.writes && s.value.ring == r.ring
  {
    if !r.dirty then Success(r)
    else if r.technique.None? then Failure(NoTechnique)
    else Success(r.(dirty := false, sets := r.sets + 1,
                    log := r.log + [BindDescriptorSet(r.technique.value.bindPoint, r.writes.Items())]))
  }

  /** `GfxCmdDraw`, `GfxCmdDrawIndexed` and `GfxCmdDispatch`: flush, then record the call. */
  function DrawWith(r: Recorder, call: Event): (s: Result<Recorder, Fault>)
    requires r.Valid() && call.IsDraw()
    ensures s.Success? <==> Flush(r).Success?
    ensures s.Success? ==> s.value == Flush(r).value.(log := Flush(r).value.log + [call])
    ensures s.Success? ==> s.value.Valid() && !s.value.dirty && s.value.sets == r.sets + (if r.dirty then 1 else 0)
  {
    var f :- Flush(r);
    Success(f.(log := f.log + [call]))
  }

  // ---------------------------------------------------------------------
  // A sequence of recorder calls

  datatype Command =
    | BeginTechniqueCmd(tech: T.TechniqueState)
    | EndTechniqueCmd
    | SetRenderSetupCmd(setup: nat)
    | SetBufferCmd(hash: U64, buffer: U64, offset: U64, size: U64)
    | SetTextureCmd(hash: U64, view: U64, state: int)
    | SetSamplerCmd(hash: U64, sampler: U64)
    | AllocUploadCmd(hash: U64, uploadSize: U32)
    | DrawCmd
    | DrawIndexedCmd
    | DispatchCmd
  {
    /** The calls that can set the dirty flag. */
    predicate IsSet() {
      SetBufferCmd? || SetTextureCmd? || SetSamplerCmd? || AllocUploadCmd?
    }

    predicate IsDraw() {
      DrawCmd? || DrawIndexedCmd? || DispatchCmd?
    }
  }

  /** Every technique handed to `GfxCmdBeginTechnique` came from `GfxCreateTechnique`. */
  predicate Bindables(cmds: seq<Command>) {
    forall i :: 0 <= i < |cmds| && cmds[i].BeginTechniqueCmd? ==> Bindable(cmds[i].tech)
  }

  /**
   * The dirty flag after a call: a draw flushes it and `GfxCmdBeginTechnique`
   * clears it, every `GfxCmdSet*` raises it, and the other calls leave it.
   */
  function DirtyAfter(c: Command, dirty: bool): bool {
    if c.IsDraw() || c.BeginTechniqueCmd? then false
    else if c.IsSet() then true
    else dirty
  }

  /** One recorder call. */
  function Step(r: Recorder, c: Command): (s: Result<Recorder, Fault>)
    requires r.Valid() && (c.BeginTechniqueCmd? ==> Bindable(c.tech))
    ensures s.Success? ==> s.value.Valid() && s.value.dirty == DirtyAfter(c, r.dirty)
    ensures s.Success? ==> s.value.sets == r.sets + (if c.IsDraw() && r.dirty then 1 else 0)
    ensures c.BeginTechniqueCmd? || c.EndTechniqueCmd? ==> s.Success?
  {
    if c.IsSet() then SetStep(r, c)
    else
      match c
      case BeginTechniqueCmd(tech) => Success(BeginTechnique(r, tech))
      case EndTechniqueCmd => Success(EndTechnique(r))
      case SetRenderSetupCmd(setup) => SetRenderSetup(r, setup)
      case DrawCmd => DrawWith(r, DrawCall)
      case DrawIndexedCmd => DrawWith(r, DrawIndexedCall)
      case DispatchCmd => DrawWith(r, DispatchCall)
  }

  /** The four calls that write a slot. */
  function SetStep(r: Recorder, c: Command): (s: Result<Recorder, Fault>)
    requires r.Valid() && c.IsSet()
    ensures s.Success? ==> s.value.Valid() && s.value.dirty && s.value.sets == r.sets
  {
    match c
    case SetBufferCmd(hash, buffer, offset, size) => SetBuffer(r, hash, buffer, offset, size)
    case SetTextureCmd(hash, view, state) => SetTexture(r, hash, view, state)
    case SetSamplerCmd(hash, sampler) => SetSampler(r, hash, sampler)
    case AllocUploadCmd(hash, uploadSize) => UploadStep(r, hash, uploadSize)
  }

  /** `GfxCmdAllocUploadBuffer` as a step of a recording: the caller's pointer is not followed further. */
  function UploadStep(r: Recorder, hash: U64, size: U32): (s: Result<Recorder, Fault>)
    requires r.Valid()
    ensures s.Success? <==> AllocUploadBuffer(r, hash, size).Success?
    ensures s.Success? ==> s.value == AllocUploadBuffer(r, hash, size).value.recorder
    ensures s.Success? ==> s.value.Valid() && s.value.dirty && s.value.sets == r.sets && s.value.log == r.log
  {
    var u :- AllocUploadBuffer(r, hash, size);
    Success(u.recorder)
  }

  /** The calls in order; the first fault ends the recording. */
  function Run(r: Recorder, cmds: seq<Command>): (s: Result<Recorder, Fault>)
    requires r.Valid() && Bindables(cmds)
    ensures s.Success? ==> s.value.Valid()
    decreases |cmds|
  {
    if |cmds| == 0 then Success(r)
    else
      var next :- Step(r, cmds[0]);
      Run(next, cmds[1..])
  }

  /** The number of draw and dispatch calls. */
  function Draws(cmds: seq<Command>): nat {
    if |cmds| == 0 then 0 else (if cmds[0].IsDraw() then 1 else 0) + Draws(cmds[1..])
  }

  /**
   * The number of draws that follow a `GfxCmdSet*` with no draw or
   * `GfxCmdBeginTechnique` in between; `dirty` says whether the calls
   * before these left something set.
   */
  function FlushingDraws(cmds: seq<Command>, dirty: bool): nat {
    if |cmds| == 0 then 0
    else (if cmds[0].IsDraw() && dirty then 1 else 0) + FlushingDraws(cmds[1..], DirtyAfter(cmds[0], dirty))
  }

  /**
   * A recording allocates exactly one descriptor set per draw that follows
   * a `GfxCmdSet*` since the last draw or `GfxCmdBeginTechnique`: never
   * more than the draws, so repeated draws with nothing set in between
   * allocate none.
   */
  lemma {:induction false} SetsPerFlushingDraw(r: Recorder, cmds: seq<Command>)
    requires r.Valid() && Bindables(cmds) && Run(r, cmds).Success?
    ensures Run(r, cmds).value.sets == r.sets + FlushingDraws(cmds, r.dirty)
    ensures FlushingDraws(cmds, r.dirty) <= Draws(cmds)
    decreases |cmds|
  {
    if |cmds| > 0 {
      var next := Step(r, cmds[0]).value;
      assert Bindables(cmds[1..]) by {
        forall i | 0 <= i < |cmds[1..]| && cmds[1..][i].BeginTechniqueCmd?
          ensures Bindable(cmds[1..][i].tech)
        {
          assert cmds[1..][i] == cmds[i + 1];
        }
      }
      SetsPerFlushingDraw(next, cmds[1..]);
    }
  }

  /**
   * In the recorded commands, a descriptor set is bound only right before
   * a draw or dispatch.
   */
  predicate BindsBeforeDraws(log: seq<Event>) {
    forall i :: 0 <= i < |log| && log[i].BindDescriptorSet? ==> i + 1 < |log| && log[i + 1].IsDraw()
  }

  /** Every call keeps descriptor-set binds adjacent to the draw they serve. */
  lemma StepKeepsBinds(r: Recorder, c: Command)
    requires r.Valid() && (c.BeginTechniqueCmd? ==> Bindable(c.tech)) && BindsBeforeDraws(r.log)
    ensures Step(r, c).Success? ==> BindsBeforeDraws(Step(r, c).value.log)
  {
    if Step(r, c).Success? {
      var s := Step(r, c).value;
      if c.IsDraw() {
        var call := if c.DrawCmd? then DrawCall else if c.DrawIndexedCmd? then DrawIndexedCall else DispatchCall;
        assert s.log == Flush(r).value.log + [call];
        if r.dirty {
          assert s.log == r.log + [BindDescriptorSet(r.technique.value.bindPoint, r.writes.Items()), call];
        } else {
          assert s.log == r.log + [call];
        }
      } else if c.BeginTechniqueCmd? || c.SetRenderSetupCmd? || c.EndTechniqueCmd? {
        assert forall i :: 0 <= i < |s.log| ==> !s.log[i].BindDescriptorSet? || i < |r.log|;
      } else {
        assert s.log == r.log;
      }
    }
  }

  /** A whole recording keeps descriptor-set binds right before draws. */
  lemma {:induction false} RunKeepsBinds(r: Recorder, cmds: seq<Command>)
    requires r.Valid() && Bindables(cmds) && BindsBeforeDraws(r.log)
    ensures Run(r, cmds).Success? ==> BindsBeforeDraws(Run(r, cmds).value.log)
    decreases |cmds|
  {
    if |cmds| > 0 && Step(r, cmds[0]).Success? {
      StepKeepsBinds(r, cmds[0]);
      assert Bindables(cmds[1..]) by {
        forall i | 0 <= i < |cmds[1..]| && cmds[1..][i].BeginTechniqueCmd?
          ensures Bindable(cmds[1..][i].tech)
        {
          assert cmds[1..][i] == cmds[i + 1];
        }
      }
      RunKeepsBinds(Step(r, cmds[0]).value, cmds[1..]);
    }
  }

  /** A second draw right after a first allocates no set and adds only its own call. */
  lemma SecondDrawAllocatesNone(r: Recorder, first: Event, second: Event)
    requires r.Valid() && first.IsDraw() && second.IsDraw() && DrawWith(r, first).Success?
    ensures DrawWith(DrawWith(r, first).value, second).Success?
    ensures var s := DrawWith(r, first).value;
            DrawWith(s, second).value == s.(log := s.log + [second])
  {
  }
}
