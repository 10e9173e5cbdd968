/**
 * What `GfxCreateTechnique` (Source/GfxTechnique.cpp) derives from a technique
 * record: the binding table that maps a name's hash to its descriptor slot,
 * the attachments of the render pass and the vertex input description. The
 * Vulkan objects it creates from them are not modelled.
 */
module Technique {
  import opened Machine
  import opened Wrappers
  import Vk
  import Conversion
  import HT = GfxHashTable
  import TB = TechniqueBlob
  import TF = TechniqueFile

  // ---------------------------------------------------------------------
  // The binding table

  /** `GfxTechnique_T::ShaderBinding`: the slot a name resolves to and its descriptor type. */
  datatype SlotBinding = SlotBinding(slot: U32, descriptorType: U32)

  /** What the entry of a slot nobody has written holds; it is never read. */
  const UNSET_SLOT: SlotBinding := SlotBinding(0, Vk.MAX_ENUM)

  /** `m_ShaderBindings` is constructed with one slot per blob binding. */
  const TABLE_CAPACITY: nat := TB.MAX_SHADER_BINDINGS

  type Table = HT.HashTable<SlotBinding>

  /** Binding `k` is the last one of the first `n` whose name has its hash. */
  predicate LastWithHash(bs: seq<TB.ShaderBinding>, n: nat, k: nat)
    requires k < n <= |bs|
  {
    forall l :: k < l < n ==> bs[l].hash != bs[k].hash
  }

  /**
   * The loop of `GfxCreateTechnique` over the first `n` bindings: binding `i`
   * is put under its hash as slot `i` with its descriptor type. A later
   * binding with the same hash overwrites an earlier one.
   */
  function PutBindings(t: Table, bs: seq<TB.ShaderBinding>, n: nat): (r: Table)
    requires t.Valid() && n <= |bs| && n <= HT.EmptySlots(t) && n <= TB.MAX_SHADER_BINDINGS
    ensures r.Valid() && r.Capacity() == t.Capacity()
    ensures HT.EmptySlots(r) + n >= HT.EmptySlots(t)
    decreases n
  {
    if n == 0 then t
    else
      var prev := PutBindings(t, bs, n - 1);
      HT.EmptySlotLetsProbe(prev, bs[n - 1].hash);
      HT.PutUsesAtMostOneSlot(prev, bs[n - 1].hash, SlotBinding((n - 1) as U32, bs[n - 1].descriptorType));
      HT.Put(prev, bs[n - 1].hash, SlotBinding((n - 1) as U32, bs[n - 1].descriptorType))
  }

  /**
   * After the loop, the hash of binding `k` (unless it is the empty-slot
   * marker or a later binding shares it) finds slot `k` and binding `k`'s type.
   */
  lemma {:induction false} PutBindingsFinds(t: Table, bs: seq<TB.ShaderBinding>, n: nat, k: nat)
    requires t.Valid() && n <= |bs| && n <= HT.EmptySlots(t) && n <= TB.MAX_SHADER_BINDINGS
    requires k < n && bs[k].hash != HT.EMPTY && LastWithHash(bs, n, k)
    ensures HT.CanProbe(PutBindings(t, bs, n), bs[k].hash)
    ensures HT.Find(PutBindings(t, bs, n), bs[k].hash) == Some(SlotBinding(k as U32, bs[k].descriptorType))
    decreases n
  {
    var prev := PutBindings(t, bs, n - 1);
    var h := bs[n - 1].hash;
    var e := SlotBinding((n - 1) as U32, bs[n - 1].descriptorType);
    if k == n - 1 {
      HT.EmptySlotLetsProbe(prev, h);
      HT.FindAfterPut(prev, h, e);
    } else {
      assert LastWithHash(bs, n - 1, k);
      var v := SlotBinding(k as U32, bs[k].descriptorType);
      PutBindingsFinds(t, bs, n - 1, k);
      PutKeeps(prev, bs[k].hash, h, e, v);
    }
  }

  lemma PutKeeps(prev: Table, hk: U64, h: U64, e: SlotBinding, v: SlotBinding)
    requires prev.Valid() && HT.EmptySlots(prev) > 0 && hk != h
    requires HT.CanProbe(prev, hk) && HT.Find(prev, hk) == Some(v)
    ensures HT.CanProbe(prev, h)
    ensures HT.CanProbe(HT.Put(prev, h, e), hk) && HT.Find(HT.Put(prev, h, e), hk) == Some(v)
  {
    HT.EmptySlotLetsProbe(prev, h);
    HT.PutKeepsOthers(prev, hk, h, e);
  }

  /** Every slot the loop changes holds the hash of one of the bindings it put. */
  lemma {:induction false} PutBindingsHashes(t: Table, bs: seq<TB.ShaderBinding>, n: nat)
    requires t.Valid() && n <= |bs| && n <= HT.EmptySlots(t) && n <= TB.MAX_SHADER_BINDINGS
    ensures forall j :: 0 <= j < t.Capacity() ==>
              PutBindings(t, bs, n).hashes[j] == t.hashes[j] || exists k :: 0 <= k < n && PutBindings(t, bs, n).hashes[j] == bs[k].hash
    decreases n
  {
    if n > 0 {
      PutBindingsHashes(t, bs, n - 1);
      var prev := PutBindings(t, bs, n - 1);
      var h := bs[n - 1].hash;
      HT.EmptySlotLetsProbe(prev, h);
      var r := HT.Put(prev, h, SlotBinding((n - 1) as U32, bs[n - 1].descriptorType));
      assert PutBindings(t, bs, n) == r;
      var i := HT.ProbeIndex(prev, h);
      forall j | 0 <= j < t.Capacity()
        ensures r.hashes[j] == t.hashes[j] || exists k :: 0 <= k < n && r.hashes[j] == bs[k].hash
      {
        if j == i {
          assert r.hashes[j] == bs[n - 1].hash;
        } else if prev.hashes[j] != t.hashes[j] {
          var k :| 0 <= k < n - 1 && prev.hashes[j] == bs[k].hash;
          assert r.hashes[j] == bs[k].hash;
        }
      }
    }
  }

  /** A hash that no binding has, on a table that started empty, is not found: the lookup reports a missing name. */
  lemma PutBindingsMisses(t: Table, bs: seq<TB.ShaderBinding>, n: nat, h: U64)
    requires t.Valid() && n <= |bs| && n <= HT.EmptySlots(t) && n <= TB.MAX_SHADER_BINDINGS
    requires forall j :: 0 <= j < t.Capacity() ==> t.hashes[j] == HT.EMPTY
    requires forall k :: 0 <= k < n ==> bs[k].hash != h
    requires HT.CanProbe(PutBindings(t, bs, n), h)
    ensures HT.Find(PutBindings(t, bs, n), h).None?
  {
    PutBindingsHashes(t, bs, n);
  }

  /** Putting the same bindings into tables with the same keys gives tables with the same keys. */
  lemma {:induction false} PutBindingsSameKeys(a: Table, b: Table, bs: seq<TB.ShaderBinding>, n: nat)
    requires HT.SameKeys(a, b) && n <= |bs| && n <= HT.EmptySlots(a) && n <= TB.MAX_SHADER_BINDINGS
    ensures n <= HT.EmptySlots(b)
    ensures HT.SameKeys(PutBindings(a, bs, n), PutBindings(b, bs, n))
    decreases n
  {
    if n > 0 {
      PutBindingsSameKeys(a, b, bs, n - 1);
      var pa := PutBindings(a, bs, n - 1);
      var pb := PutBindings(b, bs, n - 1);
      PutSameKeys(pa, pb, bs[n - 1].hash, SlotBinding((n - 1) as U32, bs[n - 1].descriptorType));
    }
  }

  /** Every occupied slot of the table maps to a binding slot below `n`. */
  predicate SlotsBelow(t: Table, n: nat)
    requires t.Valid()
  {
    forall j :: 0 <= j < |t.hashes| && t.hashes[j] != HT.EMPTY ==> t.entries[j].slot as nat < n
  }

  /** The loop over `n` bindings, on a table that started empty, maps every hash to one of those `n` slots. */
  lemma {:induction false} PutBindingsSlots(t: Table, bs: seq<TB.ShaderBinding>, n: nat)
    requires t.Valid() && n <= |bs| && n <= HT.EmptySlots(t) && n <= TB.MAX_SHADER_BINDINGS
    requires SlotsBelow(t, 0)
    ensures SlotsBelow(PutBindings(t, bs, n), n)
    decreases n
  {
    if n > 0 {
      var prev := PutBindings(t, bs, n - 1);
      var h := bs[n - 1].hash;
      PutBindingsSlots(t, bs, n - 1);
      HT.EmptySlotLetsProbe(prev, h);
      var r := PutBindings(t, bs, n);
      assert r == HT.Put(prev, h, SlotBinding((n - 1) as U32, bs[n - 1].descriptorType));
      forall j | 0 <= j < |r.hashes| && r.hashes[j] != HT.EMPTY
        ensures r.entries[j].slot as nat < n
      {
        if j != HT.ProbeIndex(prev, h) {
          assert r.hashes[j] == prev.hashes[j] && r.entries[j] == prev.entries[j];
        }
      }
    }
  }

  /** No two of the first `n` bindings share a hash. */
  predicate DistinctHashes(bs: seq<TB.ShaderBinding>, n: nat)
    requires n <= |bs|
  {
    forall a, b :: 0 <= a < b < n ==> bs[a].hash != bs[b].hash
  }

  /** `n` bindings with distinct hashes, none the empty-slot marker, take exactly `n` slots of a table that started empty. */
  lemma {:induction false} PutBindingsFills(t: Table, bs: seq<TB.ShaderBinding>, n: nat)
    requires t.Valid() && n <= |bs| && n <= HT.EmptySlots(t) && n <= TB.MAX_SHADER_BINDINGS
    requires forall j :: 0 <= j < t.Capacity() ==> t.hashes[j] == HT.EMPTY
    requires DistinctHashes(bs, n) && forall k :: 0 <= k < n ==> bs[k].hash != HT.EMPTY
    ensures HT.EmptySlots(PutBindings(t, bs, n)) + n == HT.EmptySlots(t)
    decreases n
  {
    if n == 0 {
      assert PutBindings(t, bs, 0) == t;
    } else {
      var prev := PutBindings(t, bs, n - 1);
      assert HT.EmptySlots(prev) + (n - 1) == HT.EmptySlots(t) by {
        PutBindingsFills(t, bs, n - 1);
      }
      PutNewBinding(t, bs, n, prev);
    }
  }

  /** The loop's last iteration puts a hash not in the table yet, and so takes one empty slot. */
  lemma PutNewBinding(t: Table, bs: seq<TB.ShaderBinding>, n: nat, prev: Table)
    requires t.Valid() && 0 < n <= |bs| && n <= HT.EmptySlots(t) && n <= TB.MAX_SHADER_BINDINGS
    requires forall j :: 0 <= j < t.Capacity() ==> t.hashes[j] == HT.EMPTY
    requires DistinctHashes(bs, n) && bs[n - 1].hash != HT.EMPTY
    requires prev == PutBindings(t, bs, n - 1) && HT.EmptySlots(prev) + (n - 1) == HT.EmptySlots(t)
    ensures HT.EmptySlots(PutBindings(t, bs, n)) + n == HT.EmptySlots(t)
  {
    PutBindingsHashes(t, bs, n - 1);
    var h := bs[n - 1].hash;
    assert forall j :: 0 <= j < prev.Capacity() ==> prev.hashes[j] != h;
    HT.NewHashTakesSlot(prev, h, SlotBinding((n - 1) as U32, bs[n - 1].descriptorType));
  }

  /** A table without empty slots, whose hashes all came from the bindings, holds no other hash. */
  lemma FilledWithOthers(t0: Table, bs: seq<TB.ShaderBinding>, t: Table, h: U64)
    requires t0.Valid() && t.Valid() && t.Capacity() == t0.Capacity() && HT.EmptySlots(t) == 0 && TB.MAX_SHADER_BINDINGS <= |bs|
    requires forall j :: 0 <= j < t0.Capacity() ==> t0.hashes[j] == HT.EMPTY
    requires forall k :: 0 <= k < TB.MAX_SHADER_BINDINGS ==> bs[k].hash != h
    requires forall j :: 0 <= j < t0.Capacity() ==>
               t.hashes[j] == t0.hashes[j] || exists k :: 0 <= k < TB.MAX_SHADER_BINDINGS && t.hashes[j] == bs[k].hash
    ensures forall j :: 0 <= j < t.Capacity() ==> t.hashes[j] != h
  {
    forall j | 0 <= j < t.Capacity()
      ensures t.hashes[j] != h
    {
      HT.UncountedNoneEmpty(t.hashes, j);
    }
  }

  lemma PutSameKeys(pa: Table, pb: Table, h: U64, e: SlotBinding)
    requires HT.SameKeys(pa, pb) && HT.EmptySlots(pa) > 0
    ensures HT.CanProbe(pa, h) && HT.CanProbe(pb, h)
    ensures HT.SameKeys(HT.Put(pa, h, e), HT.Put(pb, h, e))
  {
    HT.EmptySlotLetsProbe(pa, h);
    HT.SameKeysAgree(pa, pb, h, e);
  }

  // ---------------------------------------------------------------------
  // The render pass

  datatype AttachmentKind = ColorAttachment | DepthAttachment

  /**
   * One attachment of the render pass. Both kinds load and store their
   * contents; a depth attachment also loads and stores stencil, and each
   * kind stays in its own optimal layout.
   */
  datatype Attachment = Attachment(kind: AttachmentKind, format: U32)

  /** The single subpass: the color references in order and the depth reference, if any. */
  datatype Subpass = Subpass(colorRefs: seq<nat>, depthRef: Option<nat>)

  datatype RenderPass = RenderPass(attachments: seq<Attachment>, subpass: Subpass)

  /** A "back_buffer" color is stored as `VK_FORMAT_RANGE_SIZE` and takes the swapchain's format. */
  function ResolvedColor(format: U32, swapchainFormat: U32): U32 {
    if format == Vk.FORMAT_RANGE_SIZE then swapchainFormat else format
  }

  /** There is a depth attachment exactly when the record's depth format is not UNDEFINED. */
  function DepthCount(g: TB.Graphics): nat {
    if g.depthFormat != Vk.FORMAT_UNDEFINED then 1 else 0
  }

  /** Every reference names an attachment of its own kind, and every attachment is referenced exactly once. */
  predicate WellReferenced(p: RenderPass) {
    (forall i :: 0 <= i < |p.subpass.colorRefs| ==>
       p.subpass.colorRefs[i] < |p.attachments| && p.attachments[p.subpass.colorRefs[i]].kind == ColorAttachment)
    && (p.subpass.depthRef.Some? ==>
          p.subpass.depthRef.value < |p.attachments| && p.attachments[p.subpass.depthRef.value].kind == DepthAttachment)
    && (forall a :: 0 <= a < |p.attachments| ==>
          (p.attachments[a].kind == ColorAttachment ==> exists i :: 0 <= i < |p.subpass.colorRefs| && p.subpass.colorRefs[i] == a)
          && (p.attachments[a].kind == DepthAttachment ==> p.subpass.depthRef == Some(a)))
  }

  /**
   * The render pass of a graphics record: the color attachments in order
   * (the back buffer resolved to the swapchain format), then the depth
   * attachment at index `colorCount`, all in one subpass.
   */
  function RenderPassOf(g: TB.Graphics, swapchainFormat: U32): (p: RenderPass)
    requires g.Shaped() && g.colorCount <= TB.MAX_COLOR_ATTACHMENTS
    ensures |p.attachments| == g.colorCount as nat + DepthCount(g)
    ensures WellReferenced(p)
    ensures forall i :: 0 <= i < g.colorCount ==> p.attachments[i].format == ResolvedColor(g.colorFormats[i], swapchainFormat)
    ensures DepthCount(g) == 1 <==> p.subpass.depthRef.Some?
    ensures DepthCount(g) == 1 ==> p.attachments[g.colorCount].format == g.depthFormat
  {
    var n := g.colorCount as nat;
    var colors := seq(n, i requires 0 <= i < n => Attachment(ColorAttachment, ResolvedColor(g.colorFormats[i], swapchainFormat)));
    var refs := seq(n, i => i);
    var p :=
      if g.depthFormat != Vk.FORMAT_UNDEFINED then RenderPass(colors + [Attachment(DepthAttachment, g.depthFormat)], Subpass(refs, Some(n)))
      else RenderPass(colors, Subpass(refs, None));
    forall a | 0 <= a < |p.attachments|
      ensures p.attachments[a].kind == ColorAttachment ==> exists i :: 0 <= i < |p.subpass.colorRefs| && p.subpass.colorRefs[i] == a
      ensures p.attachments[a].kind == DepthAttachment ==> p.subpass.depthRef == Some(a)
    {
      if a < n {
        assert p.attachments[a] == colors[a] && p.subpass.colorRefs[a] == a;
      }
    }
    p
  }

  // ---------------------------------------------------------------------
  // The vertex input

  /** One vertex buffer binding: its stride, and its input rate once an attribute has set it. */
  datatype VertexBinding = VertexBinding(stride: nat, inputRate: Option<U32>)

  /** Attribute `location` reads `format` at `offset` from buffer binding `binding`. */
  datatype AttributeDescription = AttributeDescription(location: nat, binding: U32, format: U32, offset: U32)

  /** The described bindings (`bindingCount` of them) and one description per attribute. */
  datatype VertexInput = VertexInput(bindings: seq<VertexBinding>, attributes: seq<AttributeDescription>)

  /** The bytes per vertex of binding `b`: the texel sizes of the attributes bound to it. */
  function StrideOf(attrs: seq<TB.VertexAttribute>, b: nat): nat {
    if |attrs| == 0 then 0
    else StrideOf(attrs[..|attrs| - 1], b) + (if attrs[|attrs| - 1].binding as nat == b then Conversion.TexelStride(attrs[|attrs| - 1].format) as nat else 0)
  }

  /** The input rate of binding `b`: that of the last attribute bound to it. */
  function RateOf(attrs: seq<TB.VertexAttribute>, b: nat): Option<U32> {
    if |attrs| == 0 then None
    else if attrs[|attrs| - 1].binding as nat == b then Some(attrs[|attrs| - 1].inputRate)
    else RateOf(attrs[..|attrs| - 1], b)
  }

  /** One more than the largest binding index used, or 0 without attributes. */
  function BindingCountOf(attrs: seq<TB.VertexAttribute>): (n: nat)
    ensures forall i :: 0 <= i < |attrs| ==> attrs[i].binding as nat < n
    ensures n > 0 ==> exists i :: 0 <= i < |attrs| && attrs[i].binding as nat + 1 == n
  {
    if |attrs| == 0 then 0
    else
      var rest := BindingCountOf(attrs[..|attrs| - 1]);
      var last := attrs[|attrs| - 1].binding as nat + 1;
      assert forall i :: 0 <= i < |attrs| - 1 ==> attrs[i] == attrs[..|attrs| - 1][i];
      if last > rest then last else rest
  }

  /** Every attribute's binding is below the attribute count: the bindings fit the array the loader sizes by that count. */
  predicate BindingsInRange(attrs: seq<TB.VertexAttribute>) {
    BindingsBelow(attrs, |attrs|)
  }

  predicate BindingsBelow(attrs: seq<TB.VertexAttribute>, size: nat) {
    forall i :: 0 <= i < |attrs| ==> attrs[i].binding as nat < size
  }

  /** Binding `b` of the first `size` after the attributes `attrs`. */
  function BindingsAfter(attrs: seq<TB.VertexAttribute>, size: nat): (bs: seq<VertexBinding>)
    ensures |bs| == size
  {
    seq(size, b requires 0 <= b < size => VertexBinding(StrideOf(attrs, b), RateOf(attrs, b)))
  }

  /** One more attribute adds its texel size to its binding's stride and sets that binding's rate; other bindings stay. */
  lemma AttributeStep(attrs: seq<TB.VertexAttribute>, i: nat, size: nat)
    requires i < |attrs| && attrs[i].binding as nat < size
    ensures BindingsAfter(attrs[..i + 1], size) ==
            BindingsAfter(attrs[..i], size)[attrs[i].binding as nat :=
              VertexBinding(StrideOf(attrs[..i], attrs[i].binding as nat) + Conversion.TexelStride(attrs[i].format) as nat, Some(attrs[i].inputRate))]
  {
    assert attrs[..i + 1][..i] == attrs[..i];
  }

  function Descriptions(attrs: seq<TB.VertexAttribute>): (ds: seq<AttributeDescription>)
    ensures |ds| == |attrs|
    ensures forall i :: 0 <= i < |attrs| ==> ds[i] == AttributeDescription(i, attrs[i].binding, attrs[i].format, attrs[i].offset)
  {
    seq(|attrs|, i requires 0 <= i < |attrs| => AttributeDescription(i, attrs[i].binding, attrs[i].format, attrs[i].offset))
  }

  /**
   * The vertex input with the binding indices checked: `None` when an
   * attribute names a binding at or past the attribute count; otherwise
   * binding `b` of the `1 + max binding` described ones has the summed
   * stride and the last rate of the attributes bound to it.
   */
  function VertexInputOf(attrs: seq<TB.VertexAttribute>): (r: Option<VertexInput>)
    ensures r.Some? <==> BindingsInRange(attrs)
    ensures r.Some? ==> |r.value.bindings| == BindingCountOf(attrs) <= |attrs|
    ensures r.Some? ==> forall b :: 0 <= b < |r.value.bindings| ==> r.value.bindings[b] == VertexBinding(StrideOf(attrs, b), RateOf(attrs, b))
    ensures r.Some? ==> r.value.attributes == Descriptions(attrs)
  {
    if !BindingsInRange(attrs) then None
    else
      var n := BindingCountOf(attrs);
      assert n <= |attrs| by {
        if n > 0 {
          var i :| 0 <= i < |attrs| && attrs[i].binding as nat + 1 == n;
        }
      }
      Some(VertexInput(BindingsAfter(attrs, n), Descriptions(attrs)))
  }

  /** Writing through `vertex_bindings[binding]` past the array's end. */
  datatype Fault = OutOfBounds

  /**
   * The loop of `GfxCreateTechnique` over the attributes as written:
   * `vertex_bindings` has one element per attribute and is indexed by each
   * attribute's binding without a check, so a binding at or past the
   * attribute count writes out of bounds.
   */
  method BindingLoop(attrs: seq<TB.VertexAttribute>) returns (r: Result<(seq<VertexBinding>, nat), Fault>)
    ensures r.Failure? <==> !BindingsInRange(attrs)
    ensures r.Success? ==> r.value.0 == BindingsAfter(attrs, |attrs|) && r.value.1 == BindingCountOf(attrs)
  {
    var size := |attrs|;
    var bindings := BindingsAfter([], size);
    var count := 0;
    var i := 0;
    assert attrs[..0] == [];
    while i < size
      invariant i <= size
      invariant BindingsBelow(attrs[..i], size)
      invariant count == BindingCountOf(attrs[..i])
      invariant bindings == BindingsAfter(attrs[..i], size)
    {
      var binding := attrs[i].binding as nat;
      if binding >= size {
        assert !BindingsBelow(attrs, size) by { assert attrs[i].binding as nat >= size; }
        return Failure(OutOfBounds);
      }
      AttributeStep(attrs, i, size);
      CountStep(attrs, i, size);
      bindings := bindings[binding := VertexBinding(bindings[binding].stride + Conversion.TexelStride(attrs[i].format) as nat, Some(attrs[i].inputRate))];
      count := if binding + 1 > count then binding + 1 else count;
      i := i + 1;
    }
    assert attrs[..i] == attrs;
    r := Success((bindings, count));
  }

  /** One more attribute in range keeps the bindings below the size and raises the count to cover it. */
  lemma CountStep(attrs: seq<TB.VertexAttribute>, i: nat, size: nat)
    requires i < |attrs| && attrs[i].binding as nat < size && BindingsBelow(attrs[..i], size)
    ensures BindingsBelow(attrs[..i + 1], size)
    ensures var b := attrs[i].binding as nat + 1;
            var c := BindingCountOf(attrs[..i]);
            BindingCountOf(attrs[..i + 1]) == if b > c then b else c
  {
    var next := attrs[..i + 1];
    assert next[..i] == attrs[..i];
    assert next[i] == attrs[i];
    forall k | 0 <= k < |next|
      ensures next[k].binding as nat < size
    {
      if k < i {
        assert next[k] == attrs[..i][k];
      }
    }
  }

  /** The vertex input state as written: the first `vertex_binding_count` bindings and every attribute. */
  method VertexInputAsWritten(attrs: seq<TB.VertexAttribute>) returns (r: Result<VertexInput, Fault>)
    ensures r.Failure? <==> !BindingsInRange(attrs)
    ensures r.Success? ==> VertexInputOf(attrs) == Some(r.value)
  {
    var loop := BindingLoop(attrs);
    if loop.Failure? {
      return Failure(loop.error);
    }
    var (bindings, count) := loop.value;
    var input := VertexInputOf(attrs);
    assert bindings[..count] == BindingsAfter(attrs, count);
    r := Success(VertexInput(bindings[..count], Descriptions(attrs)));
  }

  // ---------------------------------------------------------------------
  // Creating a technique from a file

  /** A graphics technique's pipeline, as far as the model follows it. */
  datatype GraphicsPipeline = GraphicsPipeline(
    pass: RenderPass,
    input: VertexInput,
    stageCount: nat,
    blend: seq<TB.BlendAttachment>)

  /** `GfxTechnique_T`: the bind point, the binding table and, for graphics, the pipeline. */
  datatype TechniqueState = TechniqueState(
    bindPoint: U32,
    bindingCount: U32,
    table: Table,
    graphics: Option<GraphicsPipeline>)
  {
    /** The binding table has one slot per blob binding. */
    predicate Valid() {
      table.Valid() && table.Capacity() == TABLE_CAPACITY
    }
  }

  /**
   * A record `GfxCreateTechnique` can read without running past one of its
   * arrays: at most 16 bindings, 4 color attachments and 8 vertex attributes,
   * and every attribute's binding below the attribute count.
   */
  predicate Loadable(blob: TB.Blob)
    requires blob.Shaped()
  {
    blob.bindingCount as nat <= TB.MAX_SHADER_BINDINGS
    && (blob.graphics.Some? ==>
          var g := blob.graphics.value;
          g.colorCount as nat <= TB.MAX_COLOR_ATTACHMENTS
          && g.attributeCount as nat <= TB.MAX_VERTEX_ATTRIBUTES
          && BindingsInRange(g.attributes[..g.attributeCount]))
  }

  /** The table a technique starts from: a fresh one, or the old technique's table cleared. */
  function BaseTable(previous: Option<TechniqueState>): (t: Table)
    requires previous.Some? ==> previous.value.Valid()
    ensures t.Valid() && t.Capacity() == TABLE_CAPACITY
    ensures HT.EmptySlots(t) == TABLE_CAPACITY
    ensures forall j :: 0 <= j < t.Capacity() ==> t.hashes[j] == HT.EMPTY
  {
    if previous.Some? then
      HT.ClearIsAllEmpty(previous.value.table);
      HT.Clear(previous.value.table)
    else
      HT.CreateIsAllEmpty(TABLE_CAPACITY, UNSET_SLOT);
      HT.Create(TABLE_CAPACITY, UNSET_SLOT)
  }

  /** The graphics part: render pass, vertex input, one or two shader stages, and one blend state per color attachment. */
  function GraphicsPipelineOf(g: TB.Graphics, fragment: TF.Block64, swapchainFormat: U32): (r: Option<GraphicsPipeline>)
    requires g.Shaped() && g.colorCount as nat <= TB.MAX_COLOR_ATTACHMENTS && g.attributeCount as nat <= TB.MAX_VERTEX_ATTRIBUTES
    ensures r.Some? <==> BindingsInRange(g.attributes[..g.attributeCount])
    ensures r.Some? ==> r.value.stageCount == (if |fragment| == 0 then 1 else 2)
    ensures r.Some? ==> r.value.blend == g.blend[..g.colorCount]
    ensures r.Some? ==> r.value.pass == RenderPassOf(g, swapchainFormat)
  {
    var input :- VertexInputOf(g.attributes[..g.attributeCount]);
    Some(GraphicsPipeline(RenderPassOf(g, swapchainFormat), input, if |fragment| == 0 then 1 else 2, g.blend[..g.colorCount]))
  }

  /**
   * `GfxCreateTechnique`: read the file, reuse the old technique (its table
   * cleared) or start a new one, put every binding into the table, and
   * build the graphics pipeline state. `None` for a file that does not read
   * back or a record that is not loadable.
   */
  function CreateTechnique(data: seq<Byte>, previous: Option<TechniqueState>, swapchainFormat: U32): (r: Option<TechniqueState>)
    requires previous.Some? ==> previous.value.Valid()
    ensures r.Some? <==> TF.Deserialise(data).Some? && Loadable(TF.Deserialise(data).value.blob)
    ensures r.Some? ==> r.value.Valid()
    ensures r.Some? ==> r.value.bindPoint == TF.Deserialise(data).value.blob.bindPoint
    ensures r.Some? ==> r.value.bindingCount == TF.Deserialise(data).value.blob.bindingCount
    ensures r.Some? ==> (r.value.graphics.Some? <==> r.value.bindPoint == Vk.PIPELINE_BIND_POINT_GRAPHICS)
  {
    var c :- TF.Deserialise(data);
    var blob := c.blob;
    if !Loadable(blob) then None
    else
      var table := PutBindings(BaseTable(previous), blob.bindings, blob.bindingCount as nat);
      if blob.graphics.None? then Some(TechniqueState(blob.bindPoint, blob.bindingCount, table, None))
      else
        var pipeline := GraphicsPipelineOf(blob.graphics.value, c.code[1], swapchainFormat);
        Some(TechniqueState(blob.bindPoint, blob.bindingCount, table, Some(pipeline.value)))
  }

  /**
   * Every binding of a created technique is found under its name's hash, as
   * its own slot with its own descriptor type, unless a later binding has
   * the same hash or the hash is the empty-slot marker.
   */
  lemma CreatedFindsBindings(data: seq<Byte>, previous: Option<TechniqueState>, swapchainFormat: U32, k: nat)
    requires previous.Some? ==> previous.value.Valid()
    requires CreateTechnique(data, previous, swapchainFormat).Some?
    requires var blob := TF.Deserialise(data).value.blob;
             k < blob.bindingCount as nat && blob.bindings[k].hash != HT.EMPTY && LastWithHash(blob.bindings, blob.bindingCount as nat, k)
    ensures var t := CreateTechnique(data, previous, swapchainFormat).value;
            var b := TF.Deserialise(data).value.blob.bindings[k];
            HT.CanProbe(t.table, b.hash) && HT.Find(t.table, b.hash) == Some(SlotBinding(k as U32, b.descriptorType))
  {
    var blob := TF.Deserialise(data).value.blob;
    PutBindingsFinds(BaseTable(previous), blob.bindings, blob.bindingCount as nat, k);
  }

  /** A hash that none of the bindings has is not found: the lookup of an unknown name fails. */
  lemma CreatedMissesOthers(data: seq<Byte>, previous: Option<TechniqueState>, swapchainFormat: U32, h: U64)
    requires previous.Some? ==> previous.value.Valid()
    requires CreateTechnique(data, previous, swapchainFormat).Some?
    requires var blob := TF.Deserialise(data).value.blob;
             forall k :: 0 <= k < blob.bindingCount as nat ==> blob.bindings[k].hash != h
    requires HT.CanProbe(CreateTechnique(data, previous, swapchainFormat).value.table, h)
    ensures HT.Find(CreateTechnique(data, previous, swapchainFormat).value.table, h).None?
  {
    var blob := TF.Deserialise(data).value.blob;
    PutBindingsMisses(BaseTable(previous), blob.bindings, blob.bindingCount as nat, h);
  }

  /** Every hash in a created technique's table resolves to a slot below its binding count. */
  lemma CreatedSlotsBelow(data: seq<Byte>, previous: Option<TechniqueState>, swapchainFormat: U32)
    requires previous.Some? ==> previous.value.Valid()
    requires CreateTechnique(data, previous, swapchainFormat).Some?
    ensures var t := CreateTechnique(data, previous, swapchainFormat).value;
            SlotsBelow(t.table, t.bindingCount as nat)
  {
    var blob := TF.Deserialise(data).value.blob;
    PutBindingsSlots(BaseTable(previous), blob.bindings, blob.bindingCount as nat);
  }

  /**
   * Sixteen bindings with distinct hashes fill the 16-slot table: no slot
   * is left empty, so the probe for any other hash never stops.
   */
  lemma CreatedFullTable(data: seq<Byte>, previous: Option<TechniqueState>, swapchainFormat: U32, h: U64)
    requires previous.Some? ==> previous.value.Valid()
    requires CreateTechnique(data, previous, swapchainFormat).Some?
    requires var blob := TF.Deserialise(data).value.blob;
             blob.bindingCount as nat == TB.MAX_SHADER_BINDINGS && DistinctHashes(blob.bindings, TB.MAX_SHADER_BINDINGS)
             && (forall k :: 0 <= k < TB.MAX_SHADER_BINDINGS ==> blob.bindings[k].hash != HT.EMPTY && blob.bindings[k].hash != h)
    ensures !HT.CanProbe(CreateTechnique(data, previous, swapchainFormat).value.table, h)
  {
    var blob := TF.Deserialise(data).value.blob;
    var base := BaseTable(previous);
    var t := CreateTechnique(data, previous, swapchainFormat).value.table;
    FullBindingTable(base, blob.bindings, blob.bindingCount as nat, t, h);
  }

  /** The loop over sixteen distinct hashes, none the marker nor `h`, leaves a table whose probe for `h` never stops. */
  lemma FullBindingTable(t0: Table, bs: seq<TB.ShaderBinding>, n: nat, t: Table, h: U64)
    requires n == TB.MAX_SHADER_BINDINGS && n <= |bs| && n <= HT.EmptySlots(t0)
    requires t0.Valid() && forall j :: 0 <= j < t0.Capacity() ==> t0.hashes[j] == HT.EMPTY
    requires DistinctHashes(bs, n)
    requires forall k :: 0 <= k < n ==> bs[k].hash != HT.EMPTY && bs[k].hash != h
    requires t0.Capacity() == TABLE_CAPACITY && t == PutBindings(t0, bs, n)
    ensures !HT.CanProbe(t, h)
  {
    assert HT.EmptySlots(t0) == n by {
      assert HT.EmptySlots(t0) <= |t0.hashes|;
    }
    assert HT.EmptySlots(t) == 0 by {
      PutBindingsFills(t0, bs, n);
      assert HT.EmptySlots(t) + n == n;
    }
    assert forall j :: 0 <= j < t.Capacity() ==> t.hashes[j] != h by {
      PutBindingsHashes(t0, bs, n);
      FilledWithOthers(t0, bs, t, h);
    }
    HT.FullTableNeverStops(t, h);
  }

  /**
   * Reloading into an existing technique gives what creating a new one
   * gives: the same bind point, pipeline state and binding table keys, so
   * every lookup answers alike. Only the leftovers of cleared slots differ.
   */
  lemma ReloadIsFresh(data: seq<Byte>, previous: TechniqueState, swapchainFormat: U32)
    requires previous.Valid()
    ensures CreateTechnique(data, Some(previous), swapchainFormat).Some? <==> CreateTechnique(data, None, swapchainFormat).Some?
    ensures CreateTechnique(data, Some(previous), swapchainFormat).Some? ==>
              var a := CreateTechnique(data, Some(previous), swapchainFormat).value;
              var b := CreateTechnique(data, None, swapchainFormat).value;
              a.bindPoint == b.bindPoint && a.bindingCount == b.bindingCount && a.graphics == b.graphics
              && HT.SameKeys(a.table, b.table)
  {
    if CreateTechnique(data, None, swapchainFormat).Some? {
      var blob := TF.Deserialise(data).value.blob;
      BaseTablesAgree(previous);
      PutBindingsSameKeys(BaseTable(Some(previous)), BaseTable(None), blob.bindings, blob.bindingCount as nat);
      CreatedState(data, Some(previous), swapchainFormat);
      CreatedState(data, None, swapchainFormat);
    }
  }

  /** A created technique keeps the file's bindings in its base table and its pipeline state does not depend on that table. */
  lemma CreatedState(data: seq<Byte>, previous: Option<TechniqueState>, swapchainFormat: U32)
    requires previous.Some? ==> previous.value.Valid()
    requires CreateTechnique(data, previous, swapchainFormat).Some?
    ensures var c := TF.Deserialise(data).value;
            var r := CreateTechnique(data, previous, swapchainFormat).value;
            r.table == PutBindings(BaseTable(previous), c.blob.bindings, c.blob.bindingCount as nat)
            && r.graphics == CreateTechnique(data, None, swapchainFormat).value.graphics
  {
  }

  /** A cleared old table and a fresh one have the same (empty) slots. */
  lemma BaseTablesAgree(previous: TechniqueState)
    requires previous.Valid()
    ensures BaseTable(Some(previous)).hashes == BaseTable(None).hashes
    ensures HT.Occupied(BaseTable(Some(previous))) == HT.Occupied(BaseTable(None))
  {
    var cleared := BaseTable(Some(previous));
    var empty := BaseTable(None);
    assert cleared.hashes == empty.hashes;
  }
}
