/**
 * The technique blob of Source/GfxInternal.h: the plain record that the
 * technique compiler fills from a technique file and that is stored, byte
 * for byte, in the compiled `.blob` file. `GfxTechniqueBlob_T` (bind point
 * and shader bindings) is all a compute technique stores;
 * `GfxGraphicsTechniqueBlob_T` extends it with the fixed-function state of a
 * graphics pipeline, which here is the `graphics` part.
 *
 * Floats (depth bias, line width, depth bounds) are carried as their IEEE
 * bit patterns and never interpreted.
 *
 * The memory image of the record (what `Write(&blob, sizeof(blob))` copies)
 * is modelled as the record's 32-bit words in declaration order,
 * little-endian, without padding; a `bool` is the word 0 or 1 and a 64-bit
 * hash is two words, low half first.
 */
module TechniqueBlob {
  import opened Machine
  import opened Wrappers
  import Vk
  import GfxArray
  import GfxStream

  /** `ARRAY_COUNT(m_ShaderBindings)`, `ARRAY_COUNT(m_ColorAttachmentFormats)`, `ARRAY_COUNT(m_VertexAttributes)`. */
  const MAX_SHADER_BINDINGS: nat := 16
  const MAX_COLOR_ATTACHMENTS: nat := 4
  const MAX_VERTEX_ATTRIBUTES: nat := 8
  /** The blend-attachment array is declared with the color-attachment array's size. */
  const MAX_BLEND_ATTACHMENTS: nat := MAX_COLOR_ATTACHMENTS

  /** The bit patterns of `0.0f` and `1.0f`. */
  const FLOAT_ZERO: U32 := 0
  const FLOAT_ONE: U32 := 0x3F80_0000

  /** One `m_ShaderBindings` entry: the hash of the binding's name and its descriptor type. */
  datatype ShaderBinding = ShaderBinding(hash: U64, descriptorType: U32)

  /** The initial entry: a hash no name of a valid binding has, and no descriptor type. */
  const UNSET_BINDING: ShaderBinding := ShaderBinding(0, Vk.MAX_ENUM)

  /** One `m_VertexAttributes` entry. */
  datatype VertexAttribute = VertexAttribute(binding: U32, format: U32, offset: U32, inputRate: U32)

  /** The initial entry: every field holds a value that marks it as never given. */
  const UNSET_ATTRIBUTE: VertexAttribute := VertexAttribute(U32_MAX, Vk.FORMAT_UNDEFINED, U32_MAX, Vk.MAX_ENUM)

  datatype InputAssembly = InputAssembly(topology: U32, primitiveRestart: bool)

  datatype Rasterizer = Rasterizer(
    depthClamp: bool,
    discard: bool,
    polygonMode: U32,
    cullMode: U32,
    frontFace: U32,
    depthBias: bool,
    depthBiasConstant: U32,
    depthBiasClamp: U32,
    depthBiasSlope: U32,
    lineWidth: U32)

  /** `VkStencilOpState`. */
  datatype StencilFace = StencilFace(
    failOp: U32,
    passOp: U32,
    depthFailOp: U32,
    compareOp: U32,
    compareMask: U32,
    writeMask: U32,
    reference: U32)

  datatype DepthStencil = DepthStencil(
    depthTest: bool,
    depthWrite: bool,
    depthCompareOp: U32,
    depthBoundsTest: bool,
    stencilTest: bool,
    front: StencilFace,
    back: StencilFace,
    minDepthBounds: U32,
    maxDepthBounds: U32)

  datatype BlendAttachment = BlendAttachment(
    enable: bool,
    srcColor: U32,
    dstColor: U32,
    colorOp: U32,
    srcAlpha: U32,
    dstAlpha: U32,
    alphaOp: U32,
    writeMask: Vk.Flags)

  /** The members `GfxGraphicsTechniqueBlob_T` adds. */
  datatype Graphics = Graphics(
    colorCount: U32,
    colorFormats: seq<U32>,
    depthFormat: U32,
    attributeCount: U32,
    attributes: seq<VertexAttribute>,
    inputAssembly: InputAssembly,
    rasterizer: Rasterizer,
    depthStencil: DepthStencil,
    blend: seq<BlendAttachment>)
  {
    /** The fixed array lengths of the declaration. */
    predicate Shaped() {
      |colorFormats| == MAX_COLOR_ATTACHMENTS
      && |attributes| == MAX_VERTEX_ATTRIBUTES
      && |blend| == MAX_BLEND_ATTACHMENTS
    }
  }

  datatype Blob = Blob(bindPoint: U32, bindingCount: U32, bindings: seq<ShaderBinding>, graphics: Option<Graphics>)
  {
    /** The fixed array lengths, and the graphics part present exactly for the graphics bind point. */
    predicate Shaped() {
      |bindings| == MAX_SHADER_BINDINGS
      && (graphics.Some? <==> bindPoint == Vk.PIPELINE_BIND_POINT_GRAPHICS)
      && (graphics.Some? ==> graphics.value.Shaped())
    }
  }

  const DEFAULT_INPUT_ASSEMBLY: InputAssembly := InputAssembly(Vk.PRIMITIVE_TOPOLOGY_TRIANGLE_LIST, false)

  const DEFAULT_RASTERIZER: Rasterizer :=
    Rasterizer(false, false, Vk.POLYGON_MODE_FILL, Vk.CULL_MODE_NONE, Vk.FRONT_FACE_COUNTER_CLOCKWISE,
               false, FLOAT_ZERO, FLOAT_ZERO, FLOAT_ZERO, FLOAT_ONE)

  const DEFAULT_STENCIL_FACE: StencilFace :=
    StencilFace(Vk.STENCIL_OP_KEEP, Vk.STENCIL_OP_KEEP, Vk.STENCIL_OP_KEEP, Vk.COMPARE_OP_ALWAYS, 0, 0, 0)

  const DEFAULT_DEPTH_STENCIL: DepthStencil :=
    DepthStencil(false, false, Vk.COMPARE_OP_LESS_OR_EQUAL, false, false,
                 DEFAULT_STENCIL_FACE, DEFAULT_STENCIL_FACE, FLOAT_ZERO, FLOAT_ZERO)

  const ALL_COMPONENTS: Vk.Flags := 0xF

  const DEFAULT_BLEND: BlendAttachment :=
    BlendAttachment(false, Vk.BLEND_FACTOR_ZERO, Vk.BLEND_FACTOR_ZERO, Vk.BLEND_OP_ADD,
                    Vk.BLEND_FACTOR_ZERO, Vk.BLEND_FACTOR_ZERO, Vk.BLEND_OP_ADD, ALL_COMPONENTS)

  /** A freshly declared `GfxTechniqueBlob_T`, before the compiler sets the bind point. */
  const DEFAULT_BLOB: Blob := Blob(Vk.MAX_ENUM, 0, GfxArray.Fill(MAX_SHADER_BINDINGS, UNSET_BINDING), None)

  /**
   * The members a freshly declared `GfxGraphicsTechniqueBlob_T` adds. The
   * color formats have no initializer in the declaration; they are taken as
   * UNDEFINED here, and only the first `colorCount` of them are ever read.
   */
  const DEFAULT_GRAPHICS: Graphics :=
    Graphics(0, GfxArray.Fill(MAX_COLOR_ATTACHMENTS, Vk.FORMAT_UNDEFINED), Vk.FORMAT_UNDEFINED, 0,
             GfxArray.Fill(MAX_VERTEX_ATTRIBUTES, UNSET_ATTRIBUTE), DEFAULT_INPUT_ASSEMBLY,
             DEFAULT_RASTERIZER, DEFAULT_DEPTH_STENCIL, GfxArray.Fill(MAX_BLEND_ATTACHMENTS, DEFAULT_BLEND))

  /** The blob the compiler starts from for a graphics technique and for a compute technique. */
  function EmptyBlob(graphics: bool): (b: Blob)
    ensures b.Shaped()
    ensures b.bindingCount == 0
    ensures forall i :: 0 <= i < |b.bindings| ==> b.bindings[i] == UNSET_BINDING
    ensures graphics ==> b.bindPoint == Vk.PIPELINE_BIND_POINT_GRAPHICS && b.graphics == Some(DEFAULT_GRAPHICS)
    ensures !graphics ==> b.bindPoint == Vk.PIPELINE_BIND_POINT_COMPUTE && b.graphics == None
  {
    if graphics then DEFAULT_BLOB.(bindPoint := Vk.PIPELINE_BIND_POINT_GRAPHICS, graphics := Some(DEFAULT_GRAPHICS))
    else DEFAULT_BLOB.(bindPoint := Vk.PIPELINE_BIND_POINT_COMPUTE)
  }

  /**
   * The declared defaults: no bind point, unset bindings and attributes, no
   * depth attachment, triangle lists filled and not culled with
   * counter-clockwise front faces, depth test and write off with compare
   * LESS_OR_EQUAL, stencil faces KEEP/KEEP/KEEP/ALWAYS with zero masks, and
   * blending off with zero factors, ADD operations and all four components
   * written.
   */
  lemma DefaultsAreSentinels()
    ensures DEFAULT_BLOB.bindPoint == Vk.MAX_ENUM && DEFAULT_BLOB.bindingCount == 0
    ensures |DEFAULT_BLOB.bindings| == 16
    ensures forall i :: 0 <= i < 16 ==> DEFAULT_BLOB.bindings[i].hash == 0 && DEFAULT_BLOB.bindings[i].descriptorType == Vk.MAX_ENUM
    ensures DEFAULT_GRAPHICS.Shaped()
    ensures |DEFAULT_GRAPHICS.attributes| == 8 && |DEFAULT_GRAPHICS.colorFormats| == 4 && |DEFAULT_GRAPHICS.blend| == 4
    ensures DEFAULT_GRAPHICS.colorCount == 0 && DEFAULT_GRAPHICS.attributeCount == 0
    ensures DEFAULT_GRAPHICS.depthFormat == Vk.FORMAT_UNDEFINED
    ensures forall i :: 0 <= i < 8 ==> DEFAULT_GRAPHICS.attributes[i] == VertexAttribute(U32_MAX, Vk.FORMAT_UNDEFINED, U32_MAX, Vk.MAX_ENUM)
    ensures DEFAULT_GRAPHICS.inputAssembly == InputAssembly(Vk.PRIMITIVE_TOPOLOGY_TRIANGLE_LIST, false)
    ensures var r := DEFAULT_GRAPHICS.rasterizer;
      !r.depthClamp && !r.discard && !r.depthBias && r.polygonMode == Vk.POLYGON_MODE_FILL
      && r.cullMode == Vk.CULL_MODE_NONE && r.frontFace == Vk.FRONT_FACE_COUNTER_CLOCKWISE
    ensures var d := DEFAULT_GRAPHICS.depthStencil;
      !d.depthTest && !d.depthWrite && !d.depthBoundsTest && !d.stencilTest
      && d.depthCompareOp == Vk.COMPARE_OP_LESS_OR_EQUAL
      && d.front == d.back
      && d.front == StencilFace(Vk.STENCIL_OP_KEEP, Vk.STENCIL_OP_KEEP, Vk.STENCIL_OP_KEEP, Vk.COMPARE_OP_ALWAYS, 0, 0, 0)
    ensures forall i :: 0 <= i < 4 ==>
      var a := DEFAULT_GRAPHICS.blend[i];
      !a.enable && a.srcColor == a.dstColor == a.srcAlpha == a.dstAlpha == Vk.BLEND_FACTOR_ZERO
      && a.colorOp == a.alphaOp == Vk.BLEND_OP_ADD
      && a.writeMask == Vk.COLOR_COMPONENT_R | Vk.COLOR_COMPONENT_G | Vk.COLOR_COMPONENT_B | Vk.COLOR_COMPONENT_A
  {
  }

  // ---------------------------------------------------------------------
  // The memory image: the record as 32-bit words.

  function Lo(x: U64): U32 {
    x % TWO_32
  }

  function Hi(x: U64): U32 {
    x / TWO_32
  }

  function Join(lo: U32, hi: U32): U64 {
    lo + hi * TWO_32
  }

  lemma JoinSplit(x: U64)
    ensures Join(Lo(x), Hi(x)) == x
  {
  }

  function BoolWord(b: bool): U32 {
    if b then 1 else 0
  }

  function BindingWords(b: ShaderBinding): (ws: seq<U32>)
    ensures |ws| == 3
  {
    [Lo(b.hash), Hi(b.hash), b.descriptorType]
  }

  function BindingsWords(bs: seq<ShaderBinding>): (ws: seq<U32>)
    ensures |ws| == 3 * |bs|
  {
    if |bs| == 0 then [] else BindingWords(bs[0]) + BindingsWords(bs[1..])
  }

  function AttributeWords(a: VertexAttribute): (ws: seq<U32>)
    ensures |ws| == 4
  {
    [a.binding, a.format, a.offset, a.inputRate]
  }

  function AttributesWords(as_: seq<VertexAttribute>): (ws: seq<U32>)
    ensures |ws| == 4 * |as_|
  {
    if |as_| == 0 then [] else AttributeWords(as_[0]) + AttributesWords(as_[1..])
  }

  function InputAssemblyWords(ia: InputAssembly): (ws: seq<U32>)
    ensures |ws| == 2
  {
    [ia.topology, BoolWord(ia.primitiveRestart)]
  }

  function RasterizerWords(r: Rasterizer): (ws: seq<U32>)
    ensures |ws| == 10
  {
    [BoolWord(r.depthClamp), BoolWord(r.discard), r.polygonMode, r.cullMode, r.frontFace,
     BoolWord(r.depthBias), r.depthBiasConstant, r.depthBiasClamp, r.depthBiasSlope, r.lineWidth]
  }

  function StencilWords(s: StencilFace): (ws: seq<U32>)
    ensures |ws| == 7
  {
    [s.failOp, s.passOp, s.depthFailOp, s.compareOp, s.compareMask, s.writeMask, s.reference]
  }

  function DepthStencilWords(d: DepthStencil): (ws: seq<U32>)
    ensures |ws| == 21
  {
    [BoolWord(d.depthTest), BoolWord(d.depthWrite), d.depthCompareOp, BoolWord(d.depthBoundsTest), BoolWord(d.stencilTest)]
    + (StencilWords(d.front) + (StencilWords(d.back) + [d.minDepthBounds, d.maxDepthBounds]))
  }

  function BlendWords(a: BlendAttachment): (ws: seq<U32>)
    ensures |ws| == 8
  {
    [BoolWord(a.enable), a.srcColor, a.dstColor, a.colorOp, a.srcAlpha, a.dstAlpha, a.alphaOp, a.writeMask as int]
  }

  function BlendsWords(bs: seq<BlendAttachment>): (ws: seq<U32>)
    ensures |ws| == 8 * |bs|
  {
    if |bs| == 0 then [] else BlendWords(bs[0]) + BlendsWords(bs[1..])
  }

  /** The words of the base record: bind point, binding count and the sixteen bindings. */
  const BASE_WORDS: nat := 2 + 3 * MAX_SHADER_BINDINGS

  /** The words the graphics record adds. */
  const GRAPHICS_WORDS: nat := 1 + MAX_COLOR_ATTACHMENTS + 2 + 4 * MAX_VERTEX_ATTRIBUTES + 2 + 10 + 21 + 8 * MAX_BLEND_ATTACHMENTS

  /** The fixed-function tail of the graphics record: input assembly, rasterizer, depth-stencil and blend state. */
  function StateWords(g: Graphics): (ws: seq<U32>)
    ensures |ws| == 2 + 10 + 21 + 8 * |g.blend|
  {
    InputAssemblyWords(g.inputAssembly) + (RasterizerWords(g.rasterizer) + (DepthStencilWords(g.depthStencil) + BlendsWords(g.blend)))
  }

  function GraphicsWords(g: Graphics): (ws: seq<U32>)
    requires g.Shaped()
    ensures |ws| == GRAPHICS_WORDS
  {
    [g.colorCount] + (g.colorFormats + ([g.depthFormat, g.attributeCount] + (AttributesWords(g.attributes) + StateWords(g))))
  }

  function Words(b: Blob): (ws: seq<U32>)
    requires b.Shaped()
    ensures |ws| == BASE_WORDS + (if b.graphics.Some? then GRAPHICS_WORDS else 0)
  {
    [b.bindPoint, b.bindingCount] + (BindingsWords(b.bindings) + (if b.graphics.Some? then GraphicsWords(b.graphics.value) else []))
  }

  // Reading the words back.

  function TakeBinding(ws: seq<U32>): ShaderBinding
    requires |ws| >= 3
  {
    ShaderBinding(Join(ws[0], ws[1]), ws[2])
  }

  function TakeBindings(ws: seq<U32>, n: nat): (bs: seq<ShaderBinding>)
    requires |ws| >= 3 * n
    ensures |bs| == n
  {
    if n == 0 then [] else [TakeBinding(ws)] + TakeBindings(ws[3..], n - 1)
  }

  function TakeAttribute(ws: seq<U32>): VertexAttribute
    requires |ws| >= 4
  {
    VertexAttribute(ws[0], ws[1], ws[2], ws[3])
  }

  function TakeAttributes(ws: seq<U32>, n: nat): (as_: seq<VertexAttribute>)
    requires |ws| >= 4 * n
    ensures |as_| == n
  {
    if n == 0 then [] else [TakeAttribute(ws)] + TakeAttributes(ws[4..], n - 1)
  }

  function TakeInputAssembly(ws: seq<U32>): InputAssembly
    requires |ws| >= 2
  {
    InputAssembly(ws[0], ws[1] != 0)
  }

  function TakeRasterizer(ws: seq<U32>): Rasterizer
    requires |ws| >= 10
  {
    Rasterizer(ws[0] != 0, ws[1] != 0, ws[2], ws[3], ws[4], ws[5] != 0, ws[6], ws[7], ws[8], ws[9])
  }

  function TakeStencil(ws: seq<U32>): StencilFace
    requires |ws| >= 7
  {
    StencilFace(ws[0], ws[1], ws[2], ws[3], ws[4], ws[5], ws[6])
  }

  function TakeDepthStencil(ws: seq<U32>): DepthStencil
    requires |ws| >= 21
  {
    DepthStencil(ws[0] != 0, ws[1] != 0, ws[2], ws[3] != 0, ws[4] != 0,
                 TakeStencil(ws[5..]), TakeStencil(ws[12..]), ws[19], ws[20])
  }

  function TakeBlend(ws: seq<U32>): BlendAttachment
    requires |ws| >= 8
  {
    BlendAttachment(ws[0] != 0, ws[1], ws[2], ws[3], ws[4], ws[5], ws[6], ws[7] as Vk.Flags)
  }

  function TakeBlends(ws: seq<U32>, n: nat): (bs: seq<BlendAttachment>)
    requires |ws| >= 8 * n
    ensures |bs| == n
  {
    if n == 0 then [] else [TakeBlend(ws)] + TakeBlends(ws[8..], n - 1)
  }

  function TakeGraphics(ws: seq<U32>): Graphics
    requires |ws| >= GRAPHICS_WORDS
  {
    var state := ws[7 + 4 * MAX_VERTEX_ATTRIBUTES..];
    Graphics(ws[0], ws[1..5], ws[5], ws[6], TakeAttributes(ws[7..], MAX_VERTEX_ATTRIBUTES),
             TakeInputAssembly(state), TakeRasterizer(state[2..]), TakeDepthStencil(state[12..]),
             TakeBlends(state[33..], MAX_BLEND_ATTACHMENTS))
  }

  /**
   * The record a technique reinterprets its blob words as: the base record,
   * and the graphics part when the bind point is GRAPHICS. Words beyond the
   * record are ignored; too few words is `None` (reading past the block).
   */
  function FromWords(ws: seq<U32>): (r: Option<Blob>)
    ensures r.Some? ==> r.value.Shaped()
  {
    if |ws| < BASE_WORDS then None
    else
      var base := Blob(ws[0], ws[1], TakeBindings(ws[2..], MAX_SHADER_BINDINGS), None);
      if ws[0] != Vk.PIPELINE_BIND_POINT_GRAPHICS then Some(base)
      else if |ws| < BASE_WORDS + GRAPHICS_WORDS then None
      else Some(base.(graphics := Some(TakeGraphics(ws[BASE_WORDS..]))))
  }

  // Round trips of the words, record by record.

  lemma TakeBindingWords(b: ShaderBinding, rest: seq<U32>)
    ensures TakeBinding(BindingWords(b) + rest) == b
  {
    JoinSplit(b.hash);
  }

  lemma {:induction false} TakeBindingsWords(bs: seq<ShaderBinding>, rest: seq<U32>)
    ensures TakeBindings(BindingsWords(bs) + rest, |bs|) == bs
    decreases |bs|
  {
    if |bs| > 0 {
      var ws := BindingsWords(bs) + rest;
      assert ws == BindingWords(bs[0]) + (BindingsWords(bs[1..]) + rest);
      TakeBindingWords(bs[0], BindingsWords(bs[1..]) + rest);
      TakeBindingsWords(bs[1..], rest);
      assert ws[3..] == BindingsWords(bs[1..]) + rest;
    }
  }

  lemma {:induction false} TakeAttributesWords(as_: seq<VertexAttribute>, rest: seq<U32>)
    ensures TakeAttributes(AttributesWords(as_) + rest, |as_|) == as_
    decreases |as_|
  {
    if |as_| > 0 {
      var ws := AttributesWords(as_) + rest;
      assert ws == AttributeWords(as_[0]) + (AttributesWords(as_[1..]) + rest);
      TakeAttributesWords(as_[1..], rest);
      assert ws[4..] == AttributesWords(as_[1..]) + rest;
    }
  }

  lemma {:induction false} TakeBlendsWords(bs: seq<BlendAttachment>, rest: seq<U32>)
    ensures TakeBlends(BlendsWords(bs) + rest, |bs|) == bs
    decreases |bs|
  {
    if |bs| > 0 {
      var ws := BlendsWords(bs) + rest;
      assert ws == BlendWords(bs[0]) + (BlendsWords(bs[1..]) + rest);
      TakeBlendsWords(bs[1..], rest);
      assert ws[8..] == BlendsWords(bs[1..]) + rest;
    }
  }

  lemma TakeDepthStencilWords(d: DepthStencil, rest: seq<U32>)
    ensures TakeDepthStencil(DepthStencilWords(d) + rest) == d
  {
    var ws := DepthStencilWords(d) + rest;
    assert ws[5..] == StencilWords(d.front) + (StencilWords(d.back) + [d.minDepthBounds, d.maxDepthBounds] + rest);
    assert ws[12..] == StencilWords(d.back) + ([d.minDepthBounds, d.maxDepthBounds] + rest);
  }

  lemma TakeStateWords(g: Graphics, rest: seq<U32>)
    requires |g.blend| == MAX_BLEND_ATTACHMENTS
    ensures var ws := StateWords(g) + rest;
      TakeInputAssembly(ws) == g.inputAssembly
      && TakeRasterizer(ws[2..]) == g.rasterizer
      && TakeDepthStencil(ws[12..]) == g.depthStencil
      && TakeBlends(ws[33..], MAX_BLEND_ATTACHMENTS) == g.blend
  {
    var ws := StateWords(g) + rest;
    var ds, bl := DepthStencilWords(g.depthStencil), BlendsWords(g.blend);
    assert ws[2..] == RasterizerWords(g.rasterizer) + (ds + bl + rest);
    assert ws[12..] == ds + (bl + rest);
    assert ws[33..] == bl + rest;
    TakeDepthStencilWords(g.depthStencil, bl + rest);
    TakeBlendsWords(g.blend, rest);
  }

  lemma TakeGraphicsWords(g: Graphics, rest: seq<U32>)
    requires g.Shaped()
    ensures TakeGraphics(GraphicsWords(g) + rest) == g
  {
    var ws := GraphicsWords(g) + rest;
    var at, st := AttributesWords(g.attributes), StateWords(g);
    assert ws[1..5] == g.colorFormats;
    assert ws[0] == g.colorCount && ws[5] == g.depthFormat && ws[6] == g.attributeCount;
    assert ws[7..] == at + (st + rest);
    var state := ws[7 + 4 * MAX_VERTEX_ATTRIBUTES..];
    assert state == st + rest;
    TakeAttributesWords(g.attributes, st + rest);
    TakeStateWords(g, rest);
    assert TakeGraphics(ws) == Graphics(g.colorCount, g.colorFormats, g.depthFormat, g.attributeCount, g.attributes,
                                        g.inputAssembly, g.rasterizer, g.depthStencil, g.blend);
  }

  /** Reinterpreting the words of a record gives the record back. */
  lemma FromWordsRoundTrip(b: Blob)
    requires b.Shaped()
    ensures FromWords(Words(b)) == Some(b)
  {
    var ws := Words(b);
    var tail := if b.graphics.Some? then GraphicsWords(b.graphics.value) else [];
    assert ws[2..] == BindingsWords(b.bindings) + tail;
    TakeBindingsWords(b.bindings, tail);
    if b.graphics.Some? {
      assert ws[BASE_WORDS..] == GraphicsWords(b.graphics.value) + [];
      TakeGraphicsWords(b.graphics.value, []);
    }
  }

  // The bytes of the words.

  function WordsImage(ws: seq<U32>): (bs: seq<Byte>)
    ensures |bs| == 4 * |ws|
  {
    if |ws| == 0 then [] else GfxStream.EncodeLE(ws[0], 4) + WordsImage(ws[1..])
  }

  function ImageWords(bs: seq<Byte>): (ws: seq<U32>)
    ensures |ws| == |bs| / 4
    decreases |bs|
  {
    if |bs| < 4 then []
    else
      assert GfxStream.Pow256(4) == TWO_32;
      [GfxStream.DecodeLE(bs[..4])] + ImageWords(bs[4..])
  }

  lemma {:induction false} ImageWordsRoundTrip(ws: seq<U32>)
    ensures ImageWords(WordsImage(ws)) == ws
    decreases |ws|
  {
    if |ws| > 0 {
      assert GfxStream.Pow256(4) == TWO_32;
      var bs := WordsImage(ws);
      var head := GfxStream.EncodeLE(ws[0], 4);
      assert bs[..4] == head && bs[4..] == WordsImage(ws[1..]);
      GfxStream.DecodeEncode(ws[0], 4);
      ImageWordsRoundTrip(ws[1..]);
    }
  }

  /** The bytes `Write(&blob, sizeof(blob))` copies into the stream. */
  function Image(b: Blob): (bs: seq<Byte>)
    requires b.Shaped()
  {
    WordsImage(Words(b))
  }

  /** The record a technique reads from the bytes of a blob block (`reinterpret_cast`). */
  function FromImage(bs: seq<Byte>): (r: Option<Blob>)
    ensures r.Some? ==> r.value.Shaped()
  {
    FromWords(ImageWords(bs))
  }

  /** The image of a graphics record is 616 bytes and that of a compute record 200, and reading either back gives the record. */
  lemma ImageRoundTrip(b: Blob)
    requires b.Shaped()
    ensures |Image(b)| == if b.bindPoint == Vk.PIPELINE_BIND_POINT_GRAPHICS then 616 else 200
    ensures FromImage(Image(b)) == Some(b)
  {
    ImageWordsRoundTrip(Words(b));
    FromWordsRoundTrip(b);
  }
}
