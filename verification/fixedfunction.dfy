/**
 * The pipeline-state sections of a graphics technique file
 * (Source/GfxTechnique.cpp, inside `CreateTechniqueBlob`): "color_attachments",
 * "depth_attachment", "input_assembly", "rasterizer_state",
 * "depth_stencil_state" and "blend_attachments". Each section is an object
 * (or an array of objects) whose members are read in order: a known key
 * must hold a value of the right JSON type and, for enumerations, a name the
 * conversion tables know; its value then replaces the field's current one.
 * Unknown keys are skipped. Any violated check (`VERIFY`) makes the whole
 * compilation fail, which is `None` here.
 */
module FixedFunction {
  import opened Machine
  import opened Wrappers
  import Vk
  import Json
  import Conversion
  import TB = TechniqueBlob

  /** `true`/`false`; any other value fails the check. */
  function BoolOf(v: Json.Value): (r: Option<bool>)
    ensures r.Some? <==> Json.IsBool(v)
    ensures r.Some? ==> r.value == v.JTrue?
  {
    if v.JTrue? then Some(true) else if v.JFalse? then Some(false) else None
  }

  /** `static_cast<uint32_t>(atoi(number))`: the `int` reading, wrapped to 32 bits. */
  function WordOf(v: Json.Value): (r: Option<U32>)
    ensures r.Some? <==> v.JNumber?
    ensures r.Some? ==> r.value == FromInt32(v.atoi)
  {
    if v.JNumber? then Some(FromInt32(v.atoi)) else None
  }

  /** `static_cast<float>(atof(number))`, as the float's bits. */
  function FloatOf(v: Json.Value): (r: Option<U32>)
    ensures r.Some? <==> v.JNumber?
  {
    if v.JNumber? then Some(v.atof) else None
  }

  /** A string converted by `parse`, which must not answer its enumeration's `MAX_ENUM`. */
  function EnumOf(v: Json.Value, parse: string -> U32): (r: Option<U32>)
    ensures r.Some? <==> v.JString? && parse(v.text) != Vk.MAX_ENUM
    ensures r.Some? ==> r.value == parse(v.text)
  {
    if v.JString? && parse(v.text) != Vk.MAX_ENUM then Some(parse(v.text)) else None
  }

  /** The members of an object, each applied by `step` in order; the first failure stops everything. */
  function Fold<S>(s: S, ms: seq<Json.Member>, step: (S, Json.Member) -> Option<S>): Option<S>
    decreases |ms|
  {
    if |ms| == 0 then Some(s)
    else
      match step(s, ms[0])
      case None => None
      case Some(s1) => Fold(s1, ms[1..], step)
  }

  /** A property every successful step keeps is kept by the whole fold. */
  lemma {:induction false} FoldKeeps<S>(s: S, ms: seq<Json.Member>, step: (S, Json.Member) -> Option<S>, inv: S -> bool)
    requires inv(s)
    requires forall x: S, m: Json.Member :: inv(x) && step(x, m).Some? ==> inv(step(x, m).value)
    ensures Fold(s, ms, step).Some? ==> inv(Fold(s, ms, step).value)
    decreases |ms|
  {
    if |ms| > 0 && step(s, ms[0]).Some? {
      FoldKeeps(step(s, ms[0]).value, ms[1..], step, inv);
    }
  }

  /** An object has a member of this name. */
  predicate HasKey(ms: seq<Json.Member>, key: string) {
    exists i :: 0 <= i < |ms| && ms[i].name == key
  }

  /**
   * A field that a step only ever fills in at one key is filled in after a
   * fold only if the object has that key: a required field cannot come from
   * anywhere but its own member.
   */
  lemma {:induction false} FilledOnlyAtKey<S>(s: S, ms: seq<Json.Member>, step: (S, Json.Member) -> Option<S>, filled: S -> bool, key: string)
    requires forall x: S, m: Json.Member :: step(x, m).Some? && !filled(x) && filled(step(x, m).value) ==> m.name == key
    ensures Fold(s, ms, step).Some? && !filled(s) && filled(Fold(s, ms, step).value) ==> HasKey(ms, key)
    decreases |ms|
  {
    if |ms| > 0 && step(s, ms[0]).Some? && !filled(s) {
      var s1 := step(s, ms[0]).value;
      if filled(s1) {
        assert ms[0].name == key;
      } else {
        FilledOnlyAtKey(s1, ms[1..], step, filled, key);
        if Fold(s1, ms[1..], step).Some? && filled(Fold(s1, ms[1..], step).value) {
          var i :| 0 <= i < |ms[1..]| && ms[1..][i].name == key;
          assert ms[i + 1].name == key;
        }
      }
    }
  }

  // ---------------------------------------------------------------------
  // "input_assembly"

  function InputAssemblyMember(ia: TB.InputAssembly, m: Json.Member): (r: Option<TB.InputAssembly>)
    ensures r.Some? && ia.topology != Vk.MAX_ENUM ==> r.value.topology != Vk.MAX_ENUM
  {
    if m.name == "topology" then
      var t :- EnumOf(m.value, Conversion.PrimitiveTopology);
      Some(ia.(topology := t))
    else if m.name == "primitive_restart_enable" then
      var b :- BoolOf(m.value);
      Some(ia.(primitiveRestart := b))
    else Some(ia)
  }

  function InputAssemblyOf(ia: TB.InputAssembly, v: Json.Value): Option<TB.InputAssembly> {
    if v.JObject? then Fold(ia, v.members, InputAssemblyMember) else None
  }

  // "rasterizer_state"

  function RasterizerMember(r: TB.Rasterizer, m: Json.Member): (r': Option<TB.Rasterizer>)
    ensures r'.Some? && KnownRasterizer(r) ==> KnownRasterizer(r'.value)
  {
    if m.name == "depth_clamp_enable" then
      var b :- BoolOf(m.value); Some(r.(depthClamp := b))
    else if m.name == "rasterizer_discard_enable" then
      var b :- BoolOf(m.value); Some(r.(discard := b))
    else if m.name == "polygon_mode" then
      var x :- EnumOf(m.value, Conversion.PolygonMode); Some(r.(polygonMode := x))
    else if m.name == "cull_mode" then
      var x :- EnumOf(m.value, Conversion.CullMode); Some(r.(cullMode := x))
    else if m.name == "front_face" then
      var x :- EnumOf(m.value, Conversion.FrontFace); Some(r.(frontFace := x))
    else if m.name == "depth_bias_enable" then
      var b :- BoolOf(m.value); Some(r.(depthBias := b))
    else if m.name == "depth_bias_constant_factor" then
      var f :- FloatOf(m.value); Some(r.(depthBiasConstant := f))
    else if m.name == "depth_bias_clamp" then
      var f :- FloatOf(m.value); Some(r.(depthBiasClamp := f))
    else if m.name == "depth_bias_slope_factor" then
      var f :- FloatOf(m.value); Some(r.(depthBiasSlope := f))
    else if m.name == "line_width" then
      var f :- FloatOf(m.value); Some(r.(lineWidth := f))
    else Some(r)
  }

  function RasterizerOf(r: TB.Rasterizer, v: Json.Value): Option<TB.Rasterizer> {
    if v.JObject? then Fold(r, v.members, RasterizerMember) else None
  }

  // "depth_stencil_state", with its "front" and "back" faces

  function StencilMember(s: TB.StencilFace, m: Json.Member): (r: Option<TB.StencilFace>)
    ensures r.Some? && KnownStencil(s) ==> KnownStencil(r.value)
  {
    if m.name == "fail_op" then
      var x :- EnumOf(m.value, Conversion.StencilOp); Some(s.(failOp := x))
    else if m.name == "pass_op" then
      var x :- EnumOf(m.value, Conversion.StencilOp); Some(s.(passOp := x))
    else if m.name == "depth_fail_op" then
      var x :- EnumOf(m.value, Conversion.StencilOp); Some(s.(depthFailOp := x))
    else if m.name == "compare_op" then
      var x :- EnumOf(m.value, Conversion.CompareOp); Some(s.(compareOp := x))
    else if m.name == "compare_mask" then
      var x :- WordOf(m.value); Some(s.(compareMask := x))
    else if m.name == "write_mask" then
      var x :- WordOf(m.value); Some(s.(writeMask := x))
    else if m.name == "reference" then
      var x :- WordOf(m.value); Some(s.(reference := x))
    else Some(s)
  }

  function StencilOf(s: TB.StencilFace, v: Json.Value): Option<TB.StencilFace> {
    if v.JObject? then Fold(s, v.members, StencilMember) else None
  }

  function DepthStencilMember(d: TB.DepthStencil, m: Json.Member): (r: Option<TB.DepthStencil>)
    ensures r.Some? && KnownDepthStencil(d) ==> KnownDepthStencil(r.value)
  {
    if m.name == "depth_test_enable" then
      var b :- BoolOf(m.value); Some(d.(depthTest := b))
    else if m.name == "depth_write_enable" then
      var b :- BoolOf(m.value); Some(d.(depthWrite := b))
    else if m.name == "depth_compare_op" then
      var x :- EnumOf(m.value, Conversion.CompareOp); Some(d.(depthCompareOp := x))
    else if m.name == "depth_bounds_test_enable" then
      var b :- BoolOf(m.value); Some(d.(depthBoundsTest := b))
    else if m.name == "stencil_test_enable" then
      var b :- BoolOf(m.value); Some(d.(stencilTest := b))
    else if m.name == "front" then
      var s :- StencilOf(d.front, m.value); StencilStaysKnown(d.front, m.value); Some(d.(front := s))
    else if m.name == "back" then
      var s :- StencilOf(d.back, m.value); StencilStaysKnown(d.back, m.value); Some(d.(back := s))
    else if m.name == "min_depth_bounds" then
      var f :- FloatOf(m.value); Some(d.(minDepthBounds := f))
    else if m.name == "max_depth_bounds" then
      var f :- FloatOf(m.value); Some(d.(maxDepthBounds := f))
    else Some(d)
  }

  function DepthStencilOf(d: TB.DepthStencil, v: Json.Value): Option<TB.DepthStencil> {
    if v.JObject? then Fold(d, v.members, DepthStencilMember) else None
  }

  // "blend_attachments"

  function BlendMember(a: TB.BlendAttachment, m: Json.Member): (r: Option<TB.BlendAttachment>)
    ensures r.Some? && KnownBlend(a) ==> KnownBlend(r.value)
  {
    if m.name == "blend_enable" then
      var b :- BoolOf(m.value); Some(a.(enable := b))
    else if m.name == "src_color_blend_factor" then
      var x :- EnumOf(m.value, Conversion.BlendFactor); Some(a.(srcColor := x))
    else if m.name == "dst_color_blend_factor" then
      var x :- EnumOf(m.value, Conversion.BlendFactor); Some(a.(dstColor := x))
    else if m.name == "color_blend_op" then
      var x :- EnumOf(m.value, Conversion.BlendOp); Some(a.(colorOp := x))
    else if m.name == "src_alpha_blend_factor" then
      var x :- EnumOf(m.value, Conversion.BlendFactor); Some(a.(srcAlpha := x))
    else if m.name == "dst_alpha_blend_factor" then
      var x :- EnumOf(m.value, Conversion.BlendFactor); Some(a.(dstAlpha := x))
    else if m.name == "alpha_blend_op" then
      var x :- EnumOf(m.value, Conversion.BlendOp); Some(a.(alphaOp := x))
    else if m.name == "color_write_mask" then
      if m.value.JString? then Some(a.(writeMask := Conversion.ComponentsNamed(m.value.text))) else None
    else Some(a)
  }

  // "color_attachments" and "depth_attachment"

  /** The name a color attachment uses for the swapchain's format. */
  const BACK_BUFFER: string := "back_buffer"

  /** One color attachment: the back buffer's placeholder `VK_FORMAT_RANGE_SIZE`, or a parsed format other than UNDEFINED. */
  function ColorFormatOf(v: Json.Value): Option<U32> {
    if !v.JString? then None
    else
      var f := if v.text == BACK_BUFFER then Vk.FORMAT_RANGE_SIZE else Conversion.VkFormatOfString(v.text);
      if f == Vk.FORMAT_UNDEFINED then None else Some(f)
  }

  /** A color attachment is the back buffer or a format the lookup knows; nothing else is accepted. */
  lemma ColorFormatOfMeans(v: Json.Value)
    ensures ColorFormatOf(v).Some? <==> v.JString? && (v.text == BACK_BUFFER || Conversion.VkFormatOfString(v.text) != Vk.FORMAT_UNDEFINED)
    ensures v.JString? && v.text == BACK_BUFFER ==> ColorFormatOf(v) == Some(Vk.FORMAT_RANGE_SIZE)
    ensures ColorFormatOf(v).Some? && v.text != BACK_BUFFER ==> ColorFormatOf(v).value == Conversion.VkFormatOfString(v.text)
  {
  }

  datatype ColorAttachments = ColorAttachments(count: U32, formats: seq<U32>)

  /** The array of color formats, at most four; the count becomes the array's length. */
  function ColorAttachmentsOf(formats: seq<U32>, v: Json.Value): (r: Option<ColorAttachments>)
    requires |formats| == TB.MAX_COLOR_ATTACHMENTS
    ensures r.Some? <==> v.JArray? && |v.items| <= TB.MAX_COLOR_ATTACHMENTS
                         && forall i :: 0 <= i < |v.items| ==> ColorFormatOf(v.items[i]).Some?
    ensures r.Some? ==> r.value.count == |v.items| && |r.value.formats| == |formats|
    ensures r.Some? ==> forall i :: 0 <= i < |v.items| ==> r.value.formats[i] == ColorFormatOf(v.items[i]).value
    ensures r.Some? ==> r.value.formats[|v.items|..] == formats[|v.items|..]
  {
    if !v.JArray? || |v.items| > TB.MAX_COLOR_ATTACHMENTS then None
    else
      var fs :- ColorItems(formats, v.items, 0);
      Some(ColorAttachments(|v.items|, fs))
  }

  function ColorItems(formats: seq<U32>, items: seq<Json.Value>, i: nat): (r: Option<seq<U32>>)
    requires i <= |items| <= |formats|
    ensures r.Some? <==> forall j :: i <= j < |items| ==> ColorFormatOf(items[j]).Some?
    ensures r.Some? ==> |r.value| == |formats|
    ensures r.Some? ==> r.value[..i] == formats[..i] && r.value[|items|..] == formats[|items|..]
    ensures r.Some? ==> forall j :: i <= j < |items| ==> r.value[j] == ColorFormatOf(items[j]).value
    decreases |items| - i
  {
    if i == |items| then Some(formats)
    else
      match ColorFormatOf(items[i])
      case None => None
      case Some(f) => ColorItems(formats[i := f], items, i + 1)
  }

  /** "depth_attachment": a format name other than UNDEFINED. */
  function DepthFormatOf(v: Json.Value): (r: Option<U32>)
    ensures r.Some? <==> v.JString? && Conversion.VkFormatOfString(v.text) != Vk.FORMAT_UNDEFINED
    ensures r.Some? ==> r.value == Conversion.VkFormatOfString(v.text)
  {
    if v.JString? && Conversion.VkFormatOfString(v.text) != Vk.FORMAT_UNDEFINED then Some(Conversion.VkFormatOfString(v.text))
    else None
  }

  // What the checks guarantee about the state.

  /** Every enumeration field holds a value its lookup accepted (never the `MAX_ENUM` of a failed one). */
  predicate KnownRasterizer(r: TB.Rasterizer) {
    r.polygonMode != Vk.MAX_ENUM && r.cullMode != Vk.MAX_ENUM && r.frontFace != Vk.MAX_ENUM
  }

  predicate KnownStencil(s: TB.StencilFace) {
    s.failOp != Vk.MAX_ENUM && s.passOp != Vk.MAX_ENUM && s.depthFailOp != Vk.MAX_ENUM && s.compareOp != Vk.MAX_ENUM
  }

  predicate KnownDepthStencil(d: TB.DepthStencil) {
    d.depthCompareOp != Vk.MAX_ENUM && KnownStencil(d.front) && KnownStencil(d.back)
  }

  predicate KnownBlend(a: TB.BlendAttachment) {
    a.srcColor != Vk.MAX_ENUM && a.dstColor != Vk.MAX_ENUM && a.srcAlpha != Vk.MAX_ENUM
    && a.dstAlpha != Vk.MAX_ENUM && a.colorOp != Vk.MAX_ENUM && a.alphaOp != Vk.MAX_ENUM
  }

  /** A value the lookup accepted is the position of the name in its table. */
  lemma AcceptedIsPosition(names: seq<string>, str: string, r: U32)
    requires Conversion.ParsesToPosition(names, str, r) && r != Vk.MAX_ENUM
    ensures r < |names| && names[r] == str
  {
  }

  /** A rasterizer section keeps every enumeration field a known value. */
  lemma RasterizerStaysKnown(r: TB.Rasterizer, v: Json.Value)
    requires KnownRasterizer(r)
    ensures RasterizerOf(r, v).Some? ==> KnownRasterizer(RasterizerOf(r, v).value)
  {
    if v.JObject? { FoldKeeps(r, v.members, RasterizerMember, KnownRasterizer); }
  }

  lemma StencilStaysKnown(s: TB.StencilFace, v: Json.Value)
    ensures KnownStencil(s) && StencilOf(s, v).Some? ==> KnownStencil(StencilOf(s, v).value)
  {
    if KnownStencil(s) && v.JObject? { FoldKeeps(s, v.members, StencilMember, KnownStencil); }
  }

  /** A depth-stencil section, faces included, keeps every enumeration field a known value. */
  lemma DepthStencilStaysKnown(d: TB.DepthStencil, v: Json.Value)
    requires KnownDepthStencil(d)
    ensures DepthStencilOf(d, v).Some? ==> KnownDepthStencil(DepthStencilOf(d, v).value)
  {
    if v.JObject? { FoldKeeps(d, v.members, DepthStencilMember, KnownDepthStencil); }
  }

  lemma BlendStaysKnown(a: TB.BlendAttachment, ms: seq<Json.Member>)
    ensures KnownBlend(a) && Fold(a, ms, BlendMember).Some? ==> KnownBlend(Fold(a, ms, BlendMember).value)
  {
    if KnownBlend(a) { FoldKeeps(a, ms, BlendMember, KnownBlend); }
  }

  /** The declared defaults are known values, so a blob's pipeline state always is. */
  lemma DefaultsAreKnown()
    ensures KnownRasterizer(TB.DEFAULT_RASTERIZER)
    ensures KnownDepthStencil(TB.DEFAULT_DEPTH_STENCIL)
    ensures KnownBlend(TB.DEFAULT_BLEND)
  {
  }
}
