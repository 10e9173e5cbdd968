/**
 * `CreateTechniqueBlob` of Source/GfxTechnique.cpp: the technique compiler's
 * front end. It reads the parsed JSON of a technique file, checks it
 * (`VERIFY`: any failure gives the empty blob), fills a technique record
 * starting from its declared defaults, collects the declarations of each
 * shader stage, hands the stage sources to the shader compiler and writes
 * the technique file.
 *
 * The GLSL text the source formats is kept as declaration records (what
 * each `AppendFormat` line declares, in order); the shader compiler is a
 * function parameter that may fail.
 */
module TechniqueCompiler {
  import opened Machine
  import opened Wrappers
  import Vk
  import Json
  import Hashing
  import Conversion
  import GfxArray
  import GfxString
  import GfxStream
  import TB = TechniqueBlob
  import FF = FixedFunction
  import TF = TechniqueFile

  type CText = GfxString.CText

  /** One line of a stage's declarations. */
  datatype Decl =
    | Verbatim(text: string)
      /** `layout(location = i) out type name;` */
    | Output(location: nat, typeName: string, name: string)
      /** `layout(location = i) in type name;` */
    | Input(location: nat, typeName: string, name: string)
      /** A vertex attribute; its GLSL type is `ToShaderFormatString(format)`, NULL for depth formats. */
    | Attribute(location: nat, shaderType: Option<string>, name: string)
      /** `layout(binding = slot[, layout]) <kind> name[ {block}];` */
    | Resource(slot: nat, layout: Option<string>, kind: string, name: string, block: Option<string>)
    | WorkGroup(x: U32, y: U32, z: U32)

  /** A String collecting declarations: NULL until the first append. */
  datatype Declarations = Unwritten | Written(decls: seq<Decl>)

  function DeclsOf(b: Declarations): seq<Decl> {
    if b.Unwritten? then [] else b.decls
  }

  /** One append per line; appending no lines leaves a NULL String NULL. */
  function Extend(b: Declarations, ds: seq<Decl>): (r: Declarations)
    ensures DeclsOf(r) == DeclsOf(b) + ds
    ensures r.Unwritten? <==> b.Unwritten? && |ds| == 0
  {
    if |ds| == 0 then b else Written(DeclsOf(b) + ds)
  }

  /** `String::Append` of a JSON string to a "main" body. */
  function AppendText(s: GfxString.CString, t: CText): (r: GfxString.CString)
    ensures r.Text? && r.chars == GfxString.Contents(s) + t
  {
    GfxString.Append(s, GfxString.Text(t)).value
  }

  // ---------------------------------------------------------------------
  // Arrays whose element i is entry i

  /** What one array element contributes: its record in the technique and what it declares. */
  datatype Entry<E, D> = Entry(item: E, decl: D)

  datatype Parsed<E, D> = Parsed(items: seq<E>, decls: seq<D>)

  /**
   * Elements `i..` of an array: element `j` is read by `entry(j, current[j], ·)`
   * and replaces record `j`; its declaration is the `j-i`-th. The first
   * failing element fails the whole array.
   */
  function Items<E, D>(current: seq<E>, vs: seq<Json.Value>, i: nat, entry: (nat, E, Json.Value) -> Option<Entry<E, D>>): (r: Option<Parsed<E, D>>)
    requires i <= |vs| <= |current|
    ensures r.Some? ==> |r.value.items| == |current| && |r.value.decls| == |vs| - i
    ensures r.Some? ==> r.value.items[..i] == current[..i] && r.value.items[|vs|..] == current[|vs|..]
    ensures r.Some? <==> forall j :: i <= j < |vs| ==> entry(j, current[j], vs[j]).Some?
    ensures r.Some? ==> forall j :: i <= j < |vs| ==> entry(j, current[j], vs[j]) == Some(Entry(r.value.items[j], r.value.decls[j - i]))
    decreases |vs| - i
  {
    if i == |vs| then Some(Parsed(current, []))
    else
      match entry(i, current[i], vs[i])
      case None => None
      case Some(e) =>
        var next := current[i := e.item];
        match Items(next, vs, i + 1, entry)
        case None =>
          assert forall j :: i + 1 <= j < |vs| ==> next[j] == current[j];
          None
        case Some(rest) =>
          assert forall j :: i + 1 <= j < |vs| ==> next[j] == current[j];
          assert rest.items[i] == rest.items[..i + 1][i];
          Some(Parsed(rest.items, [e.decl] + rest.decls))
  }

  /** An array of at most `capacity` elements, element `i` becoming record `i`; the count is the array's length. */
  function ArrayOf<E, D>(current: seq<E>, v: Json.Value, capacity: nat, entry: (nat, E, Json.Value) -> Option<Entry<E, D>>): (r: Option<Parsed<E, D>>)
    requires |current| == capacity
    ensures r.Some? <==> v.JArray? && |v.items| <= capacity && forall j :: 0 <= j < |v.items| ==> entry(j, current[j], v.items[j]).Some?
    ensures r.Some? ==> |r.value.items| == capacity && |r.value.decls| == |v.items|
    ensures r.Some? ==> r.value.items[|v.items|..] == current[|v.items|..]
    ensures r.Some? ==> forall j :: 0 <= j < |v.items| ==> entry(j, current[j], v.items[j]) == Some(Entry(r.value.items[j], r.value.decls[j]))
  {
    if v.JArray? && |v.items| <= capacity then Items(current, v.items, 0, entry) else None
  }

  // ---------------------------------------------------------------------
  // "outputs": the varyings between the stages

  datatype Varying = Varying(typeName: string, name: string)

  datatype VaryingFields = VaryingFields(name: Option<string>, typeName: Option<string>)

  function VaryingMember(f: VaryingFields, m: Json.Member): Option<VaryingFields> {
    if m.name == "name" then
      if m.value.JString? then Some(f.(name := Some(m.value.text))) else None
    else if m.name == "type" then
      if m.value.JString? then Some(f.(typeName := Some(m.value.text))) else None
    else Some(f)
  }

  /** An "outputs" element: an object whose "name" and "type" are strings; both are required. */
  function VaryingOf(v: Json.Value): Option<Varying> {
    if !v.JObject? then None
    else
      var f :- FF.Fold(VaryingFields(None, None), v.members, VaryingMember);
      if f.name.Some? && f.typeName.Some? then Some(Varying(f.typeName.value, f.name.value)) else None
  }

  /** An accepted output names both fields in its object. */
  lemma VaryingNeedsNameAndType(v: Json.Value)
    ensures VaryingOf(v).Some? ==> v.JObject? && FF.HasKey(v.members, "name") && FF.HasKey(v.members, "type")
  {
    if v.JObject? {
      FF.FilledOnlyAtKey(VaryingFields(None, None), v.members, VaryingMember, (f: VaryingFields) => f.name.Some?, "name");
      FF.FilledOnlyAtKey(VaryingFields(None, None), v.members, VaryingMember, (f: VaryingFields) => f.typeName.Some?, "type");
    }
  }

  function OutputEntry(i: nat, current: Varying, v: Json.Value): (r: Option<Entry<Varying, Decl>>)
    ensures r.Some? <==> VaryingOf(v).Some?
    ensures r.Some? ==> r.value.item == VaryingOf(v).value
    ensures r.Some? ==> r.value.decl == Output(i, r.value.item.typeName, r.value.item.name)
  {
    var x :- VaryingOf(v);
    Some(Entry(x, Output(i, x.typeName, x.name)))
  }

  /** The declarations a vertex output also gives the fragment stage: the same locations, as inputs. */
  function InputDecls(vs: seq<Varying>): (ds: seq<Decl>)
    ensures |ds| == |vs|
  {
    seq(|vs|, i requires 0 <= i < |vs| => Input(i, vs[i].typeName, vs[i].name))
  }

  /** An "outputs" array: output i is declared at location i. There is no capacity check. */
  function OutputsOf(v: Json.Value): (r: Option<Parsed<Varying, Decl>>)
    ensures r.Some? <==> v.JArray? && forall j :: 0 <= j < |v.items| ==> VaryingOf(v.items[j]).Some?
    ensures r.Some? ==> |r.value.items| == |r.value.decls| == |v.items|
    ensures r.Some? ==> forall j :: 0 <= j < |v.items| ==>
              r.value.items[j] == VaryingOf(v.items[j]).value
              && r.value.decls[j] == Output(j, r.value.items[j].typeName, r.value.items[j].name)
  {
    if !v.JArray? then None
    else
      var blank := seq(|v.items|, _ => Varying("", ""));
      ArrayOf(blank, v, |v.items|, OutputEntry)
  }

  // ---------------------------------------------------------------------
  // "vertex_attributes"

  datatype AttributeFields = AttributeFields(name: Option<string>, attribute: TB.VertexAttribute)

  function AttributeMember(f: AttributeFields, m: Json.Member): Option<AttributeFields> {
    var a := f.attribute;
    if m.name == "name" then
      if m.value.JString? then Some(f.(name := Some(m.value.text))) else None
    else if m.name == "binding" then
      var w :- FF.WordOf(m.value); Some(f.(attribute := a.(binding := w)))
    else if m.name == "format" then
      if m.value.JString? && Conversion.VkFormatOfString(m.value.text) != Vk.FORMAT_UNDEFINED
      then Some(f.(attribute := a.(format := Conversion.VkFormatOfString(m.value.text))))
      else None
    else if m.name == "offset" then
      var w :- FF.WordOf(m.value); Some(f.(attribute := a.(offset := w)))
    else if m.name == "input_rate" then
      var x :- FF.EnumOf(m.value, Conversion.VertexInputRate); Some(f.(attribute := a.(inputRate := x)))
    else Some(f)
  }

  /** The checks after an attribute's object: no field may keep its "missing" sentinel. */
  predicate Complete(a: TB.VertexAttribute) {
    a.binding != U32_MAX && a.format != Vk.FORMAT_UNDEFINED && a.offset != U32_MAX && a.inputRate != Vk.MAX_ENUM
  }

  /** Attribute i, updated in place from the record's current attribute i, declared at location i. */
  function AttributeEntry(i: nat, current: TB.VertexAttribute, v: Json.Value): (r: Option<Entry<TB.VertexAttribute, Decl>>)
    ensures r.Some? ==> Complete(r.value.item)
    ensures r.Some? ==> r.value.decl.Attribute? && r.value.decl.location == i
                        && r.value.decl.shaderType == Conversion.ShaderFormatString(r.value.item.format)
  {
    if !v.JObject? then None
    else
      var f :- FF.Fold(AttributeFields(None, current), v.members, AttributeMember);
      if f.name.Some? && Complete(f.attribute)
      then Some(Entry(f.attribute, Attribute(i, Conversion.ShaderFormatString(f.attribute.format), f.name.value)))
      else None
  }

  /** An attribute starting from the "missing" sentinels needs all five keys of its object. */
  lemma AttributeNeedsEveryKey(i: nat, v: Json.Value)
    ensures AttributeEntry(i, TB.UNSET_ATTRIBUTE, v).Some? ==>
              v.JObject? && FF.HasKey(v.members, "name") && FF.HasKey(v.members, "binding") && FF.HasKey(v.members, "format")
              && FF.HasKey(v.members, "offset") && FF.HasKey(v.members, "input_rate")
  {
    if v.JObject? {
      var s := AttributeFields(None, TB.UNSET_ATTRIBUTE);
      FF.FilledOnlyAtKey(s, v.members, AttributeMember, (f: AttributeFields) => f.name.Some?, "name");
      FF.FilledOnlyAtKey(s, v.members, AttributeMember, (f: AttributeFields) => f.attribute.binding != U32_MAX, "binding");
      FF.FilledOnlyAtKey(s, v.members, AttributeMember, (f: AttributeFields) => f.attribute.format != Vk.FORMAT_UNDEFINED, "format");
      FF.FilledOnlyAtKey(s, v.members, AttributeMember, (f: AttributeFields) => f.attribute.offset != U32_MAX, "offset");
      FF.FilledOnlyAtKey(s, v.members, AttributeMember, (f: AttributeFields) => f.attribute.inputRate != Vk.MAX_ENUM, "input_rate");
    }
  }

  // ---------------------------------------------------------------------
  // "shader_bindings"

  datatype BindingFields = BindingFields(name: Option<string>, kind: Option<string>, layout: Option<string>, block: Option<string>)

  function BindingMember(f: BindingFields, m: Json.Member): Option<BindingFields> {
    if m.name == "name" then
      if m.value.JString? then Some(f.(name := Some(m.value.text))) else None
    else if m.name == "type" then
      if m.value.JString? then Some(f.(kind := Some(m.value.text))) else None
    else if m.name == "format" then
      if m.value.JString? then Some(f.(layout := Some(m.value.text))) else None
    else if m.name == "content" then
      if m.value.JString? then Some(f.(block := Some(m.value.text))) else None
    else Some(f)
  }

  /**
   * Binding i: the hash of its name and the descriptor type of its "type",
   * neither of which may be the "missing" sentinel, declared at slot i.
   */
  function BindingEntry(i: nat, current: TB.ShaderBinding, v: Json.Value): (r: Option<Entry<TB.ShaderBinding, Decl>>)
    ensures r.Some? ==> r.value.item.hash != 0 && r.value.item.descriptorType != Vk.MAX_ENUM
    ensures r.Some? ==> r.value.decl.Resource? && r.value.decl.slot == i
    ensures r.Some? ==> r.value.item == TB.ShaderBinding(Hashing.NameHash(r.value.decl.name), Conversion.DescriptorType(r.value.decl.kind))
  {
    if !v.JObject? then None
    else
      var f :- FF.Fold(BindingFields(None, None, None, None), v.members, BindingMember);
      if f.name.None? || f.kind.None? then None
      else
        var b := TB.ShaderBinding(Hashing.NameHash(f.name.value), Conversion.DescriptorType(f.kind.value));
        if b.hash == 0 || b.descriptorType == Vk.MAX_ENUM then None
        else Some(Entry(b, Resource(i, f.layout, f.kind.value, f.name.value, f.block)))
  }

  /** A binding's kind is one of the nine descriptor names, so its GLSL spelling exists. */
  lemma BindingKindIsKnown(i: nat, current: TB.ShaderBinding, v: Json.Value)
    requires BindingEntry(i, current, v).Some?
    ensures BindingEntry(i, current, v).value.decl.kind in Conversion.DESCRIPTOR_NAMES
    ensures Conversion.ShaderDescriptorString(BindingEntry(i, current, v).value.decl.kind).Some?
  {
    Conversion.DescriptorTablesAgree(BindingEntry(i, current, v).value.decl.kind);
  }

  datatype BindingTable = BindingTable(count: U32, bindings: seq<TB.ShaderBinding>, decls: seq<Decl>)

  /** A "shader_bindings" array of at most 16 elements; the binding count becomes its length. */
  function BindingsOf(bindings: seq<TB.ShaderBinding>, v: Json.Value): (r: Option<BindingTable>)
    requires |bindings| == TB.MAX_SHADER_BINDINGS
    ensures r.Some? ==> v.JArray? && r.value.count == |v.items| <= TB.MAX_SHADER_BINDINGS
    ensures r.Some? ==> |r.value.bindings| == TB.MAX_SHADER_BINDINGS && |r.value.decls| == |v.items|
    ensures r.Some? ==> forall j :: 0 <= j < |v.items| ==>
              BindingEntry(j, bindings[j], v.items[j]) == Some(Entry(r.value.bindings[j], r.value.decls[j]))
    ensures r.Some? ==> r.value.bindings[|v.items|..] == bindings[|v.items|..]
  {
    var p :- ArrayOf(bindings, v, TB.MAX_SHADER_BINDINGS, BindingEntry);
    Some(BindingTable(|v.items|, p.items, p.decls))
  }

  /** The checks on bindings: the count is within capacity and every counted binding is filled in. */
  predicate BindingsChecked(count: U32, bindings: seq<TB.ShaderBinding>) {
    |bindings| == TB.MAX_SHADER_BINDINGS && count <= TB.MAX_SHADER_BINDINGS
    && forall i :: 0 <= i < count ==> bindings[i].hash != 0 && bindings[i].descriptorType != Vk.MAX_ENUM
  }

  lemma BindingsOfChecked(bindings: seq<TB.ShaderBinding>, v: Json.Value)
    requires |bindings| == TB.MAX_SHADER_BINDINGS
    ensures BindingsOf(bindings, v).Some? ==> BindingsChecked(BindingsOf(bindings, v).value.count, BindingsOf(bindings, v).value.bindings)
  {
    if BindingsOf(bindings, v).Some? {
      var t := BindingsOf(bindings, v).value;
      forall i | 0 <= i < t.count
        ensures t.bindings[i].hash != 0 && t.bindings[i].descriptorType != Vk.MAX_ENUM
      {
        assert BindingEntry(i, bindings[i], v.items[i]) == Some(Entry(t.bindings[i], t.decls[i]));
      }
    }
  }

  // ---------------------------------------------------------------------
  // The graphics branch

  /** What the graphics branch has collected so far: the record and the four Strings of the two stages. */
  datatype GraphicsBuild = GraphicsBuild(
    bindingCount: U32,
    bindings: seq<TB.ShaderBinding>,
    g: TB.Graphics,
    vsInclude: Declarations,
    vsMain: GfxString.CString,
    fsInclude: Declarations,
    fsMain: GfxString.CString)

  /** A default-constructed graphics record and four NULL Strings. */
  const GRAPHICS_START: GraphicsBuild :=
    GraphicsBuild(0, TB.DEFAULT_BLOB.bindings, TB.DEFAULT_GRAPHICS, Unwritten, GfxString.Null, Unwritten, GfxString.Null)

  /** A shader section changes the stage Strings and nothing of the record. */
  predicate SameRecord(a: GraphicsBuild, b: GraphicsBuild) {
    a.bindingCount == b.bindingCount && a.bindings == b.bindings && a.g == b.g
  }

  function VertexShaderMember(b: GraphicsBuild, m: Json.Member): (r: Option<GraphicsBuild>)
    ensures r.Some? ==> SameRecord(r.value, b)
  {
    if m.name == "outputs" then
      var p :- OutputsOf(m.value);
      Some(b.(vsInclude := Extend(b.vsInclude, p.decls), fsInclude := Extend(b.fsInclude, InputDecls(p.items))))
    else if m.name == "include" then
      if m.value.JString? then Some(b.(vsInclude := Extend(b.vsInclude, [Verbatim(m.value.text)]))) else None
    else if m.name == "main" then
      if m.value.JString? then Some(b.(vsMain := AppendText(b.vsMain, m.value.text))) else None
    else Some(b)
  }

  function FragmentShaderMember(b: GraphicsBuild, m: Json.Member): (r: Option<GraphicsBuild>)
    ensures r.Some? ==> SameRecord(r.value, b)
  {
    if m.name == "outputs" then
      var p :- OutputsOf(m.value);
      Some(b.(fsInclude := Extend(b.fsInclude, p.decls)))
    else if m.name == "include" then
      if m.value.JString? then Some(b.(fsInclude := Extend(b.fsInclude, [Verbatim(m.value.text)]))) else None
    else if m.name == "main" then
      if m.value.JString? then Some(b.(fsMain := AppendText(b.fsMain, m.value.text))) else None
    else Some(b)
  }

  /** "vertex_shader" or "fragment_shader": an object whose members are read in order. */
  function ShaderOf(b: GraphicsBuild, v: Json.Value, step: (GraphicsBuild, Json.Member) -> Option<GraphicsBuild>): (r: Option<GraphicsBuild>)
    requires forall x, m :: step(x, m).Some? ==> SameRecord(step(x, m).value, x)
    ensures r.Some? ==> SameRecord(r.value, b)
  {
    if !v.JObject? then None
    else
      var keep := (x: GraphicsBuild) => SameRecord(x, b);
      assert forall x, m :: keep(x) && step(x, m).Some? ==> keep(step(x, m).value) by {
        forall x, m | keep(x) && step(x, m).Some? ensures keep(step(x, m).value) {
          assert SameRecord(step(x, m).value, x);
        }
      }
      FF.FoldKeeps(b, v.members, step, keep);
      FF.Fold(b, v.members, step)
  }

  /** What the checks guarantee about a graphics record: every counted entry filled in, every enumeration known. */
  predicate GraphicsChecked(g: TB.Graphics) {
    g.Shaped()
    && g.colorCount <= TB.MAX_COLOR_ATTACHMENTS
    && (forall i :: 0 <= i < g.colorCount ==> g.colorFormats[i] != Vk.FORMAT_UNDEFINED)
    && g.attributeCount <= TB.MAX_VERTEX_ATTRIBUTES
    && (forall i :: 0 <= i < g.attributeCount ==> Complete(g.attributes[i]))
    && g.inputAssembly.topology != Vk.MAX_ENUM
    && FF.KnownRasterizer(g.rasterizer)
    && FF.KnownDepthStencil(g.depthStencil)
    && (forall i :: 0 <= i < TB.MAX_BLEND_ATTACHMENTS ==> FF.KnownBlend(g.blend[i]))
  }

  predicate BuildChecked(b: GraphicsBuild) {
    BindingsChecked(b.bindingCount, b.bindings) && GraphicsChecked(b.g)
  }

  /** The record's state and attachment sections ("color_attachments" … "blend_attachments"). */
  function StateMember(g: TB.Graphics, m: Json.Member): (r: Option<TB.Graphics>)
    requires GraphicsChecked(g)
    ensures r.Some? ==> GraphicsChecked(r.value)
  {
    if m.name == "color_attachments" then
      var c :- FF.ColorAttachmentsOf(g.colorFormats, m.value);
      Some(g.(colorCount := c.count, colorFormats := c.formats))
    else if m.name == "depth_attachment" then
      var f :- FF.DepthFormatOf(m.value);
      Some(g.(depthFormat := f))
    else if m.name == "input_assembly" then
      var ia :- FF.InputAssemblyOf(g.inputAssembly, m.value);
      FF.FoldKeeps(g.inputAssembly, m.value.members, FF.InputAssemblyMember, (x: TB.InputAssembly) => x.topology != Vk.MAX_ENUM);
      Some(g.(inputAssembly := ia))
    else if m.name == "rasterizer_state" then
      var rs :- FF.RasterizerOf(g.rasterizer, m.value);
      FF.RasterizerStaysKnown(g.rasterizer, m.value);
      Some(g.(rasterizer := rs))
    else if m.name == "depth_stencil_state" then
      var ds :- FF.DepthStencilOf(g.depthStencil, m.value);
      FF.DepthStencilStaysKnown(g.depthStencil, m.value);
      Some(g.(depthStencil := ds))
    else if m.name == "blend_attachments" then
      var bl :- BlendsOf(g.blend, m.value);
      Some(g.(blend := bl))
    else Some(g)
  }

  /** "blend_attachments", keeping every blend state's enumerations known. */
  function BlendsOf(blend: seq<TB.BlendAttachment>, v: Json.Value): (r: Option<seq<TB.BlendAttachment>>)
    requires |blend| == TB.MAX_BLEND_ATTACHMENTS
    requires forall i :: 0 <= i < |blend| ==> FF.KnownBlend(blend[i])
    ensures r.Some? ==> |r.value| == |blend| && forall i :: 0 <= i < |blend| ==> FF.KnownBlend(r.value[i])
  {
    var p :- ArrayOf(blend, v, TB.MAX_BLEND_ATTACHMENTS, BlendEntry);
    Some(p.items)
  }

  /** Blend state i, updated in place; it declares nothing. */
  function BlendEntry(i: nat, current: TB.BlendAttachment, v: Json.Value): (r: Option<Entry<TB.BlendAttachment, ()>>)
    ensures r.Some? && FF.KnownBlend(current) ==> FF.KnownBlend(r.value.item)
  {
    if !v.JObject? then None
    else
      var a :- FF.Fold(current, v.members, FF.BlendMember);
      FF.BlendStaysKnown(current, v.members);
      Some(Entry(a, ()))
  }

  /** A graphics build whose record passes every check; the sections keep it so. */
  type CheckedBuild = b: GraphicsBuild | BuildChecked(b) witness GRAPHICS_START

  /** "vertex_attributes": at most eight, attribute i declared in the vertex stage at location i; the count is the array's length. */
  function AttributesOf(b: CheckedBuild, v: Json.Value): (r: Option<CheckedBuild>)
    ensures r.Some? ==> v.JArray? && r.value.g.attributeCount == |v.items| <= TB.MAX_VERTEX_ATTRIBUTES
    ensures r.Some? ==> |DeclsOf(r.value.vsInclude)| == |DeclsOf(b.vsInclude)| + |v.items|
    ensures r.Some? ==> forall j :: 0 <= j < |v.items| ==>
              AttributeEntry(j, b.g.attributes[j], v.items[j]) == Some(Entry(r.value.g.attributes[j], DeclsOf(r.value.vsInclude)[|DeclsOf(b.vsInclude)| + j]))
  {
    var p :- ArrayOf(b.g.attributes, v, TB.MAX_VERTEX_ATTRIBUTES, AttributeEntry);
    var g := b.g.(attributeCount := |v.items|, attributes := p.items);
    assert forall i :: 0 <= i < g.attributeCount ==> Complete(g.attributes[i]) by {
      forall i | 0 <= i < g.attributeCount ensures Complete(g.attributes[i]) {
        assert AttributeEntry(i, b.g.attributes[i], v.items[i]).Some?;
      }
    }
    Some(b.(g := g, vsInclude := Extend(b.vsInclude, p.decls)))
  }

  /** "shader_bindings" in a graphics technique: each declaration goes to both stages. */
  function GraphicsBindingsOf(b: CheckedBuild, v: Json.Value): (r: Option<CheckedBuild>)
    ensures r.Some? ==> |DeclsOf(b.vsInclude)| <= |DeclsOf(r.value.vsInclude)|
    ensures r.Some? ==> BindingsOf(b.bindings, v) == Some(BindingTable(r.value.bindingCount, r.value.bindings, DeclsOf(r.value.vsInclude)[|DeclsOf(b.vsInclude)|..]))
  {
    var t :- BindingsOf(b.bindings, v);
    BindingsOfChecked(b.bindings, v);
    var r := b.(bindingCount := t.count, bindings := t.bindings, vsInclude := Extend(b.vsInclude, t.decls), fsInclude := Extend(b.fsInclude, t.decls));
    assert DeclsOf(r.vsInclude)[|DeclsOf(b.vsInclude)|..] == t.decls;
    Some(r)
  }

  /** One member of the root object in the graphics branch; unknown keys (and "compute_shader", excluded earlier) are skipped. */
  function GraphicsMember(b: CheckedBuild, m: Json.Member): Option<CheckedBuild> {
    if m.name == "vertex_shader" then
      var r :- ShaderOf(b, m.value, VertexShaderMember);
      Some(r)
    else if m.name == "fragment_shader" then
      var r :- ShaderOf(b, m.value, FragmentShaderMember);
      Some(r)
    else if m.name == "vertex_attributes" then AttributesOf(b, m.value)
    else if m.name == "shader_bindings" then GraphicsBindingsOf(b, m.value)
    else
      var g :- StateMember(b.g, m);
      Some(b.(g := g))
  }

  // ---------------------------------------------------------------------
  // The compute branch

  datatype ComputeBuild = ComputeBuild(bindingCount: U32, bindings: seq<TB.ShaderBinding>, csInclude: Declarations, csMain: GfxString.CString)

  const COMPUTE_START: ComputeBuild := ComputeBuild(0, TB.DEFAULT_BLOB.bindings, Unwritten, GfxString.Null)

  type CheckedCompute = b: ComputeBuild | BindingsChecked(b.bindingCount, b.bindings) witness COMPUTE_START

  function WorkGroupMember(w: Decl, m: Json.Member): Option<Decl> {
    if !w.WorkGroup? then None
    else if m.name == "x" then
      var n :- FF.WordOf(m.value); Some(w.(x := n))
    else if m.name == "y" then
      var n :- FF.WordOf(m.value); Some(w.(y := n))
    else if m.name == "z" then
      var n :- FF.WordOf(m.value); Some(w.(z := n))
    else Some(w)
  }

  /** "work_group_size": an object of numbers "x", "y", "z", each 0 when absent. */
  function WorkGroupOf(v: Json.Value): (r: Option<Decl>)
    ensures r.Some? ==> r.value.WorkGroup?
  {
    if !v.JObject? then None
    else
      FF.FoldKeeps(WorkGroup(0, 0, 0), v.members, WorkGroupMember, (d: Decl) => d.WorkGroup?);
      FF.Fold(WorkGroup(0, 0, 0), v.members, WorkGroupMember)
  }

  function ComputeShaderMember(b: CheckedCompute, m: Json.Member): (r: Option<CheckedCompute>)
    ensures r.Some? ==> r.value.bindingCount == b.bindingCount && r.value.bindings == b.bindings
  {
    if m.name == "work_group_size" then
      var w :- WorkGroupOf(m.value);
      Some(b.(csInclude := Extend(b.csInclude, [w])))
    else if m.name == "include" then
      if m.value.JString? then Some(b.(csInclude := Extend(b.csInclude, [Verbatim(m.value.text)]))) else None
    else if m.name == "main" then
      if m.value.JString? then Some(b.(csMain := AppendText(b.csMain, m.value.text))) else None
    else Some(b)
  }

  /** One member of the root object in the compute branch: only "compute_shader" and "shader_bindings" are read. */
  function ComputeMember(b: CheckedCompute, m: Json.Member): Option<CheckedCompute> {
    if m.name == "compute_shader" then
      if m.value.JObject? then FF.Fold(b, m.value.members, ComputeShaderMember) else None
    else if m.name == "shader_bindings" then
      var t :- BindingsOf(b.bindings, m.value);
      BindingsOfChecked(b.bindings, m.value);
      Some(b.(bindingCount := t.count, bindings := t.bindings, csInclude := Extend(b.csInclude, t.decls)))
    else Some(b)
  }

  // ---------------------------------------------------------------------
  // The root object and the choice of branch

  datatype Branches = Branches(vertex: bool, compute: bool)

  /** The first pass over the root object: which of "vertex_shader" and "compute_shader" it names. */
  function ScanRoot(ms: seq<Json.Member>): (r: Branches)
    ensures r.vertex <==> FF.HasKey(ms, "vertex_shader")
    ensures r.compute <==> FF.HasKey(ms, "compute_shader")
    decreases |ms|
  {
    if |ms| == 0 then Branches(false, false)
    else
      var rest := ScanRoot(ms[1..]);
      assert forall k :: FF.HasKey(ms, k) <==> ms[0].name == k || FF.HasKey(ms[1..], k) by {
        forall k ensures FF.HasKey(ms, k) <==> ms[0].name == k || FF.HasKey(ms[1..], k) {
          if FF.HasKey(ms, k) && ms[0].name != k {
            var i :| 0 < i < |ms| && ms[i].name == k;
            assert ms[1..][i - 1].name == k;
          }
          if FF.HasKey(ms[1..], k) {
            var i :| 0 <= i < |ms| - 1 && ms[1..][i].name == k;
            assert ms[i + 1].name == k;
          }
        }
      }
      if ms[0].name == "vertex_shader" then rest.(vertex := true)
      else if ms[0].name == "compute_shader" then rest.(compute := true)
      else rest
  }

  /**
   * Which branch a parse result takes: `Some(true)` for graphics, `Some(false)`
   * for compute, `None` when the text did not parse, the root is not an
   * object, or it names both or neither of the two shader kinds.
   */
  function BranchOf(parsed: Option<Json.Value>): (r: Option<bool>)
    ensures r.Some? <==> parsed.Some? && parsed.value.JObject?
                          && (FF.HasKey(parsed.value.members, "vertex_shader") != FF.HasKey(parsed.value.members, "compute_shader"))
    ensures r.Some? ==> (r.value <==> FF.HasKey(parsed.value.members, "vertex_shader"))
  {
    if parsed.None? || !parsed.value.JObject? then None
    else
      var seen := ScanRoot(parsed.value.members);
      if !(seen.vertex || seen.compute) || (seen.vertex && seen.compute) then None
      else Some(seen.vertex)
  }

  // ---------------------------------------------------------------------
  // Shader compilation

  datatype Stage = VertexStage | FragmentStage | ComputeStage

  /**
   * What is handed to the GLSL compiler for one stage: the stage, the
   * declarations written before `main` and the body of `main`. The fixed
   * header and footer text around them is the same for every technique.
   */
  datatype ShaderSource = ShaderSource(stage: Stage, prelude: seq<Decl>, main: string)

  /** The external compiler: bytecode, or `None` when the source does not compile. */
  type Compiler = ShaderSource -> Option<Block64>

  type Block64 = TF.Block64

  /**
   * The stage code of a graphics technique as `CreateTechniqueBlob` builds it:
   * appending a NULL include or main String to the source, or taking the
   * length of a NULL fragment main, dereferences NULL.
   */
  function GraphicsCodeAsWritten(b: GraphicsBuild, compile: Compiler): (r: Result<Option<seq<Block64>>, GfxString.Fault>)
    ensures b.vsInclude.Unwritten? || b.vsMain.Null? ==> r.Failure?
    ensures r.Success? ==> r.value == GraphicsCode(b, compile)
  {
    if b.vsInclude.Unwritten? || b.vsMain.Null? then Failure(GfxString.NullDereference)
    else
      match compile(ShaderSource(VertexStage, b.vsInclude.decls, b.vsMain.chars))
      case None => Success(None)
      case Some(vs) =>
        var n :- GfxString.Length(b.fsMain);
        if n == 0 then Success(Some([vs, []]))
        else if b.fsInclude.Unwritten? then Failure(GfxString.NullDereference)
        else
          match compile(ShaderSource(FragmentStage, b.fsInclude.decls, b.fsMain.chars))
          case None => Success(None)
          case Some(fs) => Success(Some([vs, fs]))
  }

  /**
   * The stage code of a graphics technique with a missing section read as
   * empty: the vertex stage always, the fragment stage only when its main
   * is not empty (an empty fragment block otherwise).
   */
  function GraphicsCode(b: GraphicsBuild, compile: Compiler): (r: Option<seq<Block64>>)
    ensures r.Some? <==> compile(ShaderSource(VertexStage, DeclsOf(b.vsInclude), GfxString.Contents(b.vsMain))).Some?
                         && (|GfxString.Contents(b.fsMain)| != 0 ==> compile(ShaderSource(FragmentStage, DeclsOf(b.fsInclude), GfxString.Contents(b.fsMain))).Some?)
    ensures r.Some? ==> |r.value| == 2 && compile(ShaderSource(VertexStage, DeclsOf(b.vsInclude), GfxString.Contents(b.vsMain))) == Some(r.value[0])
    ensures r.Some? && |GfxString.Contents(b.fsMain)| == 0 ==> r.value[1] == []
    ensures r.Some? && |GfxString.Contents(b.fsMain)| != 0 ==> compile(ShaderSource(FragmentStage, DeclsOf(b.fsInclude), GfxString.Contents(b.fsMain))) == Some(r.value[1])
  {
    var vs :- compile(ShaderSource(VertexStage, DeclsOf(b.vsInclude), GfxString.Contents(b.vsMain)));
    if |GfxString.Contents(b.fsMain)| == 0 then Some([vs, []])
    else
      var fs :- compile(ShaderSource(FragmentStage, DeclsOf(b.fsInclude), GfxString.Contents(b.fsMain)));
      Some([vs, fs])
  }

  /** The compute stage as `CreateTechniqueBlob` builds it: a NULL include or main String dereferences NULL. */
  function ComputeCodeAsWritten(b: ComputeBuild, compile: Compiler): (r: Result<Option<seq<Block64>>, GfxString.Fault>)
    ensures r.Failure? <==> b.csInclude.Unwritten? || b.csMain.Null?
    ensures r.Success? ==> r.value == ComputeCode(b, compile)
  {
    if b.csInclude.Unwritten? || b.csMain.Null? then Failure(GfxString.NullDereference)
    else
      match compile(ShaderSource(ComputeStage, b.csInclude.decls, b.csMain.chars))
      case None => Success(None)
      case Some(cs) => Success(Some([cs]))
  }

  /** The compute stage with a missing section read as empty. */
  function ComputeCode(b: ComputeBuild, compile: Compiler): (r: Option<seq<Block64>>)
    ensures r.Some? <==> compile(ShaderSource(ComputeStage, DeclsOf(b.csInclude), GfxString.Contents(b.csMain))).Some?
    ensures r.Some? ==> |r.value| == 1 && compile(ShaderSource(ComputeStage, DeclsOf(b.csInclude), GfxString.Contents(b.csMain))) == Some(r.value[0])
  {
    var cs :- compile(ShaderSource(ComputeStage, DeclsOf(b.csInclude), GfxString.Contents(b.csMain)));
    Some([cs])
  }

  // ---------------------------------------------------------------------
  // CreateTechniqueBlob

  /** The graphics branch: every root member read into the record and the two stages' sources. */
  function GraphicsBuildOf(ms: seq<Json.Member>): Option<CheckedBuild> {
    var start: CheckedBuild := GRAPHICS_START;
    FF.Fold(start, ms, GraphicsMember)
  }

  function ComputeBuildOf(ms: seq<Json.Member>): Option<CheckedCompute> {
    var start: CheckedCompute := COMPUTE_START;
    FF.Fold(start, ms, ComputeMember)
  }

  function GraphicsBlob(b: CheckedBuild): (blob: TB.Blob)
    ensures blob.Shaped()
  {
    TB.Blob(Vk.PIPELINE_BIND_POINT_GRAPHICS, b.bindingCount, b.bindings, Some(b.g))
  }

  function ComputeBlob(b: CheckedCompute): (blob: TB.Blob)
    ensures blob.Shaped()
  {
    TB.Blob(Vk.PIPELINE_BIND_POINT_COMPUTE, b.bindingCount, b.bindings, None)
  }

  /** The record every technique file holds passes the compiler's checks. */
  predicate BlobChecked(blob: TB.Blob) {
    BindingsChecked(blob.bindingCount, blob.bindings)
    && (blob.graphics.Some? ==> GraphicsChecked(blob.graphics.value))
  }

  /**
   * `CreateTechniqueBlob` as written, from the JSON text, what the parser
   * made of it, and the shader compiler. `Success(None)` is the empty blob
   * of a failed check or compile; a `Failure` is a NULL dereference.
   */
  function CompileAsWritten(text: seq<Byte>, parsed: Option<Json.Value>, compile: Compiler): (r: Result<Option<TF.Contents>, GfxString.Fault>)
    ensures r.Success? ==> r.value == Compile(text, parsed, compile)
  {
    match BranchOf(parsed)
    case None => Success(None)
    case Some(graphics) =>
      if graphics then
        match GraphicsBuildOf(parsed.value.members)
        case None => Success(None)
        case Some(b) =>
          var code :- GraphicsCodeAsWritten(b, compile);
          if code.None? then Success(None)
          else Success(Some(TF.Contents(Hashing.Hash(text), GraphicsBlob(b), code.value)))
      else
        match ComputeBuildOf(parsed.value.members)
        case None => Success(None)
        case Some(b) =>
          var code :- ComputeCodeAsWritten(b, compile);
          if code.None? then Success(None)
          else Success(Some(TF.Contents(Hashing.Hash(text), ComputeBlob(b), code.value)))
  }

  /**
   * `CreateTechniqueBlob` with missing shader sections read as empty: the
   * contents of the technique file, or `None` for the empty blob.
   */
  function Compile(text: seq<Byte>, parsed: Option<Json.Value>, compile: Compiler): (r: Option<TF.Contents>)
    ensures r.Some? ==> TF.Storable(r.value) && BlobChecked(r.value.blob)
    ensures r.Some? ==> r.value.checksum == Hashing.Hash(text)
    ensures r.Some? ==> BranchOf(parsed).Some? && (r.value.blob.bindPoint == Vk.PIPELINE_BIND_POINT_GRAPHICS <==> BranchOf(parsed).value)
  {
    var graphics :- BranchOf(parsed);
    if graphics then
      var b :- GraphicsBuildOf(parsed.value.members);
      var code :- GraphicsCode(b, compile);
      Some(TF.Contents(Hashing.Hash(text), GraphicsBlob(b), code))
    else
      var b :- ComputeBuildOf(parsed.value.members);
      var code :- ComputeCode(b, compile);
      Some(TF.Contents(Hashing.Hash(text), ComputeBlob(b), code))
  }

  /** The bytes `CreateTechniqueBlob` returns: the technique file, or nothing. */
  function CreateTechniqueBlob(text: seq<Byte>, parsed: Option<Json.Value>, compile: Compiler): seq<Byte> {
    match Compile(text, parsed, compile)
    case None => []
    case Some(c) => TF.Serialise(c)
  }

  /** The returned blob is empty exactly when compilation fails, and otherwise reads back as the compiled contents. */
  lemma CreatedBlobReadsBack(text: seq<Byte>, parsed: Option<Json.Value>, compile: Compiler)
    ensures |CreateTechniqueBlob(text, parsed, compile)| == 0 <==> Compile(text, parsed, compile).None?
    ensures Compile(text, parsed, compile).Some? ==>
              TF.Deserialise(CreateTechniqueBlob(text, parsed, compile)) == Compile(text, parsed, compile)
              && GfxStream.LeadingChecksum(CreateTechniqueBlob(text, parsed, compile)) == Some(Hashing.Hash(text))
  {
    var r := Compile(text, parsed, compile);
    if r.Some? {
      TF.FillsWrittenSize(r.value);
      TF.RoundTrip(r.value);
      TF.ChecksumLeads(r.value);
    }
  }

  // ---------------------------------------------------------------------
  // A graphics technique without a fragment shader

  const VERTEX_MAIN: CText := "gl_Position = vec4(0.0);"

  /** A vertex stage with an (empty) include and a main, and no "fragment_shader" at all. */
  const VERTEX_ONLY: Json.Value :=
    Json.JObject([Json.Member("vertex_shader", Json.JObject([Json.Member("include", Json.JString("")), Json.Member("main", Json.JString(VERTEX_MAIN))]))])

  /**
   * As written, a technique with no fragment main dereferences NULL when it
   * measures `fs_main`, although the code tests that length precisely to
   * allow a vertex-only technique; the corrected compiler writes an empty
   * fragment block.
   */
  lemma VertexOnlyDereferencesNull(text: seq<Byte>, compile: Compiler)
    requires compile(ShaderSource(VertexStage, [Verbatim("")], VERTEX_MAIN)).Some?
    ensures CompileAsWritten(text, Some(VERTEX_ONLY), compile) == Failure(GfxString.NullDereference)
    ensures Compile(text, Some(VERTEX_ONLY), compile).Some?
    ensures Compile(text, Some(VERTEX_ONLY), compile).value.code
            == [compile(ShaderSource(VertexStage, [Verbatim("")], VERTEX_MAIN)).value, []]
  {
    var ms := VERTEX_ONLY.members;
    var shader := ms[0].value;
    assert ScanRoot(ms[1..]) == Branches(false, false);
    assert BranchOf(Some(VERTEX_ONLY)) == Some(true);
    var start: CheckedBuild := GRAPHICS_START;
    var b1 := start.(vsInclude := Written([Verbatim("")]));
    var b2: CheckedBuild := b1.(vsMain := GfxString.Text(VERTEX_MAIN));
    assert Extend(start.vsInclude, [Verbatim("")]) == Written([Verbatim("")]) by {
      assert DeclsOf(start.vsInclude) + [Verbatim("")] == [Verbatim("")];
    }
    assert VertexShaderMember(start, shader.members[0]) == Some(b1);
    assert VertexShaderMember(b1, shader.members[1]) == Some(b2);
    assert FF.Fold(b2, shader.members[2..], VertexShaderMember) == Some(b2);
    assert FF.Fold(start, shader.members, VertexShaderMember) == Some(b2);
    assert GraphicsMember(start, ms[0]) == Some(b2);
    assert FF.Fold(b2, ms[1..], GraphicsMember) == Some(b2);
    assert GraphicsBuildOf(ms) == Some(b2);
  }
}
