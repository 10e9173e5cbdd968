/**
 * The public model functions of Source/GfxModel.cpp on top of
 * `CreateModel`: `GfxLoadModel` with its blob cache, the accessors, and the
 * arguments the bind and draw calls pass on.
 */
module ModelApi {
  import opened Machine
  import opened Wrappers
  import S = GfxStream
  import MB = ModelBlob
  import Hashing
  import GfxString
  import BlobPath
  import AF = AssetFiles
  import opened GfxModel

  /** `GfxGetModelMeshCount`. */
  function MeshCount(m: Model): nat {
    |m.meshes|
  }

  /** `GfxGetModelMaterialIndex`: the material index of a mesh record. */
  function MaterialIndexOf(m: Model, mesh: nat): U32
    requires mesh < |m.meshes|
  {
    m.meshes[mesh].materialIndex
  }

  /** A material's texture index is -1 or names one of the model's textures, as the accessor expects. */
  predicate TextureIndexValid(m: Model, material: nat)
    requires material < |m.materials|
  {
    m.materials[material] == -1 || 0 <= m.materials[material] < |m.textures|
  }

  /** `GfxGetModelDiffuseTexture`: NULL for index -1, otherwise the texture the index names. */
  function DiffuseTexture(m: Model, material: nat): (r: Texture)
    requires material < |m.materials| && TextureIndexValid(m, material)
    ensures m.materials[material] == -1 ==> r.None?
    ensures m.materials[material] != -1 ==> r in m.textures
  {
    var index := m.materials[material];
    if index == -1 then None else m.textures[index]
  }

  /** The arguments `GfxCmdDrawModel` passes to `GfxCmdDrawIndexed`. */
  datatype DrawIndexed = DrawIndexed(indexCount: U32, instanceCount: U32, firstIndex: U32, vertexOffset: I32)

  /** `GfxCmdDrawModel`: the mesh's index range, with its `uint32_t` vertex offset passed as the `int32_t` parameter. */
  function DrawModel(m: Model, mesh: nat, instances: U32): (r: DrawIndexed)
    requires mesh < |m.meshes|
    ensures FromInt32(r.vertexOffset) == m.meshes[mesh].vertexOffset
    ensures 0 <= r.vertexOffset <==> m.meshes[mesh].vertexOffset < 0x8000_0000
  {
    var r := m.meshes[mesh];
    DrawIndexed(r.indexCount, instances, r.indexOffset, ToInt32(r.vertexOffset))
  }

  /** The arguments of `GfxCmdBindVertexBuffer` and `GfxCmdBindIndexBuffer`, on the model's own buffer. */
  datatype VertexBinding = VertexBinding(binding: U32, offset: nat)
  datatype IndexBinding = IndexBinding(offset: nat, stride: nat)

  /** `GfxCmdBindModelVertexBuffer`: the vertex buffer at the attribute's offset. */
  function BindVertexBuffer(m: Model, attribute: nat, binding: U32): VertexBinding
    requires attribute < |m.vertexOffsets|
  {
    VertexBinding(binding, m.vertexOffsets[attribute])
  }

  /** `GfxCmdBindModelIndexBuffer`: the index buffer from its start, four bytes per index. */
  function BindIndexBuffer(m: Model): IndexBinding {
    IndexBinding(0, 4)
  }

  /** The fields of one vertex attribute, and the bytes each vertex takes in it. */
  function AttributeFields(vs: seq<MB.Vertex>, attribute: nat): seq<S.Field>
    requires attribute < ATTRIBUTE_COUNT
  {
    if attribute == 0 then MB.PositionFields(vs) else if attribute == 1 then MB.TexcoordFields(vs) else MB.NormalFields(vs)
  }

  function AttributeStride(attribute: nat): nat
    requires attribute < ATTRIBUTE_COUNT
  {
    if attribute == 0 then 8 else 4
  }

  /**
   * Binding an attribute of a model read from a blob points the binding at
   * that attribute's data: from the bound offset the vertex buffer holds
   * the attribute of every vertex, in order. The index buffer binding
   * reads one `uint32_t` index per four bytes from the start of the
   * buffer, which holds the blob's indices.
   */
  lemma BindingsSelectAttributes(c: MB.Contents, load: Loader, attribute: nat, binding: U32)
    requires attribute < ATTRIBUTE_COUNT
    ensures var m := ModelOf(c, load);
            var b := BindVertexBuffer(m, attribute, binding);
            var end := b.offset + AttributeStride(attribute) * |c.vertices|;
            b.binding == binding && end <= |m.vertexBuffer|
            && m.vertexBuffer[b.offset..end] == S.EncodeAll(AttributeFields(c.vertices, attribute))
    ensures var m := ModelOf(c, load);
            var ib := BindIndexBuffer(m);
            ib.offset == 0 && ib.stride == S.FieldSize(S.FUint32(0))
            && m.indexBuffer == S.EncodeAll(MB.IndexFields(c.indices))
  {
    AttributeSections(c.vertices, attribute);
  }

  /** The vertex data holds the positions, then the texture coordinates, then the normals. */
  lemma AttributeSections(vs: seq<MB.Vertex>, attribute: nat)
    requires attribute < ATTRIBUTE_COUNT
    ensures var start := [0, 8 * |vs|, 12 * |vs|][attribute];
            var data := S.EncodeAll(MB.VertexData(vs));
            start + AttributeStride(attribute) * |vs| <= |data|
            && data[start..start + AttributeStride(attribute) * |vs|] == S.EncodeAll(AttributeFields(vs, attribute))
  {
    var pos, tex, nrm := MB.PositionFields(vs), MB.TexcoordFields(vs), MB.NormalFields(vs);
    MB.VertexFieldsSize(vs);
    S.EncodeAllAppend(pos, tex);
    S.EncodeAllAppend(pos + tex, nrm);
    S.SizeAllIsLength(pos);
    S.SizeAllIsLength(tex);
    S.SizeAllIsLength(nrm);
    var a, b, d := S.EncodeAll(pos), S.EncodeAll(tex), S.EncodeAll(nrm);
    assert S.EncodeAll(MB.VertexData(vs)) == a + b + d;
    if attribute == 0 {
      assert (a + b + d)[..|a|] == a;
    } else if attribute == 1 {
      assert (a + b + d)[|a|..|a| + |b|] == b;
    } else {
      assert (a + b + d)[|a| + |b|..|a| + |b| + |d|] == d;
    }
  }

  /**
   * Drawing mesh `i` of the model loaded from an OBJ file draws shape `i`:
   * the draw's index range is exactly that shape's whole triangles, and
   * its vertex offset, added to an index the shape numbers its own
   * vertices by, lands on that shape's vertex. The offset must fit the
   * `int32_t` parameter.
   */
  lemma DrawSelectsShape(text: seq<Byte>, o: MB.Obj, dir: MB.CBytes, fileExists: MB.Path -> bool, load: Loader, i: nat, instances: U32)
    requires i < |o.shapes| && MB.VertexTotal(o.shapes) < 0x8000_0000
    ensures var c := MB.ContentsOf(text, o, dir, fileExists);
            DrawsShape(DrawModel(ModelOf(c, load), i, instances), c.vertices, c.indices, o.shapes[i], instances)
  {
    var c := MB.ContentsOf(text, o, dir, fileExists);
    var m := ModelOf(c, load);
    assert m.meshes == c.meshes;
    DrawLocates(m, c.vertices, c.indices, o, i, instances);
  }

  /**
   * Draw `d` over the shared vertex list `vs` and index list `xs` draws
   * `shape`, `instances` times: its vertex offset lands on the shape's
   * vertices and its index range is the shape's whole triangles.
   */
  predicate DrawsShape(d: DrawIndexed, vs: seq<MB.Vertex>, xs: seq<U32>, shape: MB.Shape, instances: U32) {
    d.instanceCount == instances
    && d.vertexOffset >= 0 && d.vertexOffset + |shape.vertices| <= |vs|
    && vs[d.vertexOffset..d.vertexOffset + |shape.vertices|] == shape.vertices
    && d.firstIndex + d.indexCount <= |xs|
    && xs[d.firstIndex..d.firstIndex + d.indexCount] == shape.indices[..3 * MB.TriangleCount(shape)]
  }

  /** The draw of mesh `i` of a model whose records are those of `o`, over the shared lists of `o`. */
  lemma DrawLocates(m: Model, vs: seq<MB.Vertex>, xs: seq<U32>, o: MB.Obj, i: nat, instances: U32)
    requires i < |o.shapes| && MB.VertexTotal(o.shapes) < 0x8000_0000
    requires m.meshes == MB.Meshes(o) && vs == MB.AllVertices(o.shapes) && xs == MB.AllIndices(o.shapes)
    ensures DrawsShape(DrawModel(m, i, instances), vs, xs, o.shapes[i], instances)
  {
    var r := MB.MeshOf(o, i);
    assert m.meshes[i] == r;
    MB.MeshLocatesShape(o, i);
    assert ToInt32(r.vertexOffset) == r.vertexOffset;
  }

  /** The first material up to `k` whose diffuse name has the same hash as material `k`'s. */
  function FirstSameHash(names: seq<seq<Byte>>, k: nat): (j: nat)
    requires k < |names|
    ensures j <= k && Hashing.Hash(names[j]) == Hashing.Hash(names[k]) && MB.IsFirst(names, j)
  {
    SearchFrom(names, k, 0)
  }

  function SearchFrom(names: seq<seq<Byte>>, k: nat, j: nat): (r: nat)
    requires j <= k < |names|
    requires forall a :: 0 <= a < j ==> Hashing.Hash(names[a]) != Hashing.Hash(names[k])
    ensures j <= r <= k && Hashing.Hash(names[r]) == Hashing.Hash(names[k]) && MB.IsFirst(names, r)
    decreases k - j
  {
    if Hashing.Hash(names[j]) == Hashing.Hash(names[k]) then j else SearchFrom(names, k, j + 1)
  }

  /**
   * The diffuse texture of material `k` of a model loaded from an OBJ
   * file: NULL when the texture file of the first material sharing its
   * name's hash does not exist, and otherwise the texture loaded from that
   * file. Materials with the same name share one texture.
   */
  lemma LoadedDiffuseTexture(text: seq<Byte>, o: MB.Obj, dir: MB.CBytes, fileExists: MB.Path -> bool, load: Loader, k: nat)
    requires k < |o.diffuseNames|
    ensures var m := ModelOf(MB.ContentsOf(text, o, dir, fileExists), load);
            var path := MB.TexturePath(dir, o.diffuseNames[FirstSameHash(o.diffuseNames, k)]);
            k < |m.materials| && TextureIndexValid(m, k)
            && DiffuseTexture(m, k) == (if fileExists(path) then load(path) else None)
  {
    var names := o.diffuseNames;
    var t := MB.TextureTable(names, dir, fileExists);
    var j := FirstSameHash(names, k);
    MB.FirstDecides(names, dir, fileExists, j);
    var c := MB.ContentsOf(text, o, dir, fileExists);
    assert c.materials[k] == t.index[Hashing.Hash(names[j])];
  }

  /** With no two diffuse names sharing a hash, each material's texture is the one its own name gives. */
  lemma LoadedOwnTexture(text: seq<Byte>, o: MB.Obj, dir: MB.CBytes, fileExists: MB.Path -> bool, load: Loader, k: nat)
    requires k < |o.diffuseNames|
    requires forall a :: 0 <= a < k ==> Hashing.Hash(o.diffuseNames[a]) == Hashing.Hash(o.diffuseNames[k]) ==> o.diffuseNames[a] == o.diffuseNames[k]
    ensures var m := ModelOf(MB.ContentsOf(text, o, dir, fileExists), load);
            var path := MB.TexturePath(dir, o.diffuseNames[k]);
            k < |m.materials| && TextureIndexValid(m, k)
            && DiffuseTexture(m, k) == (if fileExists(path) then load(path) else None)
  {
    var names := o.diffuseNames;
    var j := FirstSameHash(names, k);
    assert names[j] == names[k] by {
      if j < k {
        assert Hashing.Hash(names[j]) == Hashing.Hash(names[k]);
      }
    }
    LoadedDiffuseTexture(text, o, dir, fileExists, load, k);
  }

  /**
   * The records of a model loaded from an OBJ file: one mesh per shape,
   * each with the shape's first material id (all ones for a shape without
   * one), and one material per diffuse name.
   */
  lemma LoadedRecords(text: seq<Byte>, o: MB.Obj, dir: MB.CBytes, fileExists: MB.Path -> bool, load: Loader, i: nat)
    requires i < |o.shapes|
    ensures var m := ModelOf(MB.ContentsOf(text, o, dir, fileExists), load);
            MeshCount(m) == |o.shapes| && |m.materials| == |o.diffuseNames|
            && (|o.shapes[i].materialIds| == 0 ==> MaterialIndexOf(m, i) == MB.NO_MATERIAL)
            && (|o.shapes[i].materialIds| > 0 ==> ToInt32(MaterialIndexOf(m, i)) == o.shapes[i].materialIds[0])
  {
    var c := MB.ContentsOf(text, o, dir, fileExists);
    assert c.meshes[i] == MB.MeshOf(o, i);
  }

  /** tinyobj's parse of an OBJ text, with the material directory it reads `.mtl` files from. */
  type Parser = (seq<Byte>, MB.CBytes) -> Option<MB.Obj>

  /** What `GfxLoadModel` returns, and why it returns NULL. */
  datatype ModelLoad =
    | Loaded(model: Model)
    /** Neither the OBJ file nor its blob could be read. */
    | Missing
    /** A blob had to be made and tinyobj could not parse the OBJ text. */
    | Unparsed
    /** The blob does not end where its records say: `CreateModel`'s end-of-stream assertion fails. */
    | Unreadable

  /** `material_dir ? material_dir : ""`. */
  function MaterialDir(dir: Option<MB.CBytes>): MB.CBytes {
    if dir.Some? then dir.value else []
  }

  /**
   * `GfxLoadModel`: read the OBJ file and the blob at its blob path; make
   * and write a new blob when the OBJ file was read and no blob carrying
   * its checksum was; otherwise use the blob as read. A write that fails
   * only prints, so the written file is not modelled as failing.
   */
  function LoadModel(files: AF.Files, path: GfxString.CText, dir: Option<MB.CBytes>, parse: Parser, fileExists: MB.Path -> bool, load: Loader): (r: (AF.Files, ModelLoad))
    ensures var source := AF.ReadFile(files, path);
            var blob := AF.ReadFile(files, BlobPath.BlobPathOf(path));
            (r.1 == Missing <==> source.None? && blob.None?)
            && (r.1 == Unparsed <==> AF.NeedsNewBlob(source, blob) && parse(source.value, MaterialDir(dir)).None?)
            && (r.0 != files ==> AF.NeedsNewBlob(source, blob))
            && (!AF.NeedsNewBlob(source, blob) && blob.Some? ==> r.1 == Outcome(CreateModel(blob.value, load)))
    ensures var source := AF.ReadFile(files, path);
            AF.NeedsNewBlob(source, AF.ReadFile(files, BlobPath.BlobPathOf(path))) && parse(source.value, MaterialDir(dir)).Some? ==>
              var c := MB.ContentsOf(source.value, parse(source.value, MaterialDir(dir)).value, MaterialDir(dir), fileExists);
              r == (files[BlobPath.BlobPathOf(path) := MB.Encode(c)], Loaded(ModelOf(c, load)))
  {
    var blobPath := BlobPath.BlobPathOf(path);
    var source := AF.ReadFile(files, path);
    var blob := AF.ReadFile(files, blobPath);
    if source.None? && blob.None? then (files, Missing)
    else if AF.NeedsNewBlob(source, blob) then
      var parsed := parse(source.value, MaterialDir(dir));
      var made := MB.CreateModelBlob(source.value, parsed, MaterialDir(dir), fileExists);
      assert parsed.Some? ==> |made| > 0 && CreateModel(made, load) == Some(ModelOf(MB.ContentsOf(source.value, parsed.value, MaterialDir(dir), fileExists), load)) by {
        if parsed.Some? {
          MB.ChecksumLeads(MB.ContentsOf(source.value, parsed.value, MaterialDir(dir), fileExists));
          BlobLoads(source.value, parsed.value, MaterialDir(dir), fileExists, load, made);
        }
      }
      if |made| == 0 then (files, Unparsed)
      else (files[blobPath := made], Outcome(CreateModel(made, load)))
    else (files, Outcome(CreateModel(blob.value, load)))
  }

  /** The load result for what `CreateModel` gave. */
  function Outcome(model: Option<Model>): (r: ModelLoad)
    ensures r.Loaded? <==> model.Some?
    ensures r.Loaded? ==> r.model == model.value
    ensures !r.Loaded? ==> r == Unreadable
  {
    if model.Some? then Loaded(model.value) else Unreadable
  }

  /**
   * A second load of a model that loaded reads the blob the first one
   * left, writes nothing and gives the same model. The path must be short
   * enough that its blob path is not the path itself.
   */
  lemma ReloadUsesBlob(files: AF.Files, path: GfxString.CText, dir: Option<MB.CBytes>, parse: Parser, fileExists: MB.Path -> bool, load: Loader)
    requires |path| + 10 <= BlobPath.FORMAT_LIMIT
    requires LoadModel(files, path, dir, parse, fileExists, load).1.Loaded?
    ensures var r := LoadModel(files, path, dir, parse, fileExists, load);
            LoadModel(r.0, path, dir, parse, fileExists, load) == r
  {
    var blobPath := BlobPath.BlobPathOf(path);
    var source := AF.ReadFile(files, path);
    var blob := AF.ReadFile(files, blobPath);
    if AF.NeedsNewBlob(source, blob) {
      var text := source.value;
      var o := parse(text, MaterialDir(dir)).value;
      var c := MB.ContentsOf(text, o, MaterialDir(dir), fileExists);
      BlobPath.BlobPathDiffers(path);
      MB.ChecksumLeads(c);
      var after := files[blobPath := MB.Encode(c)];
      assert AF.ReadFile(after, path) == source;
      assert AF.ReadFile(after, blobPath) == Some(MB.Encode(c));
      assert !AF.NeedsNewBlob(AF.ReadFile(after, path), AF.ReadFile(after, blobPath));
    }
  }
}
