/**
 * `CreateModel` and the model accessors of Source/GfxModel.cpp: reading a
 * model blob back into mesh records, material texture indices, textures
 * and the two GPU buffers, and the arguments the draw and bind calls take
 * from them.
 *
 * `GfxLoadTexture` is a parameter (`load`); a texture is a handle or NULL.
 * The GPU buffers are the bytes they are created from.
 */
module GfxModel {
  import opened Machine
  import opened Wrappers
  import S = GfxStream
  import MB = ModelBlob
  import Arith

  /** A texture handle, or NULL. */
  type Texture = Option<nat>

  /** `GfxLoadTexture` of a path. */
  type Loader = seq<Byte> -> Texture

  /** `GfxModelVertexAttribute`: position, texcoord and normal. */
  const ATTRIBUTE_COUNT: nat := 3

  /** `GfxModel_T`, its buffers given by their contents. */
  datatype Model = Model(
    meshes: seq<MB.Mesh>, materials: seq<I32>, textures: seq<Texture>,
    boundsMin: MB.Bits3, boundsMax: MB.Bits3, scale: U32,
    vertexOffsets: seq<nat>, vertexBuffer: seq<Byte>, indexBuffer: seq<Byte>)

  /** What `CreateModel` has read before the vertex data, and where the vertex data starts. */
  datatype Header = Header(
    meshes: seq<MB.Mesh>, materials: seq<I32>, paths: seq<seq<Byte>>,
    boundsMin: MB.Bits3, boundsMax: MB.Bits3, scale: U32, next: nat)

  /** A run of `Read*` calls; `None` when one would read past the end of the blob. */
  function Run(data: seq<Byte>, pos: nat, ks: seq<S.Kind>): (r: Option<S.RunRead>)
    ensures r.Some? ==> r.value.GotRun? && |r.value.fields| == |ks|
  {
    var run := S.ReadFields(data, pos, ks);
    if run.GotRun? then Some(run) else None
  }

  function Repeat(k: S.Kind, n: nat): (ks: seq<S.Kind>)
    ensures |ks| == n
  {
    seq(n, _ => k)
  }

  /** The value a `ReadUint32` returned. */
  function Count(f: S.Field): U32 {
    if f.FUint32? then f.u32 else 0
  }

  function Bits3Of(f: S.Field): MB.Bits3 {
    if f.FFloat3? then MB.Bits3(f.x, f.y, f.z) else MB.Bits3(0, 0, 0)
  }

  function FloatOf(f: S.Field): U32 {
    if f.FFloat? then f.bits else 0
  }

  /** Five `ReadUint32` values per record. */
  function MeshesOf(fs: seq<S.Field>, n: nat): (ms: seq<MB.Mesh>)
    requires |fs| == 5 * n
    ensures |ms| == n
  {
    seq(n, i requires 0 <= i < n =>
      MB.Mesh(Count(fs[5 * i]), Count(fs[5 * i + 1]), Count(fs[5 * i + 2]), Count(fs[5 * i + 3]), Count(fs[5 * i + 4])))
  }

  function IdsOf(fs: seq<S.Field>): (ids: seq<I32>)
    ensures |ids| == |fs|
  {
    seq(|fs|, k requires 0 <= k < |fs| => if fs[k].FInt32? then fs[k].i32 else 0)
  }

  function BlocksOf(fs: seq<S.Field>): (bs: seq<seq<Byte>>)
    ensures |bs| == |fs|
  {
    seq(|fs|, k requires 0 <= k < |fs| => if fs[k].FBlock? then fs[k].data else [])
  }

  /** The bounding box and the quantisation scale. */
  function ReadBounds(data: seq<Byte>, pos: nat): Option<Header> {
    var run :- Run(data, pos, [S.Float3, S.Float3, S.Float]);
    Some(Header([], [], [], Bits3Of(run.fields[0]), Bits3Of(run.fields[1]), FloatOf(run.fields[2]), run.next))
  }

  /** The texture count and one block per texture path, then the bounds. */
  function ReadTextures(data: seq<Byte>, pos: nat): Option<Header> {
    var count :- Run(data, pos, [S.Uint32]);
    var run :- Run(data, count.next, Repeat(S.Block, Count(count.fields[0])));
    var h :- ReadBounds(data, run.next);
    Some(h.(paths := BlocksOf(run.fields)))
  }

  /** The material count and one `ReadInt32` per material, then the textures. */
  function ReadMaterials(data: seq<Byte>, pos: nat): Option<Header> {
    var count :- Run(data, pos, [S.Uint32]);
    var run :- Run(data, count.next, Repeat(S.Int32, Count(count.fields[0])));
    var h :- ReadTextures(data, run.next);
    Some(h.(materials := IdsOf(run.fields)))
  }

  /** The checksum (skipped), the mesh count and the records, then the materials. */
  function ReadHeader(data: seq<Byte>): Option<Header> {
    var head :- Run(data, 0, [S.Uint64, S.Uint32]);
    var n := Count(head.fields[1]);
    var run :- Run(data, head.next, Repeat(S.Uint32, 5 * n));
    var h :- ReadMaterials(data, run.next);
    Some(h.(meshes := MeshesOf(run.fields, n)))
  }

  /** `total_vertex_count`: the `uint32_t` sum of the records' vertex counts. */
  function VertexCountSum(ms: seq<MB.Mesh>): U32 {
    if |ms| == 0 then 0 else Wrap32(VertexCountSum(ms[..|ms| - 1]) + ms[|ms| - 1].vertexCount)
  }

  /** `total_index_count`: the `uint32_t` sum of the records' index counts. */
  function IndexCountSum(ms: seq<MB.Mesh>): U32 {
    if |ms| == 0 then 0 else Wrap32(IndexCountSum(ms[..|ms| - 1]) + ms[|ms| - 1].indexCount)
  }

  /** Where each vertex attribute starts in the vertex buffer, and the buffer's size. */
  datatype Layout = Layout(offsets: seq<nat>, size: nat)

  /**
   * The attribute loop as written: `vertex_buffer_size` is a `uint32_t`, so
   * each addition of 8, 4 and 4 bytes per vertex is taken modulo 2^32.
   */
  function VertexLayoutAsWritten(total: U32): (l: Layout)
    ensures |l.offsets| == ATTRIBUTE_COUNT
    ensures l.size == Wrap32(16 * total)
  {
    var position := 0;
    var texcoord := Wrap32(position + 2 * 4 * total);
    var normal := Wrap32(texcoord + 2 * 2 * total);
    WrapAdd(8 * total, 4 * total);
    WrapAdd(12 * total, 4 * total);
    Layout([position, texcoord, normal], Wrap32(normal + 1 * 4 * total))
  }

  /** Wrapping a partial sum before adding more wraps the same as wrapping once. */
  lemma WrapAdd(x: int, y: int)
    ensures Wrap32(Wrap32(x) + y) == Wrap32(x + y)
  {
    assert x == x % TWO_32 + (x / TWO_32) * TWO_32;
    Arith.ModShift(x % TWO_32 + y, x / TWO_32, TWO_32);
  }

  /**
   * The attribute loop with a size wide enough for any `uint32_t` vertex
   * count: sixteen bytes per vertex, positions first and normals last.
   */
  function VertexLayout(total: U32): (l: Layout)
    ensures |l.offsets| == ATTRIBUTE_COUNT
    ensures l.size == 16 * total && l.offsets[0] == 0 && l.offsets[2] + 4 * total == l.size
  {
    Layout([0, 2 * 4 * total, 2 * 4 * total + 2 * 2 * total], 2 * 4 * total + 2 * 2 * total + 1 * 4 * total)
  }

  /** Below 2^28 vertices the two layouts agree. */
  lemma LayoutsAgree(total: U32)
    requires 16 * total < TWO_32
    ensures VertexLayoutAsWritten(total) == VertexLayout(total)
  {
  }

  /** Each block read as a C string, up to its first NUL. */
  function CStrings(blocks: seq<seq<Byte>>): (ss: seq<seq<Byte>>)
    ensures |ss| == |blocks|
  {
    seq(|blocks|, i requires 0 <= i < |blocks| => MB.UpToNul(blocks[i]))
  }

  /** `GfxLoadTexture` of each path, in order. */
  function LoadEach(paths: seq<seq<Byte>>, load: Loader): (ts: seq<Texture>)
    ensures |ts| == |paths|
  {
    seq(|paths|, i requires 0 <= i < |paths| => load(paths[i]))
  }

  /**
   * The rest of `CreateModel` after the header: the vertex buffer takes the
   * layout's size, the index buffer four bytes per index, and the stream
   * must then be at its end (the `ASSERT`, here `None`). Each texture is
   * loaded from the text of its block up to the terminator.
   */
  function Assemble(data: seq<Byte>, h: Header, load: Loader, layout: Layout, indexCount: U32): (r: Option<Model>)
    ensures r.Some? <==> h.next + layout.size + 4 * indexCount == |data|
    ensures r.Some? ==> |r.value.vertexBuffer| == layout.size && |r.value.indexBuffer| == 4 * indexCount
  {
    var vertexEnd := h.next + layout.size;
    if vertexEnd + 4 * indexCount != |data| then None
    else
      Some(Model(h.meshes, h.materials, LoadEach(CStrings(h.paths), load),
                 h.boundsMin, h.boundsMax, h.scale, layout.offsets, data[h.next..vertexEnd], data[vertexEnd..]))
  }

  /** `CreateModel` with a vertex buffer size that does not wrap. */
  function CreateModel(data: seq<Byte>, load: Loader): Option<Model> {
    var h :- ReadHeader(data);
    Assemble(data, h, load, VertexLayout(VertexCountSum(h.meshes)), IndexCountSum(h.meshes))
  }

  /** `CreateModel` as written, with the `uint32_t` vertex buffer size. */
  function CreateModelAsWritten(data: seq<Byte>, load: Loader): Option<Model> {
    var h :- ReadHeader(data);
    Assemble(data, h, load, VertexLayoutAsWritten(VertexCountSum(h.meshes)), IndexCountSum(h.meshes))
  }

  /** Reading the kinds `ks` from `pos` on gives the fields `fs` and stops at `end`. */
  predicate Reads(data: seq<Byte>, pos: nat, ks: seq<S.Kind>, fs: seq<S.Field>, end: nat) {
    S.ReadFields(data, pos, ks) == S.GotRun(fs, end)
  }

  lemma AppendSlices<T>(a: seq<T>, b: seq<T>)
    ensures (a + b)[..|a|] == a && (a + b)[|a|..] == b
  {
  }

  /** Reading a run of kinds `k1` then `k2` reads the fields of `k1`, then those of `k2` from where they end. */
  lemma RunThen(data: seq<Byte>, pos: nat, k1: seq<S.Kind>, k2: seq<S.Kind>, f1: seq<S.Field>, f2: seq<S.Field>, mid: nat, end: nat)
    requires |f1| == |k1| && mid == pos + S.SizeAll(f1)
    requires Reads(data, pos, k1 + k2, f1 + f2, end)
    ensures Reads(data, pos, k1, f1, mid)
    ensures Reads(data, mid, k2, f2, end)
  {
    S.ReadFieldsSplit(data, pos, k1, k2);
    AppendSlices(f1, f2);
    S.ReadFieldsKinds(data, pos, k1);
  }

  /** A run of fields of one kind has that kind repeated. */
  lemma KindsUniform(fs: seq<S.Field>, k: S.Kind)
    requires forall i :: 0 <= i < |fs| ==> S.KindOf(fs[i]) == k
    ensures S.KindsOf(fs) == Repeat(k, |fs|)
  {
    S.KindsOfAt(fs);
  }

  /** The blocks the path fields hold: each path and its terminator. */
  function Terminated(paths: seq<MB.Path>): (bs: seq<seq<Byte>>)
    ensures |bs| == |paths|
  {
    seq(|paths|, i requires 0 <= i < |paths| => paths[i] + [0])
  }

  /** The kinds `ReadBounds` reads. */
  const BOUNDS_KINDS: seq<S.Kind> := [S.Float3, S.Float3, S.Float]

  lemma ReadBoundsFrom(data: seq<Byte>, pos: nat, lo: MB.Bits3, hi: MB.Bits3, scale: U32, end: nat)
    requires Reads(data, pos, BOUNDS_KINDS, MB.BoundsFields(lo, hi, scale), end)
    ensures ReadBounds(data, pos) == Some(Header([], [], [], lo, hi, scale, end))
  {
  }

  lemma BlocksRead(paths: seq<MB.Path>)
    ensures BlocksOf(MB.PathFields(paths)) == Terminated(paths)
  {
  }

  lemma IdsRead(ids: seq<I32>)
    ensures IdsOf(MB.MaterialFields(ids)) == ids
  {
  }

  /** `ReadTextures` from the results of its three reads. */
  lemma TexturesStep(data: seq<Byte>, pos: nat, n: U32, fs: seq<S.Field>, mid: nat, h: Header)
    requires Reads(data, pos, [S.Uint32], [S.FUint32(n)], pos + 4)
    requires Reads(data, pos + 4, Repeat(S.Block, n), fs, mid)
    requires ReadBounds(data, mid) == Some(h)
    ensures ReadTextures(data, pos) == Some(h.(paths := BlocksOf(fs)))
  {
  }

  /** `ReadMaterials` from the results of its three reads. */
  lemma MaterialsStep(data: seq<Byte>, pos: nat, n: U32, fs: seq<S.Field>, mid: nat, h: Header)
    requires Reads(data, pos, [S.Uint32], [S.FUint32(n)], pos + 4)
    requires Reads(data, pos + 4, Repeat(S.Int32, n), fs, mid)
    requires ReadTextures(data, mid) == Some(h)
    ensures ReadMaterials(data, pos) == Some(h.(materials := IdsOf(fs)))
  {
  }

  /** `ReadHeader` from the results of its three reads. */
  lemma HeaderStep(data: seq<Byte>, checksum: U64, n: U32, fs: seq<S.Field>, mid: nat, h: Header)
    requires Reads(data, 0, [S.Uint64, S.Uint32], [S.FUint64(checksum), S.FUint32(n)], 12)
    requires Reads(data, 12, Repeat(S.Uint32, 5 * n), fs, mid)
    requires ReadMaterials(data, mid) == Some(h)
    ensures |fs| == 5 * n
    ensures ReadHeader(data) == Some(h.(meshes := MeshesOf(fs, n)))
  {
  }

  /** A count field is four bytes. */
  lemma CountSize(n: U32)
    ensures S.SizeAll([S.FUint32(n)]) == 4
  {
    MB.SizeOfOne(S.FUint32(n));
  }

  /** The checksum and the mesh count are twelve bytes. */
  lemma HeadSize(checksum: U64, n: U32)
    ensures S.SizeAll([S.FUint64(checksum), S.FUint32(n)]) == 12
  {
    MB.SizeOfTwo(S.FUint64(checksum), S.FUint32(n));
  }

  /** The kinds of the texture part of a blob. */
  function TextureKinds(n: nat): seq<S.Kind> {
    [S.Uint32] + (Repeat(S.Block, n) + BOUNDS_KINDS)
  }

  /** The kinds of the material part of a blob, textures included. */
  function MaterialKinds(m: nat, n: nat): seq<S.Kind> {
    [S.Uint32] + (Repeat(S.Int32, m) + TextureKinds(n))
  }

  lemma ReadTexturesFrom(data: seq<Byte>, pos: nat, paths: seq<MB.Path>, lo: MB.Bits3, hi: MB.Bits3, scale: U32, end: nat)
    requires |paths| < TWO_32
    requires Reads(data, pos, TextureKinds(|paths|), [S.FUint32(|paths|)] + (MB.PathFields(paths) + MB.BoundsFields(lo, hi, scale)), end)
    ensures ReadTextures(data, pos) == Some(Header([], [], Terminated(paths), lo, hi, scale, end))
  {
    var n := |paths|;
    var fs := MB.PathFields(paths);
    var bounds := MB.BoundsFields(lo, hi, scale);
    var start := pos + 4;
    CountSize(n);
    RunThen(data, pos, [S.Uint32], Repeat(S.Block, n) + BOUNDS_KINDS, [S.FUint32(n)], fs + bounds, start, end);
    var mid := start + S.SizeAll(fs);
    RunThen(data, start, Repeat(S.Block, n), BOUNDS_KINDS, fs, bounds, mid, end);
    ReadBoundsFrom(data, mid, lo, hi, scale, end);
    BlocksRead(paths);
    TexturesStep(data, pos, n, fs, mid, Header([], [], [], lo, hi, scale, end));
  }

  lemma ReadMaterialsFrom(data: seq<Byte>, pos: nat, ids: seq<I32>, paths: seq<MB.Path>, lo: MB.Bits3, hi: MB.Bits3, scale: U32, end: nat)
    requires |ids| < TWO_32 && |paths| < TWO_32
    requires Reads(data, pos, MaterialKinds(|ids|, |paths|),
                   [S.FUint32(|ids|)] + (MB.MaterialFields(ids) + ([S.FUint32(|paths|)] + (MB.PathFields(paths) + MB.BoundsFields(lo, hi, scale)))), end)
    ensures ReadMaterials(data, pos) == Some(Header([], ids, Terminated(paths), lo, hi, scale, end))
  {
    var n := |ids|;
    var fs := MB.MaterialFields(ids);
    var after := [S.FUint32(|paths|)] + (MB.PathFields(paths) + MB.BoundsFields(lo, hi, scale));
    var start := pos + 4;
    CountSize(n);
    RunThen(data, pos, [S.Uint32], Repeat(S.Int32, n) + TextureKinds(|paths|), [S.FUint32(n)], fs + after, start, end);
    var mid := start + S.SizeAll(fs);
    RunThen(data, start, Repeat(S.Int32, n), TextureKinds(|paths|), fs, after, mid, end);
    ReadTexturesFrom(data, mid, paths, lo, hi, scale, end);
    IdsRead(ids);
    MaterialsStep(data, pos, n, fs, mid, Header([], [], Terminated(paths), lo, hi, scale, end));
  }

  /** Word `j` of mesh record `i` is field `5 * i + j`. */
  lemma MeshFieldAt(ms: seq<MB.Mesh>, i: nat, j: nat)
    requires i < |ms| && j < 5
    ensures 5 * i + j < 5 * |ms| && Count(MB.MeshFields(ms)[5 * i + j]) == MB.MeshWord(ms[i], j)
  {
    Arith.DivModUnique(5 * i + j, i, j, 5);
  }

  /** Mesh record `i` reads back from its five fields. */
  lemma MeshRead(ms: seq<MB.Mesh>, i: nat)
    requires i < |ms|
    ensures MeshesOf(MB.MeshFields(ms), |ms|)[i] == ms[i]
  {
    var fs := MB.MeshFields(ms);
    assert MeshesOf(fs, |ms|)[i] == MB.Mesh(Count(fs[5 * i]), Count(fs[5 * i + 1]), Count(fs[5 * i + 2]), Count(fs[5 * i + 3]), Count(fs[5 * i + 4]));
    MeshFieldAt(ms, i, 0);
    MeshFieldAt(ms, i, 1);
    MeshFieldAt(ms, i, 2);
    MeshFieldAt(ms, i, 3);
    MeshFieldAt(ms, i, 4);
  }

  /** The mesh records read back from their fields. */
  lemma MeshesRead(ms: seq<MB.Mesh>)
    ensures MeshesOf(MB.MeshFields(ms), |ms|) == ms
  {
    forall i | 0 <= i < |ms|
      ensures MeshesOf(MB.MeshFields(ms), |ms|)[i] == ms[i]
    {
      MeshRead(ms, i);
    }
  }

  /** The kinds of the front of a blob. */
  function FrontKinds(c: MB.Contents): seq<S.Kind> {
    [S.Uint64, S.Uint32] + (Repeat(S.Uint32, 5 * |c.meshes|) + MaterialKinds(|c.materials|, |c.paths|))
  }

  /** A count field followed by fields of one kind and then `rest`: its kinds. */
  lemma CountedKinds(n: U32, fs: seq<S.Field>, k: S.Kind, rest: seq<S.Field>)
    requires forall i :: 0 <= i < |fs| ==> S.KindOf(fs[i]) == k
    ensures S.KindsOf([S.FUint32(n)] + (fs + rest)) == [S.Uint32] + (Repeat(k, |fs|) + S.KindsOf(rest))
  {
    KindsUniform(fs, k);
    S.KindsOfAppend(fs, rest);
    S.KindsOfAppend([S.FUint32(n)], fs + rest);
    S.KindsOfAt([S.FUint32(n)]);
  }

  lemma TextureKindsOf(paths: seq<MB.Path>, lo: MB.Bits3, hi: MB.Bits3, scale: U32)
    requires |paths| < TWO_32
    ensures S.KindsOf([S.FUint32(|paths|)] + (MB.PathFields(paths) + MB.BoundsFields(lo, hi, scale))) == TextureKinds(|paths|)
  {
    CountedKinds(|paths|, MB.PathFields(paths), S.Block, MB.BoundsFields(lo, hi, scale));
    S.KindsOfAt(MB.BoundsFields(lo, hi, scale));
  }

  lemma MaterialKindsOf(ids: seq<I32>, paths: seq<MB.Path>, lo: MB.Bits3, hi: MB.Bits3, scale: U32)
    requires |ids| < TWO_32 && |paths| < TWO_32
    ensures S.KindsOf([S.FUint32(|ids|)] + (MB.MaterialFields(ids) + ([S.FUint32(|paths|)] + (MB.PathFields(paths) + MB.BoundsFields(lo, hi, scale)))))
            == MaterialKinds(|ids|, |paths|)
  {
    TextureKindsOf(paths, lo, hi, scale);
    CountedKinds(|ids|, MB.MaterialFields(ids), S.Int32, [S.FUint32(|paths|)] + (MB.PathFields(paths) + MB.BoundsFields(lo, hi, scale)));
  }

  lemma MeshKinds(ms: seq<MB.Mesh>)
    ensures S.KindsOf(MB.MeshFields(ms)) == Repeat(S.Uint32, 5 * |ms|)
  {
    KindsUniform(MB.MeshFields(ms), S.Uint32);
  }

  /** The front of a blob has the kinds `ReadHeader` reads. */
  lemma FrontKindsOf(c: MB.Storable)
    ensures S.KindsOf(MB.PartsOf(c).Front()) == FrontKinds(c)
  {
    var p := MB.PartsOf(c);
    var after := p.materialCount + (p.materials + (p.textureCount + (p.paths + p.bounds)));
    var tail := MaterialKinds(|c.materials|, |c.paths|);
    MaterialKindsOf(c.materials, c.paths, c.boundsMin, c.boundsMax, c.scale);
    assert S.KindsOf(after) == tail;
    MeshKinds(c.meshes);
    S.KindsOfAppend(p.meshes, after);
    assert S.KindsOf(p.meshes + after) == Repeat(S.Uint32, 5 * |c.meshes|) + tail;
    S.KindsOfAppend(p.head, p.meshes + after);
    S.KindsOfAt(p.head);
    assert S.KindsOf(p.head) == [S.Uint64, S.Uint32];
  }

  /** The bytes of a blob before its vertex data. */
  function HeaderSize(c: MB.Contents): nat {
    8 + 4 + 20 * |c.meshes| + 4 + 4 * |c.materials| + 4 + MB.PathBytes(c.paths) + 28
  }

  /** The fields of a blob after its mesh records. */
  function AfterMeshes(c: MB.Storable): seq<S.Field> {
    [S.FUint32(|c.materials|)] + (MB.MaterialFields(c.materials) + ([S.FUint32(|c.paths|)] + (MB.PathFields(c.paths) + MB.BoundsFields(c.boundsMin, c.boundsMax, c.scale))))
  }

  /** The runs of the front of a blob: the head, the mesh records and the rest. */
  lemma HeaderRuns(data: seq<Byte>, c: MB.Storable, end: nat)
    requires Reads(data, 0, FrontKinds(c), MB.PartsOf(c).Front(), end)
    ensures Reads(data, 0, [S.Uint64, S.Uint32], [S.FUint64(c.checksum), S.FUint32(|c.meshes|)], 12)
    ensures Reads(data, 12, Repeat(S.Uint32, 5 * |c.meshes|), MB.MeshFields(c.meshes), 12 + S.SizeAll(MB.MeshFields(c.meshes)))
    ensures Reads(data, 12 + S.SizeAll(MB.MeshFields(c.meshes)), MaterialKinds(|c.materials|, |c.paths|), AfterMeshes(c), end)
  {
    var head := [S.FUint64(c.checksum), S.FUint32(|c.meshes|)];
    var ms := MB.MeshFields(c.meshes);
    HeadSize(c.checksum, |c.meshes|);
    RunThen(data, 0, [S.Uint64, S.Uint32], Repeat(S.Uint32, 5 * |c.meshes|) + MaterialKinds(|c.materials|, |c.paths|), head, ms + AfterMeshes(c), 12, end);
    RunThen(data, 12, Repeat(S.Uint32, 5 * |c.meshes|), MaterialKinds(|c.materials|, |c.paths|), ms, AfterMeshes(c), 12 + S.SizeAll(ms), end);
  }

  /** `CreateModel` reads back the front of a blob: the records, the material indices and the terminated paths. */
  lemma ReadHeaderFrom(data: seq<Byte>, c: MB.Storable, end: nat)
    requires Reads(data, 0, FrontKinds(c), MB.PartsOf(c).Front(), end)
    ensures ReadHeader(data) == Some(Header(c.meshes, c.materials, Terminated(c.paths), c.boundsMin, c.boundsMax, c.scale, end))
  {
    var mid := 12 + S.SizeAll(MB.MeshFields(c.meshes));
    HeaderRuns(data, c, end);
    ReadMaterialsFrom(data, mid, c.materials, c.paths, c.boundsMin, c.boundsMax, c.scale, end);
    MeshesRead(c.meshes);
    HeaderStep(data, c.checksum, |c.meshes|, MB.MeshFields(c.meshes), mid, Header([], c.materials, Terminated(c.paths), c.boundsMin, c.boundsMax, c.scale, end));
  }

  /** The bytes of a blob: its front, then the vertex data, then the indices. */
  lemma BlobSplit(c: MB.Storable)
    ensures var p := MB.PartsOf(c);
            MB.Encode(c) == S.EncodeAll(p.Front()) + (S.EncodeAll(p.vertices) + S.EncodeAll(p.indices))
            && |S.EncodeAll(p.Front())| == HeaderSize(c) == S.SizeAll(p.Front())
            && |S.EncodeAll(p.vertices)| == 16 * |c.vertices| && |S.EncodeAll(p.indices)| == 4 * |c.indices|
  {
    var p := MB.PartsOf(c);
    S.EncodeAllAppend(p.Front(), p.Back());
    S.EncodeAllAppend(p.vertices, p.indices);
    S.SizeAllIsLength(p.Front());
    S.SizeAllIsLength(p.vertices);
    S.SizeAllIsLength(p.indices);
    MB.PartsSize(p);
    MB.PartSizes(c, p);
  }

  /** `CreateModel` reads the front of a blob as it was written. */
  lemma FrontRead(c: MB.Storable)
    ensures Reads(MB.Encode(c), 0, FrontKinds(c), MB.PartsOf(c).Front(), HeaderSize(c))
  {
    var p := MB.PartsOf(c);
    BlobSplit(c);
    AppendSlices(S.EncodeAll(p.Front()), S.EncodeAll(p.vertices) + S.EncodeAll(p.indices));
    S.ReadFieldsAt(MB.Encode(c), 0, p.Front());
    FrontKindsOf(c);
  }

  /** The record totals match the vertex and index data, as `CreateModelBlob` writes them. */
  predicate Consistent(c: MB.Contents) {
    VertexCountSum(c.meshes) == |c.vertices| && IndexCountSum(c.meshes) == |c.indices|
  }

  /**
   * The model a blob of `c` describes: its records, material indices and
   * bounds, one texture loaded per path, the positions, texture
   * coordinates and normals one after the other in the vertex buffer, and
   * the indices in the index buffer.
   */
  function ModelOf(c: MB.Contents, load: Loader): Model {
    var v := |c.vertices|;
    Model(c.meshes, c.materials, LoadEach(c.paths, load),
          c.boundsMin, c.boundsMax, c.scale, [0, 8 * v, 12 * v],
          S.EncodeAll(MB.VertexData(c.vertices)), S.EncodeAll(MB.IndexFields(c.indices)))
  }

  /** Each path reads back from its block without the terminator. */
  lemma PathsReadBack(paths: seq<MB.Path>)
    ensures CStrings(Terminated(paths)) == paths
  {
    forall i | 0 <= i < |paths|
      ensures MB.UpToNul(Terminated(paths)[i]) == paths[i]
    {
      MB.UpToTerminator(paths[i]);
    }
  }

  /** The header of a blob reads back as written, ending where the vertex data starts. */
  lemma HeaderReadsBack(c: MB.Storable)
    ensures ReadHeader(MB.Encode(c)) == Some(Header(c.meshes, c.materials, Terminated(c.paths), c.boundsMin, c.boundsMax, c.scale, HeaderSize(c)))
  {
    FrontRead(c);
    ReadHeaderFrom(MB.Encode(c), c, HeaderSize(c));
  }

  /** After the header, a blob holds the vertex data and then the indices. */
  lemma BuffersReadBack(c: MB.Storable)
    ensures var data := MB.Encode(c);
            var vertexEnd := HeaderSize(c) + 16 * |c.vertices|;
            |data| == vertexEnd + 4 * |c.indices|
            && data[HeaderSize(c)..vertexEnd] == S.EncodeAll(MB.VertexData(c.vertices))
            && data[vertexEnd..] == S.EncodeAll(MB.IndexFields(c.indices))
  {
    var p := MB.PartsOf(c);
    BlobSplit(c);
    var vb := S.EncodeAll(p.vertices);
    AppendSlices(S.EncodeAll(p.Front()), vb + S.EncodeAll(p.indices));
    AppendSlices(vb, S.EncodeAll(p.indices));
  }

  /** `CreateModel` once its header has been read. */
  lemma CreateFromHeader(data: seq<Byte>, h: Header, load: Loader)
    requires ReadHeader(data) == Some(h)
    ensures CreateModel(data, load) == Assemble(data, h, load, VertexLayout(VertexCountSum(h.meshes)), IndexCountSum(h.meshes))
  {
  }

  /** The rest of `CreateModel` on bytes holding the buffers of `c` after its header. */
  lemma AssembleBack(data: seq<Byte>, c: MB.Storable, load: Loader)
    requires |c.vertices| < TWO_32 && |c.indices| < TWO_32
    requires var vertexEnd := HeaderSize(c) + 16 * |c.vertices|;
             |data| == vertexEnd + 4 * |c.indices|
             && data[HeaderSize(c)..vertexEnd] == S.EncodeAll(MB.VertexData(c.vertices))
             && data[vertexEnd..] == S.EncodeAll(MB.IndexFields(c.indices))
    ensures var h := Header(c.meshes, c.materials, Terminated(c.paths), c.boundsMin, c.boundsMax, c.scale, HeaderSize(c));
            Assemble(data, h, load, VertexLayout(|c.vertices|), |c.indices|) == Some(ModelOf(c, load))
  {
    var h := Header(c.meshes, c.materials, Terminated(c.paths), c.boundsMin, c.boundsMax, c.scale, HeaderSize(c));
    var layout := VertexLayout(|c.vertices|);
    assert layout.size == 16 * |c.vertices|;
    assert layout.offsets == [0, 8 * |c.vertices|, 12 * |c.vertices|];
    PathsReadBack(c.paths);
  }

  /**
   * `CreateModel` reads back what `CreateModelBlob` wrote: the blob of
   * contents whose record totals match their data gives their model.
   */
  lemma ReadsBack(c: MB.Storable, load: Loader, blob: seq<Byte>)
    requires Consistent(c)
    requires blob == MB.Encode(c)
    ensures CreateModel(blob, load) == Some(ModelOf(c, load))
  {
    HeaderReadsBack(c);
    CreateFromHeader(MB.Encode(c), Header(c.meshes, c.materials, Terminated(c.paths), c.boundsMin, c.boundsMax, c.scale, HeaderSize(c)), load);
    BuffersReadBack(c);
    AssembleBack(MB.Encode(c), c, load);
  }

  /**
   * Records that count the vertices and whole triangles of their shapes
   * have `uint32_t` totals equal to the shapes' totals when those fit.
   */
  lemma {:induction false} SumsMatch(ms: seq<MB.Mesh>, shapes: seq<MB.Shape>)
    requires |ms| == |shapes|
    requires forall i :: 0 <= i < |ms| ==> ms[i].vertexCount == |shapes[i].vertices| && ms[i].indexCount == 3 * MB.TriangleCount(shapes[i])
    requires MB.VertexTotal(shapes) < TWO_32 && 3 * MB.TriangleTotal(shapes) < TWO_32
    ensures VertexCountSum(ms) == MB.VertexTotal(shapes) && IndexCountSum(ms) == 3 * MB.TriangleTotal(shapes)
    decreases |ms|
  {
    if |ms| > 0 {
      var n := |ms| - 1;
      MB.TotalsGrow(shapes, n);
      SumsMatch(ms[..n], shapes[..n]);
      SumStep(VertexCountSum(ms[..n]), ms[n].vertexCount, MB.VertexTotal(shapes));
      SumStep(IndexCountSum(ms[..n]), ms[n].indexCount, 3 * MB.TriangleTotal(shapes));
    }
  }

  /** A `uint32_t` addition whose sum fits does not wrap. */
  lemma SumStep(a: nat, b: nat, total: nat)
    requires a + b == total < TWO_32
    ensures Wrap32(a + b) == total
  {
  }

  /** The blob `CreateModelBlob` writes for an OBJ file has record totals that match its data. */
  lemma ContentsConsistent(text: seq<Byte>, o: MB.Obj, dir: MB.CBytes, fileExists: MB.Path -> bool)
    ensures Consistent(MB.ContentsOf(text, o, dir, fileExists))
  {
    forall i | 0 <= i < |o.shapes|
      ensures MB.Meshes(o)[i].vertexCount == |o.shapes[i].vertices| && MB.Meshes(o)[i].indexCount == 3 * MB.TriangleCount(o.shapes[i])
    {
      assert MB.Meshes(o)[i] == MB.MeshOf(o, i);
    }
    SumsMatch(MB.Meshes(o), o.shapes);
  }

  /** `CreateModel` of the blob written for a parsed OBJ file gives the model of what was written. */
  lemma BlobLoads(text: seq<Byte>, o: MB.Obj, dir: MB.CBytes, fileExists: MB.Path -> bool, load: Loader, blob: seq<Byte>)
    requires blob == MB.CreateModelBlob(text, Some(o), dir, fileExists)
    ensures CreateModel(blob, load) == Some(ModelOf(MB.ContentsOf(text, o, dir, fileExists), load))
  {
    ContentsConsistent(text, o, dir, fileExists);
    ReadsBack(MB.ContentsOf(text, o, dir, fileExists), load, blob);
  }

  /** At 2^28 vertices the `uint32_t` vertex buffer size wraps to zero, where 2^32 bytes are needed. */
  lemma LayoutWrapsAt()
    ensures VertexLayoutAsWritten(0x1000_0000).size == 0
    ensures VertexLayout(0x1000_0000).size == TWO_32
  {
    assert Wrap32(0x8000_0000) == 0x8000_0000;
    assert Wrap32(0xC000_0000) == 0xC000_0000;
    assert Wrap32(TWO_32) == 0;
  }

  /**
   * As written, `CreateModel` trips its end-of-stream check on every
   * consistent blob with 2^28 vertices or more: the wrapped vertex buffer
   * size leaves bytes unread.
   */
  lemma AsWrittenRejectsLarge(c: MB.Storable, load: Loader)
    requires Consistent(c) && 16 * |c.vertices| >= TWO_32
    ensures CreateModelAsWritten(MB.Encode(c), load).None?
    ensures CreateModel(MB.Encode(c), load).Some?
  {
    HeaderReadsBack(c);
    BuffersReadBack(c);
    ReadsBack(c, load, MB.Encode(c));
  }

  /** Below 2^28 vertices the code as written reads every consistent blob as intended. */
  lemma AsWrittenAgrees(c: MB.Storable, load: Loader)
    requires Consistent(c) && 16 * |c.vertices| < TWO_32
    ensures CreateModelAsWritten(MB.Encode(c), load) == CreateModel(MB.Encode(c), load)
  {
    HeaderReadsBack(c);
    LayoutsAgree(|c.vertices|);
  }}
