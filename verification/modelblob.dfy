/**
 * What `CreateModelBlob` in Source/GfxModel.cpp writes for an OBJ file:
 * one record per shape locating its vertices and indices in two shared
 * buffers, one texture index per material (a table shares the texture
 * files between materials), the texture paths, and then the vertex and
 * index data.
 *
 * tinyobj's parse is an input (`Obj`). So are the float-derived parts:
 * each vertex arrives already quantised (RGBM16 position, packed half
 * texcoord, RGBA8 normal), and the bounding box and quantisation scale
 * arrive as the bit patterns of their floats. Whether a texture file exists
 * is a parameter (`fileExists`).
 */
module ModelBlob {
  import opened Machine
  import opened Wrappers
  import Hashing
  import S = GfxStream
  import BlobPath

  /** A vertex as the blob stores it: RGBM16 position, half2 texcoord, RGBA8 normal. */
  datatype Vertex = Vertex(px: U16, py: U16, pz: U16, pm: U16, texcoord: U32, nx: Byte, ny: Byte, nz: Byte, nw: Byte)

  /** A tinyobj shape: its vertices, its index list (three per triangle) and its per-face material ids. */
  datatype Shape = Shape(vertices: seq<Vertex>, indices: seq<U32>, materialIds: seq<I32>)

  /** The bits of a `float[3]`. */
  datatype Bits3 = Bits3(x: U32, y: U32, z: U32)

  /** A parsed OBJ file: shapes, the diffuse texture name of each material, bounding box and scale. */
  datatype ObjData = ObjData(shapes: seq<Shape>, diffuseNames: seq<seq<Byte>>, boundsMin: Bits3, boundsMax: Bits3, scale: U32)

  /** `mesh.indices.size() / 3`: a trailing partial triangle is dropped. */
  function TriangleCount(s: Shape): nat {
    |s.indices| / 3
  }

  /** The vertices of all shapes together. */
  function VertexTotal(shapes: seq<Shape>): nat {
    if |shapes| == 0 then 0 else VertexTotal(shapes[..|shapes| - 1]) + |shapes[|shapes| - 1].vertices|
  }

  /** The triangles of all shapes together. */
  function TriangleTotal(shapes: seq<Shape>): nat {
    if |shapes| == 0 then 0 else TriangleTotal(shapes[..|shapes| - 1]) + TriangleCount(shapes[|shapes| - 1])
  }

  /**
   * The counts the writer keeps in `uint32_t` (shape count, running vertex
   * offset, index offset) and in `int32_t` (texture index) fit those types.
   */
  predicate Fits(o: ObjData) {
    |o.shapes| < TWO_32 && VertexTotal(o.shapes) < TWO_32 && 3 * TriangleTotal(o.shapes) < TWO_32
    && |o.diffuseNames| < 0x8000_0000
  }

  /** An OBJ file whose counts fit the writer's integer types. */
  type Obj = o: ObjData | Fits(o) witness ObjData([], [], Bits3(0, 0, 0), Bits3(0, 0, 0), 0)

  /** The shapes before `i` hold no more vertices or triangles than all of them. */
  lemma {:induction false} TotalsGrow(shapes: seq<Shape>, i: nat)
    requires i <= |shapes|
    ensures VertexTotal(shapes[..i]) <= VertexTotal(shapes)
    ensures TriangleTotal(shapes[..i]) <= TriangleTotal(shapes)
    decreases |shapes|
  {
    if i < |shapes| {
      var init := shapes[..|shapes| - 1];
      assert init[..i] == shapes[..i];
      TotalsGrow(init, i);
    } else {
      assert shapes[..i] == shapes;
    }
  }

  /** One more shape adds its own vertices and triangles. */
  lemma NextPrefix(shapes: seq<Shape>, i: nat)
    requires i < |shapes|
    ensures VertexTotal(shapes[..i + 1]) == VertexTotal(shapes[..i]) + |shapes[i].vertices|
    ensures TriangleTotal(shapes[..i + 1]) == TriangleTotal(shapes[..i]) + TriangleCount(shapes[i])
  {
    assert shapes[..i + 1][..i] == shapes[..i];
  }

  /** `GfxModel_T::Mesh`. */
  datatype Mesh = Mesh(materialIndex: U32, vertexOffset: U32, vertexCount: U32, indexOffset: U32, indexCount: U32)

  /** The material index of a shape without material ids. */
  const NO_MATERIAL: U32 := 0xffff_ffff

  /** The first material id written as a `uint32_t`, or `NO_MATERIAL` when there is none. */
  function MaterialIndex(s: Shape): (m: U32)
    ensures |s.materialIds| == 0 ==> m == NO_MATERIAL
    ensures |s.materialIds| > 0 ==> ToInt32(m) == s.materialIds[0]
  {
    if |s.materialIds| == 0 then NO_MATERIAL else FromInt32(s.materialIds[0])
  }

  /**
   * Shape `i`'s record: its vertices start after those of the shapes before
   * it, its indices after their indices, and it covers its own vertices and
   * three indices per triangle.
   */
  function MeshOf(o: Obj, i: nat): Mesh
    requires i < |o.shapes|
  {
    TotalsGrow(o.shapes, i + 1);
    NextPrefix(o.shapes, i);
    Mesh(MaterialIndex(o.shapes[i]), VertexTotal(o.shapes[..i]), |o.shapes[i].vertices|,
         3 * TriangleTotal(o.shapes[..i]), 3 * TriangleCount(o.shapes[i]))
  }

  /** The records of all shapes, in order. */
  function Meshes(o: Obj): (ms: seq<Mesh>)
    ensures |ms| == |o.shapes|
  {
    seq(|o.shapes|, i requires 0 <= i < |o.shapes| => MeshOf(o, i))
  }

  /**
   * The record loop of `CreateModelBlob`, with its running vertex and
   * triangle offsets: each record holds the prefix totals of the shapes
   * before it.
   */
  method MeshRecords(o: Obj) returns (meshes: seq<Mesh>)
    ensures |meshes| == |o.shapes|
    ensures forall i :: 0 <= i < |meshes| ==>
              meshes[i].vertexOffset == VertexTotal(o.shapes[..i])
              && meshes[i].indexOffset == 3 * TriangleTotal(o.shapes[..i])
              && meshes[i].vertexCount == |o.shapes[i].vertices|
              && meshes[i].indexCount == 3 * TriangleCount(o.shapes[i])
              && meshes[i].materialIndex == MaterialIndex(o.shapes[i])
    ensures meshes == Meshes(o)
  {
    var shapes := o.shapes;
    meshes := [];
    var vertexOffset: U32, triangleOffset: nat := 0, 0;
    var i := 0;
    while i < |shapes|
      invariant i <= |shapes| && |meshes| == i
      invariant vertexOffset == VertexTotal(shapes[..i]) && triangleOffset == TriangleTotal(shapes[..i])
      invariant forall k :: 0 <= k < i ==> meshes[k] == MeshOf(o, k)
    {
      TotalsGrow(shapes, i + 1);
      NextPrefix(shapes, i);
      var vertexCount := |shapes[i].vertices|;
      var triangleCount := |shapes[i].indices| / 3;
      meshes := meshes + [Mesh(MaterialIndex(shapes[i]), vertexOffset, vertexCount, triangleOffset * 3, triangleCount * 3)];
      vertexOffset := vertexOffset + vertexCount;
      triangleOffset := triangleOffset + triangleCount;
      i := i + 1;
    }
    assert shapes[..i] == shapes;
  }

  /** Text a `const char*` carries: no NUL byte. */
  type CBytes = s: seq<Byte> | 0 !in s

  /** A formatted texture path: a C string of at most `FORMAT_LIMIT` bytes. */
  type Path = p: seq<Byte> | 0 !in p && |p| <= BlobPath.FORMAT_LIMIT

  /** `c_str()` read as a C string: the bytes before the first NUL. */
  function UpToNul(s: seq<Byte>): (r: CBytes)
    ensures |r| <= |s| && r == s[..|r|]
    ensures |r| < |s| ==> s[|r|] == 0
  {
    if |s| == 0 || s[0] == 0 then [] else [s[0]] + UpToNul(s[1..])
  }

  /** A C string ends at its terminator. */
  lemma UpToTerminator(p: CBytes)
    ensures UpToNul(p + [0]) == p
  {
    var q := p + [0];
    assert q[..|p|] == p && q[|p|] == 0;
    assert forall i :: 0 <= i < |p| ==> q[i] == p[i] && p[i] != 0;
  }

  /** `String filepath("%s%s", material_dir, name)`: the name's C string after the directory, cut to the buffer. */
  function TexturePath(dir: CBytes, name: seq<Byte>): (p: Path)
    ensures p == BlobPath.Truncated(dir + UpToNul(name))
  {
    var full := dir + UpToNul(name);
    BlobPath.Truncated(full)
  }

  /**
   * `texture_index_table` (keyed by the hash of a diffuse name) and
   * `texture_filepaths`.
   */
  datatype Textures = Textures(index: map<U64, I32>, paths: seq<Path>)

  /** Every stored index is -1 or names a path of the list. */
  predicate InRange(t: Textures) {
    forall h :: h in t.index ==> t.index[h] == -1 || 0 <= t.index[h] < |t.paths|
  }

  /** The hashes of some diffuse names. */
  function Hashes(names: seq<seq<Byte>>): set<U64> {
    set k | 0 <= k < |names| :: Hashing.Hash(names[k])
  }

  /** One turn of the dedup loop: a new name hash gets the next index when its file exists, and -1 when it does not. */
  function AddTexture(t: Textures, name: seq<Byte>, dir: CBytes, fileExists: Path -> bool): (r: Textures)
    requires |t.paths| < 0x8000_0000
    ensures |r.paths| <= |t.paths| + 1
    ensures r.index.Keys == t.index.Keys + {Hashing.Hash(name)}
    ensures InRange(t) ==> InRange(r)
  {
    var h := Hashing.Hash(name);
    if h in t.index then t
    else
      var path := TexturePath(dir, name);
      if fileExists(path) then Textures(t.index[h := |t.paths| as I32], t.paths + [path])
      else Textures(t.index[h := -1], t.paths)
  }

  /** The dedup loop of `CreateModelBlob` over the materials' diffuse names. */
  function TextureTable(names: seq<seq<Byte>>, dir: CBytes, fileExists: Path -> bool): (t: Textures)
    requires |names| < 0x8000_0000
    ensures |t.paths| <= |names|
    ensures t.index.Keys == Hashes(names)
    ensures InRange(t)
  {
    if |names| == 0 then Textures(map[], [])
    else
      var init := names[..|names| - 1];
      var prev := TextureTable(init, dir, fileExists);
      HashesStep(names);
      AddTexture(prev, names[|names| - 1], dir, fileExists)
  }

  /** The hashes of some names are those of all but the last, and the last's. */
  lemma HashesStep(names: seq<seq<Byte>>)
    requires |names| > 0
    ensures Hashes(names) == Hashes(names[..|names| - 1]) + {Hashing.Hash(names[|names| - 1])}
  {
    var init := names[..|names| - 1];
    forall x | x in Hashes(names)
      ensures x in Hashes(init) + {Hashing.Hash(names[|names| - 1])}
    {
      var k :| 0 <= k < |names| && Hashing.Hash(names[k]) == x;
      if k < |init| {
        assert init[k] == names[k];
        assert Hashing.Hash(init[k]) in Hashes(init);
      } else {
        assert x == Hashing.Hash(names[|names| - 1]);
      }
    }
    forall x | x in Hashes(init)
      ensures x in Hashes(names)
    {
      var k :| 0 <= k < |init| && Hashing.Hash(init[k]) == x;
      assert names[k] == init[k];
    }
  }

  /** Material `k` is the first with its name's hash. */
  predicate IsFirst(names: seq<seq<Byte>>, k: nat) {
    k < |names| && forall j :: 0 <= j < k ==> Hashing.Hash(names[j]) != Hashing.Hash(names[k])
  }

  /** A hash among the names of the earlier materials. */
  lemma HashOfEarlier(names: seq<seq<Byte>>, k: nat)
    requires k < |names| - 1
    ensures names[..|names| - 1][k] == names[k]
    ensures Hashing.Hash(names[k]) in Hashes(names[..|names| - 1])
  {
    var init := names[..|names| - 1];
    assert init[k] == names[k];
  }

  /** The first material with a hash finds it among no earlier material's names. */
  lemma FirstIsNew(names: seq<seq<Byte>>, k: nat)
    requires IsFirst(names, k)
    ensures Hashing.Hash(names[k]) !in Hashes(names[..k])
    ensures Hashing.Hash(names[k]) in Hashes(names)
  {
    var init := names[..k];
    forall j | 0 <= j < |init|
      ensures Hashing.Hash(init[j]) != Hashing.Hash(names[k])
    {
      assert init[j] == names[j];
    }
  }

  /** Material `k` before the last stays first with its hash among the earlier materials. */
  lemma FirstAmongEarlier(names: seq<seq<Byte>>, k: nat)
    requires IsFirst(names, k) && k < |names| - 1
    ensures IsFirst(names[..|names| - 1], k)
  {
    var init := names[..|names| - 1];
    assert forall j :: 0 <= j <= k ==> init[j] == names[j];
  }

  /** The table after one more material extends the table before it. */
  lemma TableStep(names: seq<seq<Byte>>, dir: CBytes, fileExists: Path -> bool)
    requires 0 < |names| < 0x8000_0000
    ensures var prev := TextureTable(names[..|names| - 1], dir, fileExists);
            TextureTable(names, dir, fileExists) == AddTexture(prev, names[|names| - 1], dir, fileExists)
  {
  }

  /** A hash already in the table keeps its entry, and the paths keep their places. */
  lemma AddKeeps(t: Textures, name: seq<Byte>, dir: CBytes, fileExists: Path -> bool, h: U64)
    requires |t.paths| < 0x8000_0000 && h in t.index
    ensures var r := AddTexture(t, name, dir, fileExists);
            h in r.index && r.index[h] == t.index[h]
            && |t.paths| <= |r.paths| && r.paths[..|t.paths|] == t.paths
  {
  }

  /** A new hash gets the next index when its file exists, and -1 when it does not. */
  lemma AddNew(t: Textures, name: seq<Byte>, dir: CBytes, fileExists: Path -> bool)
    requires |t.paths| < 0x8000_0000 && Hashing.Hash(name) !in t.index
    ensures var r := AddTexture(t, name, dir, fileExists);
            var path := TexturePath(dir, name);
            r.index[Hashing.Hash(name)] == (if fileExists(path) then |t.paths| else -1)
            && r.paths == (if fileExists(path) then t.paths + [path] else t.paths)
  {
  }

  /**
   * The first material with a name hash decides that hash's entry: it is an
   * index of the path list exactly when the material's texture file
   * exists, and then the path there is that material's texture path;
   * otherwise it is -1.
   */
  lemma {:induction false} FirstDecides(names: seq<seq<Byte>>, dir: CBytes, fileExists: Path -> bool, k: nat)
    requires |names| < 0x8000_0000 && IsFirst(names, k)
    ensures var t := TextureTable(names, dir, fileExists);
            var h := Hashing.Hash(names[k]);
            h in t.index
            && (t.index[h] >= 0 <==> fileExists(TexturePath(dir, names[k])))
            && (t.index[h] >= 0 ==> t.paths[t.index[h]] == TexturePath(dir, names[k]))
    decreases |names|
  {
    var n := |names|;
    var init := names[..n - 1];
    var prev := TextureTable(init, dir, fileExists);
    var t := TextureTable(names, dir, fileExists);
    var h := Hashing.Hash(names[k]);
    var path := TexturePath(dir, names[k]);
    TableStep(names, dir, fileExists);
    assert t == AddTexture(prev, names[n - 1], dir, fileExists);
    FirstIsNew(names, k);
    if k == n - 1 {
      assert init == names[..k];
      AddNew(prev, names[k], dir, fileExists);
      assert t.index[h] == (if fileExists(path) then |prev.paths| else -1);
    } else {
      FirstAmongEarlier(names, k);
      HashOfEarlier(names, k);
      FirstDecides(init, dir, fileExists, k);
      assert h in prev.index && (prev.index[h] >= 0 <==> fileExists(path));
      assert prev.index[h] >= 0 ==> prev.paths[prev.index[h]] == path;
      AddKeeps(prev, names[n - 1], dir, fileExists, h);
      assert t.index[h] == prev.index[h];
      assert prev.index[h] >= 0 ==> prev.index[h] < |prev.paths| && t.paths[prev.index[h]] == prev.paths[prev.index[h]];
    }
  }

  /** Two first materials with existing files get indices in the order the materials appear. */
  lemma {:induction false} FirstAppearanceOrder(names: seq<seq<Byte>>, dir: CBytes, fileExists: Path -> bool, a: nat, b: nat)
    requires |names| < 0x8000_0000 && IsFirst(names, a) && IsFirst(names, b) && a < b
    ensures var t := TextureTable(names, dir, fileExists);
            var ha, hb := Hashing.Hash(names[a]), Hashing.Hash(names[b]);
            ha in t.index && hb in t.index
            && (t.index[ha] >= 0 && t.index[hb] >= 0 ==> t.index[ha] < t.index[hb])
    decreases |names|
  {
    var n := |names|;
    var init := names[..n - 1];
    var prev := TextureTable(init, dir, fileExists);
    TableStep(names, dir, fileExists);
    FirstIsNew(names, a);
    FirstIsNew(names, b);
    HashOfEarlier(names, a);
    AddKeeps(prev, names[n - 1], dir, fileExists, Hashing.Hash(names[a]));
    if b == n - 1 {
      assert init == names[..b];
      AddNew(prev, names[b], dir, fileExists);
    } else {
      FirstAmongEarlier(names, a);
      FirstAmongEarlier(names, b);
      HashOfEarlier(names, b);
      FirstAppearanceOrder(init, dir, fileExists, a, b);
      AddKeeps(prev, names[n - 1], dir, fileExists, Hashing.Hash(names[b]));
    }
  }

  /** Every path of the list is the texture of a first material whose entry points at it. */
  lemma {:induction false} PathsOwned(names: seq<seq<Byte>>, dir: CBytes, fileExists: Path -> bool, j: nat) returns (k: nat)
    requires |names| < 0x8000_0000 && j < |TextureTable(names, dir, fileExists).paths|
    ensures IsFirst(names, k)
    ensures var t := TextureTable(names, dir, fileExists);
            Hashing.Hash(names[k]) in t.index && t.index[Hashing.Hash(names[k])] == j
    decreases |names|
  {
    var n := |names|;
    var init := names[..n - 1];
    var prev := TextureTable(init, dir, fileExists);
    TableStep(names, dir, fileExists);
    if j < |prev.paths| {
      k := PathsOwned(init, dir, fileExists, j);
      assert init[k] == names[k];
      assert IsFirst(names, k) by {
        assert forall i :: 0 <= i <= k ==> init[i] == names[i];
      }
      AddKeeps(prev, names[n - 1], dir, fileExists, Hashing.Hash(names[k]));
    } else {
      k := n - 1;
      assert Hashing.Hash(names[k]) !in prev.index;
      AddNew(prev, names[k], dir, fileExists);
      assert IsFirst(names, k) by {
        forall i | 0 <= i < k
          ensures Hashing.Hash(names[i]) != Hashing.Hash(names[k])
        {
          HashOfEarlier(names, i);
        }
      }
    }
  }

  /** The index each material stores: the entry of its diffuse name's hash. */
  function MaterialIndices(names: seq<seq<Byte>>, t: Textures): (ids: seq<I32>)
    requires t.index.Keys == Hashes(names)
    ensures |ids| == |names|
  {
    seq(|names|, k requires 0 <= k < |names| => t.index[Hashing.Hash(names[k])])
  }

  /** The vertices of all shapes, shape after shape. */
  function AllVertices(shapes: seq<Shape>): (vs: seq<Vertex>)
    ensures |vs| == VertexTotal(shapes)
  {
    if |shapes| == 0 then [] else AllVertices(shapes[..|shapes| - 1]) + shapes[|shapes| - 1].vertices
  }

  /** The indices of all shapes' whole triangles, shape after shape, as each shape numbers its own vertices. */
  function AllIndices(shapes: seq<Shape>): (xs: seq<U32>)
    ensures |xs| == 3 * TriangleTotal(shapes)
  {
    if |shapes| == 0 then []
    else
      var last := shapes[|shapes| - 1];
      AllIndices(shapes[..|shapes| - 1]) + last.indices[..3 * TriangleCount(last)]
  }

  /** The five words of a mesh record, in the order they are written. */
  function MeshWord(m: Mesh, j: nat): U32
    requires j < 5
  {
    if j == 0 then m.materialIndex
    else if j == 1 then m.vertexOffset
    else if j == 2 then m.vertexCount
    else if j == 3 then m.indexOffset
    else m.indexCount
  }

  /** The four position words of a vertex: x, y, z and the magnitude. */
  function PositionWord(v: Vertex, j: nat): U16
    requires j < 4
  {
    if j == 0 then v.px else if j == 1 then v.py else if j == 2 then v.pz else v.pm
  }

  /** The four normal bytes of a vertex. */
  function NormalByte(v: Vertex, j: nat): Byte
    requires j < 4
  {
    if j == 0 then v.nx else if j == 1 then v.ny else if j == 2 then v.nz else v.nw
  }

  lemma QuotientBelow(k: nat, w: nat, n: nat)
    requires 0 < w && k < w * n
    ensures k / w < n && k % w < w
  {
  }

  function MeshFields(ms: seq<Mesh>): (fs: seq<S.Field>)
    ensures |fs| == 5 * |ms|
  {
    seq(5 * |ms|, k requires 0 <= k < 5 * |ms| => (QuotientBelow(k, 5, |ms|); S.FUint32(MeshWord(ms[k / 5], k % 5))))
  }

  function MaterialFields(ids: seq<I32>): (fs: seq<S.Field>)
    ensures |fs| == |ids|
  {
    seq(|ids|, k requires 0 <= k < |ids| => S.FInt32(ids[k]))
  }

  /** `stream.Write(path, length + 1)`: each path as a block holding its text and terminator. */
  function PathFields(paths: seq<Path>): (fs: seq<S.Field>)
    ensures |fs| == |paths|
  {
    seq(|paths|, k requires 0 <= k < |paths| => S.FBlock(paths[k] + [0]))
  }

  function PositionFields(vs: seq<Vertex>): (fs: seq<S.Field>)
    ensures |fs| == 4 * |vs|
  {
    seq(4 * |vs|, k requires 0 <= k < 4 * |vs| => (QuotientBelow(k, 4, |vs|); S.FUint16(PositionWord(vs[k / 4], k % 4))))
  }

  function TexcoordFields(vs: seq<Vertex>): (fs: seq<S.Field>)
    ensures |fs| == |vs|
  {
    seq(|vs|, k requires 0 <= k < |vs| => S.FUint32(vs[k].texcoord))
  }

  function NormalFields(vs: seq<Vertex>): (fs: seq<S.Field>)
    ensures |fs| == 4 * |vs|
  {
    seq(4 * |vs|, k requires 0 <= k < 4 * |vs| => (QuotientBelow(k, 4, |vs|); S.FUint8(NormalByte(vs[k / 4], k % 4))))
  }

  function IndexFields(xs: seq<U32>): (fs: seq<S.Field>)
    ensures |fs| == |xs|
  {
    seq(|xs|, k requires 0 <= k < |xs| => S.FUint32(xs[k]))
  }

  /** What a model blob holds, in the terms `CreateModel` reads it back in. */
  datatype Contents = Contents(
    checksum: U64, meshes: seq<Mesh>, materials: seq<I32>, paths: seq<Path>,
    boundsMin: Bits3, boundsMax: Bits3, scale: U32, vertices: seq<Vertex>, indices: seq<U32>)

  /** The counts a blob writes as `uint32_t` fit that type. */
  predicate Countable(c: Contents) {
    |c.meshes| < TWO_32 && |c.materials| < TWO_32 && |c.paths| < TWO_32
  }

  type Storable = c: Contents | Countable(c) witness Contents(0, [], [], [], Bits3(0, 0, 0), Bits3(0, 0, 0), 0, [], [])

  /** The parts of a model blob, in the order they are written. */
  datatype Parts = Parts(
    head: seq<S.Field>, meshes: seq<S.Field>, materialCount: seq<S.Field>, materials: seq<S.Field>,
    textureCount: seq<S.Field>, paths: seq<S.Field>, bounds: seq<S.Field>, vertices: seq<S.Field>, indices: seq<S.Field>)
  {
    /** All fields, in order. */
    function Fields(): seq<S.Field> {
      Front() + Back()
    }

    /** The fields before the vertex data. */
    function Front(): seq<S.Field> {
      head + (meshes + (materialCount + (materials + (textureCount + (paths + bounds)))))
    }

    /** The vertex data and the indices. */
    function Back(): seq<S.Field> {
      vertices + indices
    }
  }

  /** The vertex data, attribute after attribute. */
  function VertexData(vs: seq<Vertex>): seq<S.Field> {
    PositionFields(vs) + TexcoordFields(vs) + NormalFields(vs)
  }

  /** The bounding box corners and the quantisation scale. */
  function BoundsFields(lo: Bits3, hi: Bits3, scale: U32): seq<S.Field> {
    [S.FFloat3(lo.x, lo.y, lo.z), S.FFloat3(hi.x, hi.y, hi.z), S.FFloat(scale)]
  }

  function PartsOf(c: Storable): Parts {
    Parts(
      [S.FUint64(c.checksum), S.FUint32(|c.meshes|)],
      MeshFields(c.meshes),
      [S.FUint32(|c.materials|)],
      MaterialFields(c.materials),
      [S.FUint32(|c.paths|)],
      PathFields(c.paths),
      BoundsFields(c.boundsMin, c.boundsMax, c.scale),
      VertexData(c.vertices),
      IndexFields(c.indices))
  }

  /** The bytes of a blob. */
  function Encode(c: Storable): seq<Byte> {
    S.EncodeAll(PartsOf(c).Fields())
  }

  /** What `CreateModelBlob` stores for an OBJ file. */
  function ContentsOf(text: seq<Byte>, o: Obj, dir: CBytes, fileExists: Path -> bool): (c: Storable)
    ensures c.meshes == Meshes(o) && c.vertices == AllVertices(o.shapes) && c.indices == AllIndices(o.shapes)
  {
    var t := TextureTable(o.diffuseNames, dir, fileExists);
    Contents(Hashing.Hash(text), Meshes(o), MaterialIndices(o.diffuseNames, t), t.paths,
             o.boundsMin, o.boundsMax, o.scale, AllVertices(o.shapes), AllIndices(o.shapes))
  }

  /**
   * `CreateModelBlob`: the checksum of the OBJ text, the mesh records, the
   * material texture indices, the texture paths, the bounding box and
   * scale, the vertex data attribute by attribute, and the indices. An OBJ
   * text tinyobj cannot parse gives the empty blob.
   */
  function CreateModelBlob(text: seq<Byte>, parsed: Option<Obj>, dir: CBytes, fileExists: Path -> bool): seq<Byte> {
    match parsed
    case None => []
    case Some(o) => Encode(ContentsOf(text, o, dir, fileExists))
  }

  /** `texture_filepaths_size`: eight size bytes, the text and its terminator per path. */
  function PathBytes(paths: seq<Path>): nat {
    if |paths| == 0 then 0 else PathBytes(paths[..|paths| - 1]) + 8 + |paths[|paths| - 1]| + 1
  }

  /** `blob.m_Size` as `CreateModelBlob` computes it before writing. */
  function BlobSize(o: Obj, t: Textures): nat {
    var v := VertexTotal(o.shapes);
    8 + 4 + 20 * |o.shapes| + 4 + 4 * |o.diffuseNames| + 4 + PathBytes(t.paths) + 24 + 4
    + 2 * 4 * v + 2 * 2 * v + 1 * 4 * v + 4 * 3 * TriangleTotal(o.shapes)
  }

  /** The parts' sizes add up. */
  lemma PartsSize(p: Parts)
    ensures S.SizeAll(p.Front()) == S.SizeAll(p.head) + S.SizeAll(p.meshes) + S.SizeAll(p.materialCount)
              + S.SizeAll(p.materials) + S.SizeAll(p.textureCount) + S.SizeAll(p.paths) + S.SizeAll(p.bounds)
    ensures S.SizeAll(p.Back()) == S.SizeAll(p.vertices) + S.SizeAll(p.indices)
    ensures S.SizeAll(p.Fields()) == S.SizeAll(p.Front()) + S.SizeAll(p.Back())
  {
    var f5 := p.paths + p.bounds;
    var f4 := p.textureCount + f5;
    var f3 := p.materials + f4;
    var f2 := p.materialCount + f3;
    var f1 := p.meshes + f2;
    S.SizeAllAppend(p.vertices, p.indices);
    S.SizeAllAppend(p.paths, p.bounds);
    S.SizeAllAppend(p.textureCount, f5);
    S.SizeAllAppend(p.materials, f4);
    S.SizeAllAppend(p.materialCount, f3);
    S.SizeAllAppend(p.meshes, f2);
    S.SizeAllAppend(p.head, f1);
    S.SizeAllAppend(p.Front(), p.Back());
  }

  /** Runs of one, two and three fields. */
  lemma SizeOfOne(a: S.Field)
    ensures S.SizeAll([a]) == S.FieldSize(a)
  {
    assert [a][1..] == [];
  }

  lemma SizeOfTwo(a: S.Field, b: S.Field)
    ensures S.SizeAll([a, b]) == S.FieldSize(a) + S.FieldSize(b)
  {
    assert [a, b][1..] == [b];
    SizeOfOne(b);
  }

  lemma SizeOfThree(a: S.Field, b: S.Field, c: S.Field)
    ensures S.SizeAll([a, b, c]) == S.FieldSize(a) + S.FieldSize(b) + S.FieldSize(c)
  {
    assert [a, b, c][1..] == [b, c];
    SizeOfTwo(b, c);
  }

  /** The path blocks take `texture_filepaths_size` bytes. */
  lemma {:induction false} PathFieldsSize(paths: seq<Path>)
    ensures S.SizeAll(PathFields(paths)) == PathBytes(paths)
  {
    if |paths| > 0 {
      var init := paths[..|paths| - 1];
      var last := paths[|paths| - 1];
      assert PathFields(paths) == PathFields(init) + [S.FBlock(last + [0])];
      PathFieldsSize(init);
      S.SizeAllAppend(PathFields(init), [S.FBlock(last + [0])]);
      SizeOfOne(S.FBlock(last + [0]));
    }
  }

  /** The vertex data takes eight bytes of position, four of texcoord and four of normal per vertex. */
  lemma VertexFieldsSize(vs: seq<Vertex>)
    ensures S.SizeAll(PositionFields(vs)) == 8 * |vs|
    ensures S.SizeAll(TexcoordFields(vs)) == 4 * |vs|
    ensures S.SizeAll(NormalFields(vs)) == 4 * |vs|
    ensures S.SizeAll(VertexData(vs)) == 16 * |vs|
  {
    S.SizeAllUniform(PositionFields(vs), 2);
    S.SizeAllUniform(TexcoordFields(vs), 4);
    S.SizeAllUniform(NormalFields(vs), 1);
    S.SizeAllAppend(PositionFields(vs), TexcoordFields(vs));
    S.SizeAllAppend(PositionFields(vs) + TexcoordFields(vs), NormalFields(vs));
  }

  /** The number of bytes a blob of these contents takes. */
  function EncodedSize(c: Contents): nat {
    8 + 4 + 20 * |c.meshes| + 4 + 4 * |c.materials| + 4 + PathBytes(c.paths) + 24 + 4 + 16 * |c.vertices| + 4 * |c.indices|
  }

  /** The size of each part. */
  lemma PartSizes(c: Storable, p: Parts)
    requires p == PartsOf(c)
    ensures S.SizeAll(p.head) == 12 && S.SizeAll(p.meshes) == 20 * |c.meshes|
    ensures S.SizeAll(p.materialCount) == 4 && S.SizeAll(p.materials) == 4 * |c.materials|
    ensures S.SizeAll(p.textureCount) == 4 && S.SizeAll(p.paths) == PathBytes(c.paths)
    ensures S.SizeAll(p.bounds) == 28
    ensures S.SizeAll(p.vertices) == 16 * |c.vertices|
    ensures S.SizeAll(p.indices) == 4 * |c.indices|
  {
    SizeOfTwo(p.head[0], p.head[1]);
    SizeOfOne(p.materialCount[0]);
    SizeOfOne(p.textureCount[0]);
    SizeOfThree(p.bounds[0], p.bounds[1], p.bounds[2]);
    S.SizeAllUniform(p.meshes, 4);
    S.SizeAllUniform(p.materials, 4);
    PathFieldsSize(c.paths);
    VertexFieldsSize(c.vertices);
    S.SizeAllUniform(p.indices, 4);
  }

  /** Writing a blob's fields into a buffer of `EncodedSize` bytes fills it exactly. */
  lemma EncodedSizeIsWritten(c: Storable)
    ensures |Encode(c)| == EncodedSize(c)
    ensures S.WriteAtEnd(S.WriteFields(S.NewWriteStream(EncodedSize(c)), PartsOf(c).Fields()))
  {
    var fs := PartsOf(c).Fields();
    FieldsSize(c);
    S.SizeAllIsLength(fs);
    var ws := S.WriteFields(S.NewWriteStream(EncodedSize(c)), fs);
    assert ws.written == S.EncodeAll(fs);
  }

  /** The fields of a blob take `EncodedSize` bytes. */
  lemma FieldsSize(c: Storable)
    ensures S.SizeAll(PartsOf(c).Fields()) == EncodedSize(c)
  {
    var p := PartsOf(c);
    PartsSize(p);
    PartSizes(c, p);
    S.SizeAllAppend(p.Front(), p.Back());
  }

  /** The allocation formula, term by term, against the size of the parts. */
  lemma SizeFormulasAgree(shapes: nat, materials: nat, pathBytes: nat, v: nat, tri: nat)
    ensures 8 + 4 + 20 * shapes + 4 + 4 * materials + 4 + pathBytes + 24 + 4 + 16 * v + 4 * (3 * tri)
            == 8 + 4 + 20 * shapes + 4 + 4 * materials + 4 + pathBytes + 24 + 4
               + 2 * 4 * v + 2 * 2 * v + 1 * 4 * v + 4 * 3 * tri
  {
  }

  /**
   * The size `CreateModelBlob` allocates is the number of bytes it writes:
   * writing every field into a buffer of that size ends exactly at the end
   * of the stream.
   */
  lemma BlobSizeIsWritten(text: seq<Byte>, o: Obj, dir: CBytes, fileExists: Path -> bool)
    ensures var t := TextureTable(o.diffuseNames, dir, fileExists);
            var c := ContentsOf(text, o, dir, fileExists);
            |CreateModelBlob(text, Some(o), dir, fileExists)| == BlobSize(o, t)
            && S.WriteAtEnd(S.WriteFields(S.NewWriteStream(BlobSize(o, t)), PartsOf(c).Fields()))
  {
    var t := TextureTable(o.diffuseNames, dir, fileExists);
    var c := ContentsOf(text, o, dir, fileExists);
    EncodedSizeIsWritten(c);
    var v, tri := VertexTotal(o.shapes), TriangleTotal(o.shapes);
    var pb := PathBytes(t.paths);
    assert |c.meshes| == |o.shapes| && |c.materials| == |o.diffuseNames| && PathBytes(c.paths) == pb;
    assert |c.vertices| == v && |c.indices| == 3 * tri;
    SizeFormulasAgree(|o.shapes|, |o.diffuseNames|, pb, v, tri);
  }

  /** A blob starts with the checksum it was written with, where `GfxLoadModel` looks for it. */
  lemma ChecksumLeads(c: Storable)
    ensures S.LeadingChecksum(Encode(c)) == Some(c.checksum)
  {
    var fs := PartsOf(c).Fields();
    var head := [S.FUint64(c.checksum)];
    assert fs == head + fs[1..];
    S.EncodeAllAppend(head, fs[1..]);
    assert head[1..] == [];
    var first := S.EncodeLE(c.checksum, 8);
    assert S.EncodeAll(head) == first;
    assert Encode(c)[..8] == first;
    S.DecodeEncode(c.checksum, 8);
  }

  /** A slice within the first of two joined sequences. */
  lemma SliceOfFront<T>(a: seq<T>, b: seq<T>, lo: nat, hi: nat)
    requires lo <= hi <= |a|
    ensures (a + b)[lo..hi] == a[lo..hi]
  {
  }

  /** Shape `i`'s vertices sit in the shared list right after those of the shapes before it. */
  lemma {:induction false} ShapeVerticesAt(shapes: seq<Shape>, i: nat)
    requires i < |shapes|
    ensures var start := VertexTotal(shapes[..i]);
            start + |shapes[i].vertices| <= |AllVertices(shapes)|
            && AllVertices(shapes)[start..start + |shapes[i].vertices|] == shapes[i].vertices
    decreases |shapes|
  {
    var n := |shapes|;
    var init := shapes[..n - 1];
    var start := VertexTotal(shapes[..i]);
    if i == n - 1 {
      assert init == shapes[..i];
    } else {
      assert init[..i] == shapes[..i] && init[i] == shapes[i];
      ShapeVerticesAt(init, i);
      SliceOfFront(AllVertices(init), shapes[n - 1].vertices, start, start + |shapes[i].vertices|);
    }
  }

  /** Shape `i`'s whole triangles sit in the shared index list right after those of the shapes before it. */
  lemma {:induction false} ShapeIndicesAt(shapes: seq<Shape>, i: nat)
    requires i < |shapes|
    ensures var start := 3 * TriangleTotal(shapes[..i]);
            var own := shapes[i].indices[..3 * TriangleCount(shapes[i])];
            start + |own| <= |AllIndices(shapes)|
            && AllIndices(shapes)[start..start + |own|] == own
    decreases |shapes|
  {
    var n := |shapes|;
    var init := shapes[..n - 1];
    var start := 3 * TriangleTotal(shapes[..i]);
    var own := shapes[i].indices[..3 * TriangleCount(shapes[i])];
    if i == n - 1 {
      assert init == shapes[..i];
    } else {
      assert init[..i] == shapes[..i] && init[i] == shapes[i];
      ShapeIndicesAt(init, i);
      var last := shapes[n - 1];
      SliceOfFront(AllIndices(init), last.indices[..3 * TriangleCount(last)], start, start + |own|);
    }
  }

  /**
   * Shape `i`'s record locates the shape in the shared lists: from its
   * vertex offset they hold the shape's vertices, and its index range
   * holds the shape's whole triangles.
   */
  lemma MeshLocatesShape(o: Obj, i: nat)
    requires i < |o.shapes|
    ensures var m := MeshOf(o, i);
            var shape := o.shapes[i];
            var own := shape.indices[..3 * TriangleCount(shape)];
            m.vertexOffset <= VertexTotal(o.shapes)
            && m.vertexOffset + |shape.vertices| <= |AllVertices(o.shapes)|
            && AllVertices(o.shapes)[m.vertexOffset..m.vertexOffset + |shape.vertices|] == shape.vertices
            && m.indexCount == |own| && m.indexOffset + m.indexCount <= |AllIndices(o.shapes)|
            && AllIndices(o.shapes)[m.indexOffset..m.indexOffset + m.indexCount] == own
  {
    TotalsGrow(o.shapes, i);
    ShapeVerticesAt(o.shapes, i);
    ShapeIndicesAt(o.shapes, i);
  }
}
