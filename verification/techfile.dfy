/**
 * The compiled technique file (Source/GfxTechnique.cpp): a 64-bit checksum
 * of the JSON text, the technique record as a length-prefixed block, then
 * one length-prefixed block of shader bytecode per stage — vertex and
 * fragment for a graphics technique (the fragment block may be empty),
 * compute for a compute one. `CreateTechniqueBlob` writes exactly this
 * sequence into a buffer of the computed size; `GfxCreateTechnique` reads it
 * back in the same order and asserts that it ends at the end of the data;
 * `GfxLoadTechnique` compares the leading checksum with the JSON's hash.
 */
module TechniqueFile {
  import opened Machine
  import opened Wrappers
  import Vk
  import GfxStream
  import TB = TechniqueBlob

  type Block64 = GfxStream.Block64

  /** What a technique file holds. */
  datatype Contents = Contents(checksum: U64, blob: TB.Blob, code: seq<Block64>)

  /** The number of bytecode blocks that follow the record: two for a graphics technique, one otherwise. */
  function StageCount(blob: TB.Blob): nat {
    if blob.bindPoint == Vk.PIPELINE_BIND_POINT_GRAPHICS then 2 else 1
  }

  /** Contents the writer can produce: a well-shaped record and one block per stage. */
  predicate Storable(c: Contents) {
    c.blob.Shaped() && |c.code| == StageCount(c.blob)
  }

  function CodeFields(code: seq<Block64>): (fs: seq<GfxStream.Field>)
    ensures |fs| == |code| && forall i :: 0 <= i < |code| ==> fs[i] == GfxStream.FBlock(code[i])
  {
    seq(|code|, i requires 0 <= i < |code| => GfxStream.FBlock(code[i]))
  }

  /** The record's bytes as a block (its image is at most 616 bytes long). */
  function RecordField(blob: TB.Blob): (f: GfxStream.Field)
    requires blob.Shaped()
    ensures f.FBlock? && f.data == TB.Image(blob)
  {
    TB.ImageRoundTrip(blob);
    GfxStream.FBlock(TB.Image(blob))
  }

  function HeadFields(c: Contents): seq<GfxStream.Field>
    requires c.blob.Shaped()
  {
    [GfxStream.FUint64(c.checksum), RecordField(c.blob)]
  }

  /** The writes of `CreateTechniqueBlob`, in order. */
  function Fields(c: Contents): seq<GfxStream.Field>
    requires c.blob.Shaped()
  {
    HeadFields(c) + CodeFields(c.code)
  }

  /** The file's bytes. */
  function Serialise(c: Contents): seq<Byte>
    requires c.blob.Shaped()
  {
    GfxStream.EncodeAll(Fields(c))
  }

  /** The size `CreateTechniqueBlob` allocates: a checksum, then a size word and the bytes of each block. */
  function WrittenSize(c: Contents): nat
    requires c.blob.Shaped()
  {
    8 + (8 + |TB.Image(c.blob)|) + CodeSize(c.code)
  }

  function CodeSize(code: seq<Block64>): nat {
    if |code| == 0 then 0 else 8 + |code[0]| + CodeSize(code[1..])
  }

  function BlockKinds(n: nat): (ks: seq<GfxStream.Kind>)
    ensures |ks| == n && forall i :: 0 <= i < n ==> ks[i] == GfxStream.Block
  {
    seq(n, i => GfxStream.Block)
  }

  function BlocksOf(fs: seq<GfxStream.Field>): Option<seq<Block64>> {
    if |fs| == 0 then Some([])
    else if !fs[0].FBlock? then None
    else
      var rest :- BlocksOf(fs[1..]);
      Some([fs[0].data] + rest)
  }

  /** The checksum and record at the front of a file, and where the stage blocks start. */
  datatype Front = Front(checksum: U64, blob: TB.Blob, next: nat)

  function ReadFront(data: seq<Byte>): (r: Option<Front>)
    ensures r.Some? ==> r.value.blob.Shaped()
  {
    match GfxStream.ReadFields(data, 0, [GfxStream.Uint64, GfxStream.Block])
    case RunOverrun => None
    case GotRun(head, next) =>
      if !head[0].FUint64? || !head[1].FBlock? then None
      else
        var blob :- TB.FromImage(head[1].data);
        Some(Front(head[0].u64, blob, next))
  }

  /** `n` stage blocks from `next`, which must end exactly at the end of the data. */
  function ReadStages(data: seq<Byte>, next: nat, n: nat): (r: Option<seq<Block64>>)
    ensures r.Some? ==> |r.value| == n
  {
    match GfxStream.ReadFields(data, next, BlockKinds(n))
    case RunOverrun => None
    case GotRun(tail, last) =>
      var code :- BlocksOf(tail);
      if last != |data| || |code| != n then None else Some(code)
  }

  /**
   * The reads of `GfxCreateTechnique`: the checksum, the record block, then
   * the stage blocks its bind point calls for, ending exactly at the end of
   * the data. An empty buffer, a read past the end or trailing bytes fail
   * (the source asserts).
   */
  function Deserialise(data: seq<Byte>): (r: Option<Contents>)
    ensures r.Some? ==> Storable(r.value)
  {
    if |data| == 0 then None
    else
      var front :- ReadFront(data);
      var code :- ReadStages(data, front.next, StageCount(front.blob));
      Some(Contents(front.checksum, front.blob, code))
  }

  lemma {:induction false} CodeSizeIsSize(code: seq<Block64>)
    ensures GfxStream.SizeAll(CodeFields(code)) == CodeSize(code)
    ensures GfxStream.KindsOf(CodeFields(code)) == BlockKinds(|code|)
    ensures BlocksOf(CodeFields(code)) == Some(code)
    decreases |code|
  {
    if |code| > 0 {
      CodeSizeIsSize(code[1..]);
      assert CodeFields(code)[1..] == CodeFields(code[1..]);
      assert BlockKinds(|code|)[1..] == BlockKinds(|code| - 1);
      assert [code[0]] + code[1..] == code;
    } else {
      assert CodeFields(code) == [];
    }
  }

  lemma HeadShape(c: Contents)
    requires c.blob.Shaped()
    ensures GfxStream.KindsOf(HeadFields(c)) == [GfxStream.Uint64, GfxStream.Block]
    ensures GfxStream.SizeAll(HeadFields(c)) == 8 + (8 + |TB.Image(c.blob)|)
  {
    var head := HeadFields(c);
    assert head[1..] == [RecordField(c.blob)];
    assert head[1..][1..] == [];
    assert GfxStream.SizeAll(head[1..]) == GfxStream.FieldSize(head[1]) + GfxStream.SizeAll(head[1..][1..]);
  }

  /** The written bytes fill the size `CreateTechniqueBlob` allocates exactly. */
  lemma FillsWrittenSize(c: Contents)
    requires c.blob.Shaped()
    ensures |Serialise(c)| == WrittenSize(c)
    ensures GfxStream.WriteAtEnd(GfxStream.WriteFields(GfxStream.NewWriteStream(WrittenSize(c)), Fields(c)))
  {
    GfxStream.SizeAllIsLength(Fields(c));
    GfxStream.EncodeAllAppend(HeadFields(c), CodeFields(c.code));
    GfxStream.SizeAllIsLength(HeadFields(c));
    GfxStream.SizeAllIsLength(CodeFields(c.code));
    CodeSizeIsSize(c.code);
    HeadShape(c);
    GfxStream.BlobRoundTrip(Fields(c));
  }

  lemma ReadHead(c: Contents, data: seq<Byte>)
    requires c.blob.Shaped()
    requires GfxStream.BytesAt(data, 0, GfxStream.EncodeAll(HeadFields(c)))
    ensures ReadFront(data) == Some(Front(c.checksum, c.blob, 16 + |TB.Image(c.blob)|))
  {
    GfxStream.ReadFieldsAt(data, 0, HeadFields(c));
    HeadShape(c);
    TB.ImageRoundTrip(c.blob);
  }

  lemma ReadCode(code: seq<Block64>, fs: seq<GfxStream.Field>, data: seq<Byte>, next: nat)
    requires fs == CodeFields(code)
    requires GfxStream.BytesAt(data, next, GfxStream.EncodeAll(fs))
    requires next + CodeSize(code) == |data|
    ensures ReadStages(data, next, |code|) == Some(code)
  {
    GfxStream.ReadFieldsAt(data, next, fs);
    CodeSizeIsSize(code);
  }

  /** The file is the record's fields followed by the stage blocks, which end it. */
  lemma LaidOut(c: Contents, data: seq<Byte>)
    requires c.blob.Shaped() && data == Serialise(c)
    ensures GfxStream.BytesAt(data, 0, GfxStream.EncodeAll(HeadFields(c)))
    ensures GfxStream.BytesAt(data, 16 + |TB.Image(c.blob)|, GfxStream.EncodeAll(CodeFields(c.code)))
    ensures 16 + |TB.Image(c.blob)| + CodeSize(c.code) == |data|
  {
    var head := HeadFields(c);
    var tail := CodeFields(c.code);
    GfxStream.EncodeAllAppend(head, tail);
    FillsWrittenSize(c);
    assert GfxStream.BytesAt(data, 0, GfxStream.EncodeAll(head) + GfxStream.EncodeAll(tail)) by {
      assert data[0..|data|] == data;
    }
    GfxStream.BytesAtSplit(data, 0, GfxStream.EncodeAll(head), GfxStream.EncodeAll(tail));
    GfxStream.SizeAllIsLength(head);
    HeadShape(c);
  }

  /** Reading a written file gives back the checksum, the record and the bytecode. */
  lemma RoundTrip(c: Contents)
    requires Storable(c)
    ensures Deserialise(Serialise(c)) == Some(c)
  {
    var data := Serialise(c);
    LaidOut(c, data);
    ReadHead(c, data);
    ReadCode(c.code, CodeFields(c.code), data, 16 + |TB.Image(c.blob)|);
  }

  /** The first eight bytes of a file are its checksum. */
  lemma ChecksumLeads(c: Contents)
    requires c.blob.Shaped()
    ensures GfxStream.LeadingChecksum(Serialise(c)) == Some(c.checksum)
  {
    var head := HeadFields(c);
    var tail := CodeFields(c.code);
    GfxStream.EncodeAllAppend(head, tail);
    assert head == [GfxStream.FUint64(c.checksum)] + [RecordField(c.blob)];
    GfxStream.EncodeAllAppend([GfxStream.FUint64(c.checksum)], [RecordField(c.blob)]);
    assert [GfxStream.FUint64(c.checksum)][1..] == [];
    var first := GfxStream.EncodeLE(c.checksum, 8);
    assert GfxStream.EncodeAll([GfxStream.FUint64(c.checksum)]) == first;
    assert Serialise(c)[..8] == first;
    GfxStream.DecodeEncode(c.checksum, 8);
  }

  /** A file that reads back holds its checksum in its first eight bytes, where the loader looks for it. */
  lemma ReadChecksumLeads(data: seq<Byte>)
    requires Deserialise(data).Some?
    ensures GfxStream.LeadingChecksum(data) == Some(Deserialise(data).value.checksum)
  {
    var ks := [GfxStream.Uint64, GfxStream.Block];
    var first := GfxStream.ReadField(data, 0, ks[0]);
    assert first.Got?;
    assert ks[1..] == [GfxStream.Block];
    assert GfxStream.Pow256(8) == TWO_64;
    assert first.field == GfxStream.FUint64(GfxStream.DecodeLE(data[0..8]) as U64);
    assert data[0..8] == data[..8];
  }
}
