/**
 * ReadStream and WriteStream of Source/GfxUtil.h: cursors over a byte
 * buffer that read or write fixed-width little-endian values and
 * length-prefixed blocks. `Write(data, size)` stores the size as a `uint64_t`
 * followed by the bytes; `Read(out_size)` reads the size back and returns the
 * block.
 *
 * The C++ cursors never check bounds (running past the end is undefined
 * behaviour). Here a write simply extends the written bytes, and the
 * end-of-stream test compares with the size the buffer was allocated with;
 * a read past the end yields `None`.
 */
module GfxStream {
  import opened Machine
  import opened Wrappers

  function Pow256(w: nat): (r: nat)
    ensures r > 0
  {
    if w == 0 then 1 else 256 * Pow256(w - 1)
  }

  /** `x` as `w` little-endian bytes (the byte order of the targets the code runs on). */
  function EncodeLE(x: nat, w: nat): (r: seq<Byte>)
    requires x < Pow256(w)
    ensures |r| == w
  {
    if w == 0 then [] else [x % 256] + EncodeLE(x / 256, w - 1)
  }

  /** The value of little-endian bytes. */
  function DecodeLE(bs: seq<Byte>): (r: nat)
    ensures r < Pow256(|bs|)
  {
    if |bs| == 0 then 0 else bs[0] + 256 * DecodeLE(bs[1..])
  }

  lemma {:induction false} DecodeEncode(x: nat, w: nat)
    requires x < Pow256(w)
    ensures DecodeLE(EncodeLE(x, w)) == x
  {
    if w > 0 {
      DecodeEncode(x / 256, w - 1);
      assert EncodeLE(x, w)[1..] == EncodeLE(x / 256, w - 1);
    }
  }

  lemma {:induction false} EncodeDecode(bs: seq<Byte>)
    ensures EncodeLE(DecodeLE(bs), |bs|) == bs
  {
    if |bs| > 0 {
      EncodeDecode(bs[1..]);
      var v := DecodeLE(bs);
      assert v % 256 == bs[0] && v / 256 == DecodeLE(bs[1..]);
    }
  }

  /** One value a stream can carry, tagged with the `Write*`/`Read*` pair that moves it. */
  datatype Field =
    | FUint8(u8: Byte)
    | FUint16(u16: U16)
    | FUint32(u32: U32)
    | FUint64(u64: U64)
    | FInt32(i32: I32)
    | FFloat(bits: U32)
    | FFloat3(x: U32, y: U32, z: U32)
    | FBlock(data: Block64)

  /** A block whose size fits the `uint64_t` length prefix. */
  type Block64 = s: seq<Byte> | |s| < TWO_64

  /** The shape of a field: which `Read*` call gets it back. */
  datatype Kind = Uint8 | Uint16 | Uint32 | Uint64 | Int32 | Float | Float3 | Block

  function KindOf(f: Field): Kind {
    match f
    case FUint8(_) => Uint8
    case FUint16(_) => Uint16
    case FUint32(_) => Uint32
    case FUint64(_) => Uint64
    case FInt32(_) => Int32
    case FFloat(_) => Float
    case FFloat3(_, _, _) => Float3
    case FBlock(_) => Block
  }

  function KindsOf(fs: seq<Field>): (ks: seq<Kind>)
    ensures |ks| == |fs|
  {
    if |fs| == 0 then [] else [KindOf(fs[0])] + KindsOf(fs[1..])
  }

  /** The bytes `WriteUint8` … `WriteFloat3` and `Write` append for a field. */
  function Encode(f: Field): (r: seq<Byte>)
  {
    match f
    case FUint8(v) => [v]
    case FUint16(v) => EncodeLE(v, 2)
    case FUint32(v) => EncodeLE(v, 4)
    case FUint64(v) => EncodeLE(v, 8)
    case FInt32(v) => EncodeLE(FromInt32(v), 4)
    case FFloat(v) => EncodeLE(v, 4)
    case FFloat3(x, y, z) => EncodeLE(x, 4) + EncodeLE(y, 4) + EncodeLE(z, 4)
    case FBlock(d) => EncodeLE(|d|, 8) + d
  }

  /** The number of bytes a field occupies; for a block, 8 size bytes plus its data. */
  function FieldSize(f: Field): nat
  {
    match f
    case FUint8(_) => 1
    case FUint16(_) => 2
    case FUint32(_) => 4
    case FUint64(_) => 8
    case FInt32(_) => 4
    case FFloat(_) => 4
    case FFloat3(_, _, _) => 12
    case FBlock(d) => 8 + |d|
  }

  /** The size of a field is the length of its encoding. */
  lemma EncodeLength(f: Field)
    ensures |Encode(f)| == FieldSize(f)
  {
  }

  function EncodeAll(fs: seq<Field>): (r: seq<Byte>)
  {
    if |fs| == 0 then [] else Encode(fs[0]) + EncodeAll(fs[1..])
  }

  function SizeAll(fs: seq<Field>): (n: nat)
  {
    if |fs| == 0 then 0 else FieldSize(fs[0]) + SizeAll(fs[1..])
  }

  lemma {:induction false} SizeAllIsLength(fs: seq<Field>)
    ensures |EncodeAll(fs)| == SizeAll(fs)
  {
    if |fs| > 0 {
      SizeAllIsLength(fs[1..]);
    }
  }

  /** The kinds of a list of fields, position by position. */
  lemma {:induction false} KindsOfAt(fs: seq<Field>)
    ensures forall i :: 0 <= i < |fs| ==> KindsOf(fs)[i] == KindOf(fs[i])
  {
    if |fs| > 0 {
      KindsOfAt(fs[1..]);
    }
  }

  /** Fields of at most `w` bytes each take at most `w` bytes apiece. */
  lemma {:induction false} SizeAllBound(fs: seq<Field>, w: nat)
    requires forall i :: 0 <= i < |fs| ==> FieldSize(fs[i]) <= w
    ensures SizeAll(fs) <= w * |fs|
  {
    if |fs| > 0 {
      var rest := fs[1..];
      forall i | 0 <= i < |rest|
        ensures FieldSize(rest[i]) <= w
      {
        assert rest[i] == fs[i + 1];
      }
      SizeAllBound(rest, w);
      assert w * |fs| == w + w * |rest| by {
        assert |fs| == |rest| + 1;
      }
    }
  }

  /** Fields of exactly `w` bytes each take `w` bytes apiece. */
  lemma {:induction false} SizeAllUniform(fs: seq<Field>, w: nat)
    requires forall i :: 0 <= i < |fs| ==> FieldSize(fs[i]) == w
    ensures SizeAll(fs) == w * |fs|
  {
    if |fs| > 0 {
      var rest := fs[1..];
      forall i | 0 <= i < |rest|
        ensures FieldSize(rest[i]) == w
      {
        assert rest[i] == fs[i + 1];
      }
      SizeAllUniform(rest, w);
      assert w * |fs| == w + w * |rest| by {
        assert |fs| == |rest| + 1;
      }
    }
  }

  lemma {:induction false} EncodeAllAppend(fs: seq<Field>, gs: seq<Field>)
    ensures EncodeAll(fs + gs) == EncodeAll(fs) + EncodeAll(gs)
  {
    if |fs| == 0 {
      assert fs + gs == gs;
    } else {
      assert (fs + gs)[1..] == fs[1..] + gs;
      EncodeAllAppend(fs[1..], gs);
    }
  }

  /** The `uint64_t` the loaders read from the first eight bytes of a file: the checksum of its source. */
  function LeadingChecksum(data: seq<Byte>): (r: Option<U64>)
    ensures r.Some? <==> |data| >= 8
  {
    if |data| < 8 then None
    else
      assert Pow256(8) == TWO_64;
      Some(DecodeLE(data[..8]) as U64)
  }

  /** The size of two runs written one after the other. */
  lemma SizeAllAppend(fs: seq<Field>, gs: seq<Field>)
    ensures SizeAll(fs + gs) == SizeAll(fs) + SizeAll(gs)
  {
    EncodeAllAppend(fs, gs);
    SizeAllIsLength(fs + gs);
    SizeAllIsLength(fs);
    SizeAllIsLength(gs);
  }

  /** A WriteStream over a buffer allocated with `size` bytes; `written` is what the cursor passed. */
  datatype WriteStream = WriteStream(size: nat, written: seq<Byte>)

  function NewWriteStream(size: nat): (ws: WriteStream)
    ensures ws.written == [] && ws.size == size
  {
    WriteStream(size, [])
  }

  /** `IsEndOfStream()`: the cursor is exactly at the end of the buffer. */
  predicate WriteAtEnd(ws: WriteStream) {
    |ws.written| == ws.size
  }

  /** `WriteUint8`, …, `WriteFloat3` and `Write(data, size)`, selected by the field's tag. */
  function WriteField(ws: WriteStream, f: Field): (r: WriteStream)
    ensures r.size == ws.size
    ensures r.written == ws.written + Encode(f)
  {
    WriteStream(ws.size, ws.written + Encode(f))
  }

  lemma AppendAssoc(a: seq<Byte>, b: seq<Byte>, c: seq<Byte>)
    ensures a + b + c == a + (b + c)
  {
  }

  function WriteFields(ws: WriteStream, fs: seq<Field>): (r: WriteStream)
    ensures r.size == ws.size
    ensures r.written == ws.written + EncodeAll(fs)
    decreases |fs|
  {
    if |fs| == 0 then ws
    else
      var ws1 := WriteField(ws, fs[0]);
      var r := WriteFields(ws1, fs[1..]);
      AppendAssoc(ws.written, Encode(fs[0]), EncodeAll(fs[1..]));
      r
  }

  /**
   * A ReadStream is the buffer it was opened on and a cursor; the buffer
   * never changes, so the reads below take both and return the new cursor.
   */
  datatype ReadStream = ReadStream(data: seq<Byte>, pos: nat)

  /** `IsEndOfStream()`. */
  predicate ReadAtEnd(rs: ReadStream) {
    rs.pos == |rs.data|
  }

  /** `ReadUint8` … `ReadUint64`: the `w`-byte little-endian word at `pos`, or `None` past the end. */
  function ReadWord(data: seq<Byte>, pos: nat, w: nat): (r: Option<nat>)
    ensures r.Some? <==> pos + w <= |data|
    ensures r.Some? ==> r.value < Pow256(w)
  {
    if pos + w <= |data| then Some(DecodeLE(data[pos..pos + w])) else None
  }

  /** The width in bytes of a kind, leaving out the data of a block. */
  function Width(k: Kind): nat {
    match k
    case Uint8 => 1
    case Uint16 => 2
    case Uint32 => 4
    case Uint64 => 8
    case Int32 => 4
    case Float => 4
    case Float3 => 12
    case Block => 8
  }

  /** The field of a fixed-size kind holding a word read from the stream. */
  function Scalar(k: Kind, v: nat): (f: Field)
    requires k != Float3 && k != Block && v < Pow256(Width(k))
    ensures KindOf(f) == k && FieldSize(f) == Width(k)
  {
    assert Pow256(1) == TWO_8 && Pow256(2) == TWO_16 && Pow256(4) == TWO_32;
    assert Pow256(8) == TWO_64;
    match k
    case Uint8 => FUint8(v)
    case Uint16 => FUint16(v)
    case Uint32 => FUint32(v)
    case Uint64 => FUint64(v)
    case Int32 => FInt32(ToInt32(v))
    case Float => FFloat(v)
  }

  /** The word a fixed-size field is written as: `Scalar` and `Encode` agree on it. */
  function Word(f: Field): (v: nat)
    requires !f.FFloat3? && !f.FBlock?
    ensures v < Pow256(Width(KindOf(f)))
    ensures Scalar(KindOf(f), v) == f
    ensures Encode(f) == EncodeLE(v, Width(KindOf(f)))
  {
    assert Pow256(1) == TWO_8 && Pow256(2) == TWO_16 && Pow256(4) == TWO_32;
    assert Pow256(8) == TWO_64;
    match f
    case FUint8(v) => assert EncodeLE(v, 1) == [v]; v
    case FUint16(v) => v
    case FUint32(v) => v
    case FUint64(v) => v
    case FInt32(v) => FromInt32(v)
    case FFloat(v) => v
  }

  /** The outcome of one `Read*` call: the field and the cursor after it, or a read past the end. */
  datatype FieldRead = Got(field: Field, next: nat) | Overrun

  /** One `Read*` call of the given kind at `pos`. */
  function ReadField(data: seq<Byte>, pos: nat, k: Kind): (r: FieldRead)
    ensures r.Got? ==> KindOf(r.field) == k && r.next == pos + FieldSize(r.field) <= |data|
  {
    if k == Float3 then
      if pos + 12 <= |data| then
        assert Pow256(4) == TWO_32;
        Got(FFloat3(DecodeLE(data[pos..pos + 4]), DecodeLE(data[pos + 4..pos + 8]), DecodeLE(data[pos + 8..pos + 12])),
            pos + 12)
      else Overrun
    else if k == Block then
      match ReadWord(data, pos, 8)
      case None => Overrun
      case Some(n) =>
        assert Pow256(8) == TWO_64;
        if pos + 8 + n <= |data| then Got(FBlock(data[pos + 8..pos + 8 + n]), pos + 8 + n) else Overrun
    else
      match ReadWord(data, pos, Width(k))
      case None => Overrun
      case Some(v) => Got(Scalar(k, v), pos + Width(k))
  }

  /** The outcome of a run of `Read*` calls: the fields and the cursor after them, or a read past the end. */
  datatype RunRead = GotRun(fields: seq<Field>, next: nat) | RunOverrun

  /** A run of `Read*` calls, one per kind, in order, starting at `pos`. */
  function ReadFields(data: seq<Byte>, pos: nat, ks: seq<Kind>): (r: RunRead)
    ensures r.GotRun? ==> |r.fields| == |ks|
    decreases |ks|
  {
    if |ks| == 0 then GotRun([], pos)
    else
      match ReadField(data, pos, ks[0])
      case Overrun => RunOverrun
      case Got(f, next) =>
        match ReadFields(data, next, ks[1..])
        case RunOverrun => RunOverrun
        case GotRun(fs, last) => GotRun([f] + fs, last)
  }

  /** Every field of a successful run has the kind that was asked for, and the run stays inside the buffer. */
  lemma {:induction false} ReadFieldsKinds(data: seq<Byte>, pos: nat, ks: seq<Kind>)
    requires ReadFields(data, pos, ks).GotRun?
    ensures KindsOf(ReadFields(data, pos, ks).fields) == ks
    ensures |ks| > 0 ==> ReadFields(data, pos, ks).next <= |data|
    ensures ReadFields(data, pos, ks).next == pos + SizeAll(ReadFields(data, pos, ks).fields)
    decreases |ks|
  {
    if |ks| > 0 {
      var r1 := ReadField(data, pos, ks[0]);
      ReadFieldsKinds(data, r1.next, ks[1..]);
      var rest := ReadFields(data, r1.next, ks[1..]);
      var fs := [r1.field] + rest.fields;
      assert fs[1..] == rest.fields;
      assert KindsOf(fs) == [ks[0]] + ks[1..];
    }
  }

  /** The kinds of two runs one after the other. */
  lemma {:induction false} KindsOfAppend(fs: seq<Field>, gs: seq<Field>)
    ensures KindsOf(fs + gs) == KindsOf(fs) + KindsOf(gs)
  {
    if |fs| == 0 {
      assert fs + gs == gs;
    } else {
      assert (fs + gs)[1..] == fs[1..] + gs;
      KindsOfAppend(fs[1..], gs);
    }
  }

  /**
   * A successful run of `ks1 + ks2` is a run of `ks1` followed, from where
   * it stops, by a run of `ks2`.
   */
  lemma {:induction false} ReadFieldsSplit(data: seq<Byte>, pos: nat, ks1: seq<Kind>, ks2: seq<Kind>)
    requires ReadFields(data, pos, ks1 + ks2).GotRun?
    ensures var r := ReadFields(data, pos, ks1 + ks2);
            var r1 := ReadFields(data, pos, ks1);
            r1.GotRun? && r1.fields == r.fields[..|ks1|]
            && ReadFields(data, r1.next, ks2) == GotRun(r.fields[|ks1|..], r.next)
    decreases |ks1|
  {
    var r := ReadFields(data, pos, ks1 + ks2);
    if |ks1| == 0 {
      assert ks1 + ks2 == ks2;
    } else {
      assert (ks1 + ks2)[0] == ks1[0] && (ks1 + ks2)[1..] == ks1[1..] + ks2;
      var first := ReadField(data, pos, ks1[0]);
      ReadFieldsSplit(data, first.next, ks1[1..], ks2);
      var tail := ReadFields(data, first.next, ks1[1..] + ks2);
      assert r.fields == [first.field] + tail.fields;
      assert r.fields[1..] == tail.fields;
    }
  }

  /** The bytes of `data` from `pos` on begin with `bs`. */
  predicate BytesAt(data: seq<Byte>, pos: nat, bs: seq<Byte>) {
    pos + |bs| <= |data| && data[pos..pos + |bs|] == bs
  }

  lemma BytesAtSplit(data: seq<Byte>, pos: nat, a: seq<Byte>, b: seq<Byte>)
    requires BytesAt(data, pos, a + b)
    ensures BytesAt(data, pos, a) && BytesAt(data, pos + |a|, b)
  {
    assert data[pos..pos + |a|] == (a + b)[..|a|];
    assert data[pos + |a|..pos + |a| + |b|] == (a + b)[|a|..];
  }

  lemma ReadWordAt(data: seq<Byte>, pos: nat, x: nat, w: nat)
    requires x < Pow256(w) && BytesAt(data, pos, EncodeLE(x, w))
    ensures ReadWord(data, pos, w) == Some(x)
  {
    DecodeEncode(x, w);
  }

  lemma ReadScalarAt(data: seq<Byte>, pos: nat, f: Field)
    requires !f.FFloat3? && !f.FBlock? && BytesAt(data, pos, Encode(f))
    ensures ReadField(data, pos, KindOf(f)) == Got(f, pos + FieldSize(f))
  {
    var k, v := KindOf(f), Word(f);
    ReadWordAt(data, pos, v, Width(k));
  }

  lemma ReadFloat3At(data: seq<Byte>, pos: nat, x: U32, y: U32, z: U32)
    requires BytesAt(data, pos, Encode(FFloat3(x, y, z)))
    ensures ReadField(data, pos, Float3) == Got(FFloat3(x, y, z), pos + 12)
  {
    var ex, ey, ez := EncodeLE(x, 4), EncodeLE(y, 4), EncodeLE(z, 4);
    assert Encode(FFloat3(x, y, z)) == ex + (ey + ez);
    BytesAtSplit(data, pos, ex, ey + ez);
    BytesAtSplit(data, pos + 4, ey, ez);
    DecodeEncode(x, 4);
    DecodeEncode(y, 4);
    DecodeEncode(z, 4);
  }

  lemma ReadBlockAt(data: seq<Byte>, pos: nat, d: Block64)
    requires BytesAt(data, pos, Encode(FBlock(d)))
    ensures ReadField(data, pos, Block) == Got(FBlock(d), pos + 8 + |d|)
  {
    assert Pow256(8) == TWO_64;
    BytesAtSplit(data, pos, EncodeLE(|d|, 8), d);
    ReadWordAt(data, pos, |d|, 8);
  }

  /** Reading a field back where it was written gives the field and moves past it. */
  lemma ReadFieldAt(data: seq<Byte>, pos: nat, f: Field)
    requires BytesAt(data, pos, Encode(f))
    ensures ReadField(data, pos, KindOf(f)) == Got(f, pos + FieldSize(f))
  {
    match f
    case FFloat3(x, y, z) => ReadFloat3At(data, pos, x, y, z);
    case FBlock(d) => ReadBlockAt(data, pos, d);
    case _ => ReadScalarAt(data, pos, f);
  }

  /** Bytes written for a field and then a run hold the field and then the run. */
  lemma SplitCons(data: seq<Byte>, pos: nat, f: Field, tail: seq<Field>)
    requires BytesAt(data, pos, Encode(f) + EncodeAll(tail))
    ensures BytesAt(data, pos, Encode(f)) && BytesAt(data, pos + FieldSize(f), EncodeAll(tail))
  {
    EncodeLength(f);
    BytesAtSplit(data, pos, Encode(f), EncodeAll(tail));
  }

  /** Reading the kinds of a written field run returns the run and stops right after it. */
  lemma {:induction false} ReadFieldsAt(data: seq<Byte>, pos: nat, fs: seq<Field>)
    requires BytesAt(data, pos, EncodeAll(fs))
    ensures ReadFields(data, pos, KindsOf(fs)) == GotRun(fs, pos + SizeAll(fs))
    decreases |fs|, 1
  {
    if |fs| > 0 {
      ReadConsAt(data, pos, fs[0], fs[1..]);
      assert [fs[0]] + fs[1..] == fs;
    }
  }

  /** Reading one written field and then a run of fields is reading the longer run. */
  lemma ReadFieldStep(data: seq<Byte>, pos: nat, f: Field, tail: seq<Field>, next: nat, last: nat)
    requires ReadField(data, pos, KindOf(f)) == Got(f, next)
    requires ReadFields(data, next, KindsOf(tail)) == GotRun(tail, last)
    ensures ReadFields(data, pos, [KindOf(f)] + KindsOf(tail)) == GotRun([f] + tail, last)
  {
    var ks := [KindOf(f)] + KindsOf(tail);
    assert ks[1..] == KindsOf(tail);
  }

  /** `ReadFieldsAt` for a run given as its first field and the rest. */
  lemma {:induction false} ReadConsAt(data: seq<Byte>, pos: nat, f: Field, tail: seq<Field>)
    requires BytesAt(data, pos, Encode(f) + EncodeAll(tail))
    ensures ReadFields(data, pos, [KindOf(f)] + KindsOf(tail)) == GotRun([f] + tail, pos + FieldSize(f) + SizeAll(tail))
    decreases |tail| + 1, 0
  {
    SplitCons(data, pos, f, tail);
    var next := pos + FieldSize(f);
    ReadFieldsAt(data, next, tail);
    ReadFieldAt(data, pos, f);
    ReadFieldStep(data, pos, f, tail, next, next + SizeAll(tail));
  }

  /**
   * The round trip of a blob: writing `fs` into a buffer of exactly their
   * size ends at the end of the stream, and reading the same kinds from the
   * start returns `fs` and also ends at the end of the stream.
   */
  lemma BlobRoundTrip(fs: seq<Field>)
    ensures WriteAtEnd(WriteFields(NewWriteStream(SizeAll(fs)), fs))
    ensures ReadFields(EncodeAll(fs), 0, KindsOf(fs)) == GotRun(fs, |EncodeAll(fs)|)
  {
    SizeAllIsLength(fs);
    ReadFieldsAt(EncodeAll(fs), 0, fs);
  }
}
