/**
 * The staging ring of Source/Gfx.cpp: one 512 MiB upload buffer that
 * `AllocateStagingBuffer` carves into aligned pieces, wrapping to offset 0
 * when a piece would run past the end, and refusing a piece that would
 * reach into bytes still owned by a frame in flight.
 *
 * Positions are naturals in `[0, SIZE]`. The masked distances of the
 * source, `(x - tail) & MASK` on `uint64_t`, are `(x - tail) mod SIZE`,
 * because SIZE is a power of two that divides 2^64. The bytes "in use" are
 * those the mask places before `head` when walking forward from `tail`;
 * the mask cannot tell a full ring from an empty one, and neither can this
 * definition: with `head` and `tail` equal nothing counts as in use.
 */
module Staging {
  import opened Machine
  import opened Wrappers
  import Arith

  /** `GFX_STAGING_BUFFER_SIZE`, 512 MiB. */
  const SIZE: nat := 0x2000_0000
  /** The default `alignment` argument. */
  const DEFAULT_ALIGNMENT: nat := 256

  /** Alignments the mask trick `& ~(alignment - 1)` rounds correctly: powers of two up to SIZE. */
  predicate ValidAlignment(a: nat) {
    a == 1 || (a > 1 && a % 2 == 0 && a <= SIZE && ValidAlignment(a / 2))
  }

  /** `(head + alignment - 1) & ~(alignment - 1)`: the first multiple of `alignment` at or after `head`. */
  function AlignUp(head: nat, alignment: nat): (r: nat)
    requires alignment > 0
    ensures r % alignment == 0
    ensures head <= r < head + alignment
  {
    var q := (head + alignment - 1) / alignment;
    Arith.DivModUnique(q * alignment, q, 0, alignment);
    q * alignment
  }

  /** `(x - tail) & GFX_STAGING_BUFFER_MASK`: how far `x` lies after `tail` around the ring. */
  function Dist(x: int, tail: int): (d: nat)
    ensures d < SIZE
  {
    (x - tail) % SIZE
  }

  /** Byte `p` lies on the arc that runs from `tail` up to `head`. */
  predicate InUse(p: int, tail: nat, head: nat) {
    Dist(p, tail) < Dist(head, tail)
  }

  /**
   * `[lo, lo + n)` keeps clear of the arc in use: the arc is empty, the run
   * is empty, or the run starts past the arc and ends before coming round
   * to `tail` again.
   */
  predicate FreeRun(lo: nat, n: nat, tail: nat, head: nat) {
    Dist(head, tail) == 0 || n == 0 || (Dist(lo, tail) >= Dist(head, tail) && Dist(lo, tail) + n <= SIZE)
  }

  datatype Allocation = Allocation(offset: nat, head: nat)
  datatype StagingError = OutOfMemory

  /**
   * `AllocateStagingBuffer` as written, including the `uint64_t` arithmetic
   * of `offset + size` (which wraps for a size near 2^64).
   */
  function AllocateAsWritten(head: nat, tail: nat, size: U64, alignment: nat): (r: Result<Allocation, StagingError>)
    requires head <= SIZE && tail <= SIZE && ValidAlignment(alignment)
    ensures r.Success? ==> r.value.offset % alignment == 0 && r.value.head <= SIZE
    ensures r.Success? ==> r.value.head == Wrap64(r.value.offset + size)
    ensures r.Success? ==> Dist(head, tail) <= Dist(r.value.head, tail)
  {
    var aligned := AlignUp(head, alignment);
    var offset := if Wrap64(aligned + size) > SIZE then 0 else aligned;
    var end := Wrap64(offset + size);
    if end > SIZE || Dist(head, tail) > Dist(end, tail) then Failure(OutOfMemory)
    else Success(Allocation(offset, end))
  }

  /** The offset the allocator tries: the aligned head, or 0 when the piece would run past the end. */
  function ChosenOffset(head: nat, size: nat, alignment: nat): (offset: nat)
    requires alignment > 0
    ensures offset % alignment == 0
    ensures offset == 0 || (head <= offset < head + alignment && offset + size <= SIZE)
  {
    if AlignUp(head, alignment) + size > SIZE then 0 else AlignUp(head, alignment)
  }

  /**
   * `AllocateStagingBuffer` with the check it evidently intends: refuse a
   * piece larger than the ring, and refuse a piece that would cover any byte
   * in use, in the wrapping branch as well as the straight one.
   */
  function Allocate(head: nat, tail: nat, size: U64, alignment: nat): (r: Result<Allocation, StagingError>)
    requires head <= SIZE && tail <= SIZE && ValidAlignment(alignment)
    ensures r.Success? ==> r.value.offset % alignment == 0
    ensures r.Success? ==> r.value.offset + size <= SIZE && r.value.head == r.value.offset + size
    ensures r.Success? ==> r.value.offset == ChosenOffset(head, size, alignment)
  {
    var offset := ChosenOffset(head, size, alignment);
    if size > SIZE || !FreeRun(offset, size, tail, head) then Failure(OutOfMemory)
    else Success(Allocation(offset, offset + size))
  }

  /**
   * `Allocate` hands out exactly the pieces that fit in the ring and cover no
   * byte in use: it succeeds if and only if no byte of the chosen range is in use.
   */
  lemma AllocateRefusesExactlyOverlap(head: nat, tail: nat, size: U64, alignment: nat)
    requires head <= SIZE && tail <= SIZE && ValidAlignment(alignment)
    ensures Allocate(head, tail, size, alignment).Success? ==>
      forall p :: ChosenOffset(head, size, alignment) <= p < ChosenOffset(head, size, alignment) + size ==> !InUse(p, tail, head)
    ensures Allocate(head, tail, size, alignment).Failure? <==>
      size > SIZE ||
      exists p :: ChosenOffset(head, size, alignment) <= p < ChosenOffset(head, size, alignment) + size && InUse(p, tail, head)
  {
    FreeRunMeansClear(ChosenOffset(head, size, alignment), size, tail, head);
  }

  /** The distance of `lo + k` is the distance of `lo` plus `k` while that stays below SIZE. */
  lemma DistStep(lo: nat, k: nat, tail: nat)
    requires Dist(lo, tail) + k < SIZE
    ensures Dist(lo + k, tail) == Dist(lo, tail) + k
  {
    var q := (lo - tail) / SIZE;
    assert lo - tail == q * SIZE + Dist(lo, tail);
    Arith.DivModUnique(lo + k - tail, q, Dist(lo, tail) + k, SIZE);
  }

  /** `FreeRun` says exactly that no byte of the run is in use. */
  lemma {:induction false} FreeRunMeansClear(lo: nat, n: nat, tail: nat, head: nat)
    ensures FreeRun(lo, n, tail, head) <==> forall p :: lo <= p < lo + n ==> !InUse(p, tail, head)
  {
    var d, len := Dist(lo, tail), Dist(head, tail);
    if FreeRun(lo, n, tail, head) {
      if len > 0 && n > 0 {
        forall p | lo <= p < lo + n
          ensures !InUse(p, tail, head)
        {
          DistStep(lo, p - lo, tail);
        }
      }
    } else {
      assert len > 0 && n > 0;
      if d < len {
        assert InUse(lo, tail, head);
      } else {
        var k := SIZE - d;
        var p := lo + k;
        var q := (lo - tail) / SIZE;
        assert lo - tail == q * SIZE + d;
        Arith.DivModUnique(p - tail, q + 1, 0, SIZE);
        assert InUse(p, tail, head);
      }
    }
  }

  /**
   * The literal test on a straight piece `[offset, end)` starting at or after
   * `head`: the end no nearer to `tail` than `head` means the piece is clear.
   */
  lemma StraightCheckSound(head: nat, tail: nat, offset: nat, end: nat)
    requires head <= offset <= end <= SIZE && tail <= SIZE
    requires head > 0 || end < SIZE
    requires Dist(head, tail) <= Dist(end, tail)
    ensures FreeRun(offset, end - offset, tail, head)
  {
    var len := Dist(head, tail);
    if len > 0 && end > offset {
      if head >= tail {
        Arith.DivModUnique(offset - tail, 0, offset - tail, SIZE);
        Arith.DivModUnique(head - tail, 0, head - tail, SIZE);
      } else {
        Arith.DivModUnique(head - tail, -1, head - tail + SIZE, SIZE);
        if end >= tail {
          Arith.DivModUnique(end - tail, 0, end - tail, SIZE);
          assert false;
        }
        Arith.DivModUnique(offset - tail, -1, offset - tail + SIZE, SIZE);
      }
    }
  }

  /** In the straight branch the literal check returns the aligned head and passes the distance test. */
  lemma StraightAsWritten(head: nat, tail: nat, size: U64, alignment: nat, offset: nat)
    requires head <= SIZE && tail <= SIZE && ValidAlignment(alignment)
    requires offset == AlignUp(head, alignment) && offset + size <= SIZE
    requires AllocateAsWritten(head, tail, size, alignment).Success?
    ensures AllocateAsWritten(head, tail, size, alignment) == Success(Allocation(offset, offset + size))
    ensures Dist(head, tail) <= Dist(offset + size, tail)
  {
    assert Wrap64(offset + size) == offset + size;
  }

  /** A clear run at the chosen offset is handed out. */
  lemma AllocateWhenClear(head: nat, tail: nat, size: U64, alignment: nat, offset: nat)
    requires head <= SIZE && tail <= SIZE && ValidAlignment(alignment)
    requires AlignUp(head, alignment) + size <= SIZE && offset == AlignUp(head, alignment)
    requires FreeRun(offset, size, tail, head)
    ensures Allocate(head, tail, size, alignment) == Success(Allocation(offset, offset + size))
  {
    assert ChosenOffset(head, size, alignment) == offset;
  }

  /**
   * In the straight branch (no wrap, no 64-bit overflow) the literal check is
   * sound: whatever it lets through is the intended allocation. The one
   * exception is a piece of the whole ring taken at head 0.
   */
  lemma LiteralCheckWithoutWrap(head: nat, tail: nat, size: U64, alignment: nat)
    requires head <= SIZE && tail <= SIZE && ValidAlignment(alignment)
    requires AlignUp(head, alignment) + size <= SIZE
    requires head > 0 || size < SIZE
    requires AllocateAsWritten(head, tail, size, alignment).Success?
    ensures Allocate(head, tail, size, alignment) == AllocateAsWritten(head, tail, size, alignment)
  {
    var offset := AlignUp(head, alignment);
    StraightAsWritten(head, tail, size, alignment, offset);
    if head == 0 {
      Arith.DivModUnique(offset, 0, offset, alignment);
    }
    var end := offset + size;
    StraightCheckSound(head, tail, offset, end);
    assert end - offset == size;
    AllocateWhenClear(head, tail, size, alignment, offset);
  }

  /**
   * The wrapping branch of the literal check lets a piece through that covers
   * bytes in use: with 128 MiB..384 MiB in flight, a 400 MiB piece wraps to
   * offset 0 and passes, although it covers all of them.
   */
  lemma WrapOverlapExample()
    ensures AllocateAsWritten(0x1800_0000, 0x0800_0000, 0x1900_0000, DEFAULT_ALIGNMENT).Success?
    ensures AllocateAsWritten(0x1800_0000, 0x0800_0000, 0x1900_0000, DEFAULT_ALIGNMENT).value.offset == 0
    ensures InUse(0x0800_0000, 0x0800_0000, 0x1800_0000)
    ensures Allocate(0x1800_0000, 0x0800_0000, 0x1900_0000, DEFAULT_ALIGNMENT).Failure?
  {
    assert ValidAlignment(DEFAULT_ALIGNMENT);
    assert AlignUp(0x1800_0000, DEFAULT_ALIGNMENT) == 0x1800_0000;
    assert Wrap64(0x1800_0000 + 0x1900_0000) == 0x3100_0000;
    assert Wrap64(0 + 0x1900_0000) == 0x1900_0000;
    assert Dist(0x1900_0000, 0x0800_0000) == 0x1100_0000;
    assert Dist(0x1800_0000, 0x0800_0000) == 0x1000_0000;
    assert AllocateAsWritten(0x1800_0000, 0x0800_0000, 0x1900_0000, DEFAULT_ALIGNMENT) == Success(Allocation(0, 0x1900_0000));
    assert InUse(0x0800_0000, 0x0800_0000, 0x1800_0000);
    assert ChosenOffset(0x1800_0000, 0x1900_0000, DEFAULT_ALIGNMENT) == 0;
    assert Dist(0, 0x0800_0000) == 0x1800_0000;
  }

  /**
   * A size near 2^64 makes `offset + size` wrap in 64 bits, so both tests
   * pass and the piece starts at 256 although it reaches far past the ring.
   */
  lemma OverflowExample()
    ensures AllocateAsWritten(1, 1, TWO_64 - 256, DEFAULT_ALIGNMENT) == Success(Allocation(256, 0))
    ensures 256 + (TWO_64 - 256) > SIZE
    ensures Allocate(1, 1, TWO_64 - 256, DEFAULT_ALIGNMENT).Failure?
  {
    assert ValidAlignment(DEFAULT_ALIGNMENT);
    assert AlignUp(1, DEFAULT_ALIGNMENT) == 256;
    assert Wrap64(256 + (TWO_64 - 256)) == 0;
  }
}
