/**
 * The frame ring of Source/Gfx.cpp: one command buffer per swapchain image,
 * the index `Curr` of the one being recorded and `Next` of the one after it,
 * and per command buffer the staging-ring head as it stood when that
 * buffer's frame ended (its "tail" watermark).
 */
module Frames {
  import opened Machine
  import opened Wrappers
  import GfxMath
  import Staging
  import Arith

  datatype Ring = Ring(tails: seq<nat>, curr: nat, next: nat, head: nat)
  {
    /** The shape `CreateSwapchain` sets up and `GfxEndFrame` keeps. */
    predicate Valid() {
      |tails| > 0 && curr < |tails| && next == (curr + 1) % |tails| &&
      head <= Staging.SIZE && forall i :: 0 <= i < |tails| ==> tails[i] <= Staging.SIZE
    }

    function Count(): nat {
      |tails|
    }
  }

  /**
   * The image count `CreateSwapchain` asks for: at least the surface
   * minimum, and at most its maximum unless that maximum is 0 ("no limit").
   */
  function RequestedImageCount(desired: U32, minCount: U32, maxCount: U32): (r: U32)
    ensures r >= minCount || (maxCount != 0 && r == maxCount)
    ensures maxCount != 0 ==> r <= maxCount
    ensures maxCount == 0 ==> r == desired || r == minCount
    ensures (minCount <= desired && (maxCount == 0 || desired <= maxCount)) ==> r == desired
  {
    if maxCount == 0 then GfxMath.Max(desired, minCount) else GfxMath.Clamp(desired, minCount, maxCount)
  }

  /** `n` zeros: the watermarks `memset` leaves in fresh command buffers. */
  function Zeros(n: nat): (r: seq<nat>)
    ensures |r| == n && forall i :: 0 <= i < n ==> r[i] == 0
  {
    if n == 0 then [] else [0] + Zeros(n - 1)
  }

  /**
   * The ring part of `CreateSwapchain`, for the `count` images the driver
   * actually created (at least one), keeping the staging head.
   */
  function CreateSwapchain(count: nat, head: nat): (r: Ring)
    requires count > 0 && head <= Staging.SIZE
    ensures r.Valid() && r.Count() == count
    ensures r.curr == 0 && r.next == 1 % count && r.head == head
  {
    Ring(Zeros(count), 0, 1 % count, head)
  }

  /** `GfxEndFrame`: record the head as the current buffer's tail and step both indices. */
  function EndFrame(r: Ring): (s: Ring)
    requires r.Valid()
    ensures s.Valid() && s.Count() == r.Count() && s.head == r.head
    ensures s.curr == r.next
    ensures s.tails[r.curr] == r.head
    ensures forall i :: 0 <= i < r.Count() && i != r.curr ==> s.tails[i] == r.tails[i]
  {
    Ring(r.tails[r.curr := r.head], r.next, (r.next + 1) % |r.tails|, r.head)
  }

  /** `k` frames ended in a row. */
  function EndFrames(r: Ring, k: nat): (s: Ring)
    requires r.Valid()
    ensures s.Valid() && s.Count() == r.Count()
    decreases k
  {
    if k == 0 then r else EndFrames(EndFrame(r), k - 1)
  }

  /** After `k` frames the ring has advanced `k` places: Curr is `k` past where it started. */
  lemma {:induction false} EndFramesRotate(r: Ring, k: nat)
    requires r.Valid()
    ensures EndFrames(r, k).curr == (r.curr + k) % r.Count()
    decreases k
  {
    var n := r.Count();
    if k == 0 {
      Arith.DivModUnique(r.curr, 0, r.curr, n);
    } else {
      var s := EndFrame(r);
      var c := r.curr + 1;
      assert s.curr == c % n;
      EndFramesRotate(s, k - 1);
      ModAdd(c, k - 1, n);
    }
  }

  /** Adding after a reduction is the same as reducing after the addition. */
  lemma ModAdd(a: int, b: int, n: int)
    requires n > 0
    ensures ((a % n) + b) % n == (a + b) % n
  {
    var q := a / n;
    assert a == q * n + a % n;
    Arith.ModShift((a % n) + b, q, n);
  }

  /** `n` steps round a ring of `n` places come back to the start. */
  lemma LapIndex(c: nat, n: nat)
    requires c < n
    ensures (c + n) % n == c
  {
    Arith.ModAddModulus(c, c + n, n);
    Arith.DivModUnique(c, 0, c, n);
  }

  /** A full lap of `n` frames, `n` the image count, brings Curr and Next back where they were. */
  lemma FullLap(r: Ring, n: nat)
    requires r.Valid() && n == r.Count()
    ensures EndFrames(r, n).curr == r.curr && EndFrames(r, n).next == r.next
  {
    EndFramesRotate(r, n);
    LapIndex(r.curr, n);
  }

  /** The result of handing out a piece of the staging ring. */
  datatype Upload = Upload(ring: Ring, offset: nat)

  /**
   * `AllocateStagingBuffer` on the device: the check consults the tail of
   * command buffer `Next`, and a success moves the head past the piece.
   */
  function AllocateUpload(r: Ring, size: U64, alignment: nat): (u: Result<Upload, Staging.StagingError>)
    requires r.Valid() && Staging.ValidAlignment(alignment)
    ensures u.Success? ==> u.value.ring.Valid()
    ensures u.Success? ==> u.value.ring == r.(head := u.value.offset + size)
    ensures u.Success? ==> u.value.offset % alignment == 0 && u.value.offset + size <= Staging.SIZE
    ensures u.Success? <==> Staging.Allocate(r.head, r.tails[r.next], size, alignment).Success?
  {
    match Staging.Allocate(r.head, r.tails[r.next], size, alignment)
    case Success(a) => Success(Upload(r.(head := a.head), a.offset))
    case Failure(e) => Failure(e)
  }
}
