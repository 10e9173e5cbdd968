/**
 * The command sequence `CmdGenerateMipmap` of Source/Gfx.cpp records: move
 * every level to a transfer destination, copy the staged pixels into level
 * 0, then for each further level blit the level above it down at half size
 * (never below one texel) and release the source level into the requested
 * layout; finally release the last level.
 */
module Mipmap {
  import opened Machine
  import GfxMath
  import Arith

  /** `VK_IMAGE_LAYOUT_*` values the schedule uses. */
  const LAYOUT_UNDEFINED: U32 := 0
  const LAYOUT_TRANSFER_SRC: U32 := 6
  const LAYOUT_TRANSFER_DST: U32 := 7
  /** `VK_ACCESS_TRANSFER_READ_BIT` and `VK_ACCESS_TRANSFER_WRITE_BIT`. */
  const ACCESS_TRANSFER_READ: U32 := 0x800
  const ACCESS_TRANSFER_WRITE: U32 := 0x1000

  /** The recorded Vulkan commands, reduced to the levels, sizes, layouts and accesses they carry. */
  datatype Event =
    | Barrier(base: nat, levels: nat, oldLayout: U32, newLayout: U32, srcAccess: U32, dstAccess: U32)
    | CopyToLevel0(width: U32, height: U32)
    | Blit(srcLevel: nat, srcWidth: U32, srcHeight: U32, dstLevel: nat, dstWidth: U32, dstHeight: U32)

  /** `Max(x >> 1, 1)`: the size of the next level down. */
  function Half(x: U32): (r: U32)
    ensures r >= 1
  {
    GfxMath.Max(x / 2, 1)
  }

  /** The size of level `k` along one axis, for a level-0 size `x`. */
  function LevelSize(x: U32, k: nat): (r: U32)
    ensures k > 0 ==> r >= 1
  {
    if k == 0 then x else Half(LevelSize(x, k - 1))
  }

  /** The three commands for level `mip`: make `mip - 1` a blit source, blit, release `mip - 1`. */
  function LevelStep(w: U32, h: U32, mip: nat, layout: U32, access: U32): seq<Event>
    requires mip >= 1
  {
    [Barrier(mip - 1, 1, LAYOUT_TRANSFER_DST, LAYOUT_TRANSFER_SRC, ACCESS_TRANSFER_WRITE, ACCESS_TRANSFER_READ),
     Blit(mip - 1, LevelSize(w, mip - 1), LevelSize(h, mip - 1), mip, LevelSize(w, mip), LevelSize(h, mip)),
     Barrier(mip - 1, 1, LAYOUT_TRANSFER_SRC, layout, ACCESS_TRANSFER_READ, access)]
  }

  /** The level steps for levels `from` up to (not including) `count`. */
  function Steps(w: U32, h: U32, from: nat, count: nat, layout: U32, access: U32): (r: seq<Event>)
    requires from >= 1
    ensures |r| == if from < count then 3 * (count - from) else 0
    decreases count - from
  {
    if from >= count then [] else LevelStep(w, h, from, layout, access) + Steps(w, h, from + 1, count, layout, access)
  }

  /** The whole schedule, level by level. */
  function Schedule(w: U32, h: U32, count: nat, layout: U32, access: U32): seq<Event>
    requires count >= 1
  {
    [Barrier(0, count, LAYOUT_UNDEFINED, LAYOUT_TRANSFER_DST, 0, ACCESS_TRANSFER_WRITE), CopyToLevel0(w, h)] +
    Steps(w, h, 1, count, layout, access) +
    [Barrier(count - 1, 1, LAYOUT_TRANSFER_DST, layout, ACCESS_TRANSFER_WRITE, access)]
  }

  /**
   * `CmdGenerateMipmap`, recording as the source does with a running width
   * and height. The mip count comes from `MipCount`, which is at least 1.
   */
  method GenerateMipmap(width: U32, height: U32, count: U32, layout: U32, access: U32) returns (events: seq<Event>)
    requires count >= 1
    ensures events == Schedule(width, height, count, layout, access)
  {
    events := [Barrier(0, count, LAYOUT_UNDEFINED, LAYOUT_TRANSFER_DST, 0, ACCESS_TRANSFER_WRITE), CopyToLevel0(width, height)];
    var w, h := width, height;
    var mip := 1;
    while mip < count
      invariant 1 <= mip <= count
      invariant w == LevelSize(width, mip - 1) && h == LevelSize(height, mip - 1)
      invariant events + Steps(width, height, mip, count, layout, access) == Schedule(width, height, count, layout, access)[..|Schedule(width, height, count, layout, access)| - 1]
    {
      var step := [Barrier(mip - 1, 1, LAYOUT_TRANSFER_DST, LAYOUT_TRANSFER_SRC, ACCESS_TRANSFER_WRITE, ACCESS_TRANSFER_READ),
                   Blit(mip - 1, w, h, mip, GfxMath.Max(w / 2, 1), GfxMath.Max(h / 2, 1)),
                   Barrier(mip - 1, 1, LAYOUT_TRANSFER_SRC, layout, ACCESS_TRANSFER_READ, access)];
      assert step == LevelStep(width, height, mip, layout, access);
      events := events + step;
      w := GfxMath.Max(w / 2, 1);
      h := GfxMath.Max(h / 2, 1);
      mip := mip + 1;
    }
    events := events + [Barrier(count - 1, 1, LAYOUT_TRANSFER_DST, layout, ACCESS_TRANSFER_WRITE, access)];
  }

  /** `x >> k` for a `uint32_t`: division by 2^k, never more than `x`. */
  function ShiftRight(x: U32, k: nat): (r: U32)
    ensures r == x / Arith.Pow2(k)
  {
    var p := Arith.Pow2(k);
    var q := x / p;
    Arith.DivAtMost(x, p);
    assert 0 <= q <= x;
    q
  }

  /** Level `k >= 1` is level 0 shifted right `k` times, but never below one texel. */
  lemma {:induction false} LevelSizeClosedForm(x: U32, k: nat)
    requires k >= 1
    ensures LevelSize(x, k) == GfxMath.Max(ShiftRight(x, k), 1)
  {
    if k > 1 {
      LevelSizeClosedForm(x, k - 1);
      var p := Arith.Pow2(k - 1);
      var q := ShiftRight(x, k - 1);
      assert q == x / p;
      Arith.DivDiv(x, p, 2);
      assert p * 2 == Arith.Pow2(k);
      assert q / 2 == ShiftRight(x, k);
      if q == 0 {
        assert ShiftRight(x, k) == 0;
      }
    }
  }

  /** Command `j` of the step for level `k`, found inside the run of steps starting at `from`. */
  lemma {:induction false} StepsAt(w: U32, h: U32, from: nat, count: nat, layout: U32, access: U32, k: nat, j: nat)
    requires 1 <= from <= k < count && j < 3
    ensures Steps(w, h, from, count, layout, access)[3 * (k - from) + j] == LevelStep(w, h, k, layout, access)[j]
    decreases k - from
  {
    if from < k {
      StepsAt(w, h, from + 1, count, layout, access, k, j);
    }
  }

  /**
   * For every level `k` from 1 to `count - 1` the schedule blits level
   * `k - 1` at its size into level `k` at half that size, at most one texel less.
   */
  lemma ScheduleBlits(w: U32, h: U32, count: nat, layout: U32, access: U32, k: nat)
    requires 1 <= k < count
    ensures Schedule(w, h, count, layout, access)[3 * k] ==
      Blit(k - 1, LevelSize(w, k - 1), LevelSize(h, k - 1), k, Half(LevelSize(w, k - 1)), Half(LevelSize(h, k - 1)))
  {
    StepsAt(w, h, 1, count, layout, access, k, 1);
  }

  /** `e` moves `level` out of a transfer layout into `layout`. */
  predicate Releases(e: Event, level: nat, layout: U32) {
    e.Barrier? && e.base <= level < e.base + e.levels && e.oldLayout != LAYOUT_UNDEFINED && e.newLayout == layout
  }

  /** How many commands of `es` release `level` into `layout`. */
  function ReleaseCount(es: seq<Event>, level: nat, layout: U32): nat
    decreases |es|
  {
    if es == [] then 0
    else ReleaseCount(es[..|es| - 1], level, layout) + (if Releases(es[|es| - 1], level, layout) then 1 else 0)
  }

  lemma {:induction false} ReleaseCountAppend(a: seq<Event>, b: seq<Event>, level: nat, layout: U32)
    ensures ReleaseCount(a + b, level, layout) == ReleaseCount(a, level, layout) + ReleaseCount(b, level, layout)
    decreases |b|
  {
    if b == [] {
      assert a + b == a;
    } else {
      var b0 := b[..|b| - 1];
      ReleaseCountAppend(a, b0, level, layout);
      assert (a + b)[..|a + b| - 1] == a + b0;
    }
  }

  /** The steps from `from` on release exactly the levels `from - 1` to `count - 2`, once each. */
  lemma {:induction false} StepsRelease(w: U32, h: U32, from: nat, count: nat, layout: U32, access: U32, level: nat)
    requires from >= 1 && layout != LAYOUT_TRANSFER_SRC
    ensures ReleaseCount(Steps(w, h, from, count, layout, access), level, layout) ==
      if from - 1 <= level && level + 1 < count then 1 else 0
    decreases count - from
  {
    if from < count {
      var step := LevelStep(w, h, from, layout, access);
      var rest := Steps(w, h, from + 1, count, layout, access);
      ReleaseCountAppend(step, rest, level, layout);
      StepsRelease(w, h, from + 1, count, layout, access, level);
      assert step[..2][..1] == [step[0]];
      assert [step[0]][..0] == [];
      assert ReleaseCount(step[..2][..1], level, layout) == 0;
      assert ReleaseCount(step[..2], level, layout) == 0;
      assert ReleaseCount(step, level, layout) == if level == from - 1 then 1 else 0;
    }
  }

  /**
   * Every level of the chain ends up in the requested layout through exactly
   * one barrier (for a requested layout other than transfer-source, which the
   * intermediate barriers also move into).
   */
  lemma ScheduleReleasesEachLevelOnce(w: U32, h: U32, count: nat, layout: U32, access: U32, level: nat)
    requires count >= 1 && level < count && layout != LAYOUT_TRANSFER_SRC
    ensures ReleaseCount(Schedule(w, h, count, layout, access), level, layout) == 1
  {
    var head := [Barrier(0, count, LAYOUT_UNDEFINED, LAYOUT_TRANSFER_DST, 0, ACCESS_TRANSFER_WRITE), CopyToLevel0(w, h)];
    var steps := Steps(w, h, 1, count, layout, access);
    var last := [Barrier(count - 1, 1, LAYOUT_TRANSFER_DST, layout, ACCESS_TRANSFER_WRITE, access)];
    ReleaseCountAppend(head + steps, last, level, layout);
    ReleaseCountAppend(head, steps, level, layout);
    StepsRelease(w, h, 1, count, layout, access, level);
    assert head[..1] == [head[0]];
    assert [head[0]][..0] == [];
    assert last[..0] == [];
    assert ReleaseCount(head, level, layout) == 0;
    assert ReleaseCount(last, level, layout) == if level == count - 1 then 1 else 0;
  }
}
