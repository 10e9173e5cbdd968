/**
 * GfxHash (Include/Gfx.h): the 64-bit string hash used for technique and
 * model cache keys, shader-binding names and texture names. Each step is
 * `hash = c + (hash << 6) + (hash << 16) - hash` in `uint64_t`, where `c` is a
 * (signed) `char` converted to `uint64_t`.
 */
module Hashing {
  import opened Machine
  import Arith

  /** The multiplier that the three shifted terms add up to: 2^6 + 2^16 - 1. */
  const MULTIPLIER: int := 65599

  /** A byte read through a signed `char`, as a mathematical integer. */
  function SignedChar(b: Byte): (r: int)
    ensures -128 <= r < 128
    ensures (r - b) % TWO_8 == 0
  {
    if b < 128 then b else b - TWO_8
  }

  /** `hash << k` on `uint64_t`: bits shifted past bit 63 are lost. */
  function ShiftLeft(h: U64, k: nat): U64 {
    Wrap64(h * Arith.Pow2(k))
  }

  /** One iteration of the loop, written exactly as the source's expression. */
  function Step(h: U64, b: Byte): U64 {
    Wrap64(Wrap64(SignedChar(b)) + ShiftLeft(h, 6) + ShiftLeft(h, 16) - h)
  }

  /** GfxHash of `s`: the loop folded over the bytes from first to last. */
  function Hash(s: seq<Byte>): U64 {
    if |s| == 0 then 0 else Step(Hash(s[..|s| - 1]), s[|s| - 1])
  }

  /** Reference definition: the polynomial `sum c_i * 65599^(n-1-i)` over unbounded integers. */
  function Poly(s: seq<Byte>): int {
    if |s| == 0 then 0 else Poly(s[..|s| - 1]) * MULTIPLIER + SignedChar(s[|s| - 1])
  }

  lemma ModSum(a: int, b: int, c: int, d: int)
    ensures (a % TWO_64 + b % TWO_64 + c % TWO_64 - d % TWO_64) % TWO_64 == (a + b + c - d) % TWO_64
  {
  }

  /** The shift-and-subtract step is multiplication by 65599 modulo 2^64. */
  lemma StepIsMultiply(h: U64, b: Byte)
    ensures Step(h, b) == (h * MULTIPLIER + SignedChar(b)) % TWO_64
  {
    assert Arith.Pow2(6) == 64 && Arith.Pow2(16) == 65536;
    ModSum(SignedChar(b), h * 64, h * 65536, h);
    assert h % TWO_64 == h;
  }

  lemma MulMod(x: int, y: int)
    ensures (x % TWO_64 * MULTIPLIER + y) % TWO_64 == (x * MULTIPLIER + y) % TWO_64
  {
    var q := x / TWO_64;
    assert x == q * TWO_64 + x % TWO_64;
    assert x * MULTIPLIER + y == (x % TWO_64 * MULTIPLIER + y) + q * MULTIPLIER * TWO_64;
  }

  /** GfxHash is the polynomial hash with multiplier 65599, reduced modulo 2^64. */
  lemma {:induction false} HashIsPolynomial(s: seq<Byte>)
    ensures Hash(s) == Poly(s) % TWO_64
  {
    if |s| > 0 {
      var p := s[..|s| - 1];
      HashIsPolynomial(p);
      StepIsMultiply(Hash(p), s[|s| - 1]);
      MulMod(Poly(p), SignedChar(s[|s| - 1]));
    }
  }

  /** Appending one byte to the text applies one more step to its hash. */
  lemma HashAppend(s: seq<Byte>, b: Byte)
    ensures Hash(s + [b]) == Step(Hash(s), b)
  {
    assert (s + [b])[..|s|] == s;
  }

  /** The loop of GfxHash(str, len), run over the first `len` bytes. */
  method ComputeHash(str: seq<Byte>, len: nat) returns (hash: U64)
    requires len <= |str|
    ensures hash == Hash(str[..len])
    ensures hash == Poly(str[..len]) % TWO_64
  {
    hash := 0;
    var i := 0;
    while i < len
      invariant 0 <= i <= len
      invariant hash == Hash(str[..i])
    {
      assert str[..i + 1] == str[..i] + [str[i]];
      HashAppend(str[..i], str[i]);
      hash := Step(hash, str[i]);
      i := i + 1;
    }
    HashIsPolynomial(str[..len]);
  }

  /** GFX_HASH("name"): the hash of a literal's characters without the terminating NUL. */
  function NameHash(name: string): U64 {
    Hash(Bytes(name))
  }

  /** A one-character name hashes to that character's value (sign-extended). */
  lemma SingleByteHash(b: Byte)
    ensures Hash([b]) == Wrap64(SignedChar(b))
    ensures b != 0 ==> Hash([b]) != 0
  {
    assert [b][..0] == [];
    StepIsMultiply(0, b);
  }
}
