/**
 * The public vocabulary of Include/Gfx.h: the enumerations as their integer
 * codes (the C++ code passes them through `switch` statements with fallbacks
 * and copies them into byte blobs, so an out-of-range code is representable),
 * the usage bits, and the parameter structures with their default member
 * values.
 */
module Gfx {
  import opened Machine
  import opened Wrappers
  import Vk

  /** The number of `GfxFormat` enumerators: `GFX_FORMAT_UNKNOWN = 0` and 61 real formats counting up from 1. */
  const FORMAT_COUNT: int := 62

  /**
   * The `GfxFormat` enumerator names, lower-cased and without the
   * `GFX_FORMAT_` prefix, by value; codes outside the enumeration have no
   * name (the empty string).
   */
  function FormatName(format: int): string {
    match format
    case 0 => "unknown"
    case 1 => "r8_unorm"
    case 2 => "r8_snorm"
    case 3 => "r8_uint"
    case 4 => "r8_sint"
    case 5 => "r8_srgb"
    case 6 => "r8g8_unorm"
    case 7 => "r8g8_snorm"
    case 8 => "r8g8_uint"
    case 9 => "r8g8_sint"
    case 10 => "r8g8_srgb"
    case 11 => "r8g8b8_unorm"
    case 12 => "r8g8b8_snorm"
    case 13 => "r8g8b8_uint"
    case 14 => "r8g8b8_sint"
    case 15 => "r8g8b8_srgb"
    case 16 => "r8g8b8a8_unorm"
    case 17 => "r8g8b8a8_snorm"
    case 18 => "r8g8b8a8_uint"
    case 19 => "r8g8b8a8_sint"
    case 20 => "r8g8b8a8_srgb"
    case 21 => "r10g10b10a2_unorm"
    case 22 => "r10g10b10a2_snorm"
    case 23 => "r10g10b10a2_uint"
    case 24 => "r10g10b10a2_sint"
    case 25 => "r16_unorm"
    case 26 => "r16_snorm"
    case 27 => "r16_uint"
    case 28 => "r16_sint"
    case 29 => "r16_sfloat"
    case 30 => "r16g16_unorm"
    case 31 => "r16g16_snorm"
    case 32 => "r16g16_uint"
    case 33 => "r16g16_sint"
    case 34 => "r16g16_sfloat"
    case 35 => "r16g16b16_unorm"
    case 36 => "r16g16b16_snorm"
    case 37 => "r16g16b16_uint"
    case 38 => "r16g16b16_sint"
    case 39 => "r16g16b16_sfloat"
    case 40 => "r16g16b16a16_unorm"
    case 41 => "r16g16b16a16_snorm"
    case 42 => "r16g16b16a16_uint"
    case 43 => "r16g16b16a16_sint"
    case 44 => "r16g16b16a16_sfloat"
    case 45 => "r32_uint"
    case 46 => "r32_sint"
    case 47 => "r32_sfloat"
    case 48 => "r32g32_uint"
    case 49 => "r32g32_sint"
    case 50 => "r32g32_sfloat"
    case 51 => "r32g32b32_uint"
    case 52 => "r32g32b32_sint"
    case 53 => "r32g32b32_sfloat"
    case 54 => "r32g32b32a32_uint"
    case 55 => "r32g32b32a32_sint"
    case 56 => "r32g32b32a32_sfloat"
    case 57 => "r11g11b10_ufloat"
    case 58 => "d16_unorm"
    case 59 => "d32_sfloat"
    case 60 => "d16_unorm_s8_uint"
    case 61 => "d32_sfloat_s8_uint"
    case _ => ""
  }

  const FORMAT_UNKNOWN: int := 0
  /** `GFX_FORMAT_D16_UNORM`, the first of the four depth formats that end the enumeration. */
  const FORMAT_D16_UNORM: int := 58
  /** `GFX_FORMAT_D16_UNORM_S8_UINT`, the first of the two formats with a stencil part. */
  const FORMAT_D16_UNORM_S8_UINT: int := 60

  /** `GfxBufferAccess`. */
  const BUFFER_ACCESS_NONE: int := 0
  const BUFFER_ACCESS_VERTEX_READ: int := 1
  const BUFFER_ACCESS_INDEX_READ: int := 2
  const BUFFER_ACCESS_INDIRECT_READ: int := 3
  const BUFFER_ACCESS_UNIFORM_READ: int := 4
  const BUFFER_ACCESS_SHADER_READ: int := 5
  const BUFFER_ACCESS_SHADER_WRITE: int := 6
  const BUFFER_ACCESS_COPY_SRC: int := 7
  const BUFFER_ACCESS_COPY_DST: int := 8
  const BUFFER_ACCESS_COUNT: int := 9

  /** `GfxTextureType`. */
  const TEXTURE_TYPE_1D: int := 0
  const TEXTURE_TYPE_2D: int := 1

  /** `GfxTextureState`. */
  const TEXTURE_STATE_SHADER_READ: int := 0
  const TEXTURE_STATE_SHADER_WRITE: int := 1
  const TEXTURE_STATE_COLOR_ATTACHMENT: int := 2
  const TEXTURE_STATE_DEPTH_ATTACHMENT: int := 3
  const TEXTURE_STATE_COPY_SRC: int := 4
  const TEXTURE_STATE_COPY_DST: int := 5
  const TEXTURE_STATE_PRESENT: int := 6
  const TEXTURE_STATE_COUNT: int := 7

  /** `GfxBufferUsageBits`. */
  const BUFFER_USAGE_UNIFORM_BUFFER: Vk.Flags := 1 << 0
  const BUFFER_USAGE_STORAGE_BUFFER: Vk.Flags := 1 << 1
  const BUFFER_USAGE_INDEX_BUFFER: Vk.Flags := 1 << 2
  const BUFFER_USAGE_VERTEX_BUFFER: Vk.Flags := 1 << 3
  const BUFFER_USAGE_INDIRECT_BUFFER: Vk.Flags := 1 << 4

  /** `GfxTextureUsageBits`. */
  const TEXTURE_USAGE_SAMPLE: Vk.Flags := 1 << 0
  const TEXTURE_USAGE_STORE: Vk.Flags := 1 << 1
  const TEXTURE_USAGE_COLOR_ATTACHMENT: Vk.Flags := 1 << 2
  const TEXTURE_USAGE_DEPTH_ATTACHMENT: Vk.Flags := 1 << 3

  /** `GfxCreateBufferParams`; a NULL `m_Data` is `None`. */
  datatype BufferParams = BufferParams(size: U64, usage: Vk.Flags, data: Option<seq<Byte>>)

  const DEFAULT_BUFFER_PARAMS: BufferParams := BufferParams(0, 0, None)

  /** `GfxCreateTextureParams`; a NULL `m_Data` is `None`, `m_DataSize` is the length of the bytes. */
  datatype TextureParams = TextureParams(
    textureType: int,
    width: U32,
    height: U32,
    depth: U32,
    format: int,
    usage: Vk.Flags,
    initialState: int,
    data: Option<seq<Byte>>,
    generateMipmaps: bool)

  const DEFAULT_TEXTURE_PARAMS: TextureParams :=
    TextureParams(TEXTURE_TYPE_2D, 0, 1, 1, FORMAT_UNKNOWN, 0, TEXTURE_STATE_SHADER_READ, None, false)

  /** The range arguments of `GfxCmdTransitionBuffer`, defaulting to the whole buffer. */
  datatype BufferRange = BufferRange(offset: U64, size: U64)

  const DEFAULT_BUFFER_RANGE: BufferRange := BufferRange(0, U64_MAX)

  /** The range arguments of `GfxCmdTransitionTexture`, defaulting to every mip level and layer. */
  datatype TextureRange = TextureRange(baseMip: U32, mipCount: U32, baseLayer: U32, layerCount: U32)

  const DEFAULT_TEXTURE_RANGE: TextureRange := TextureRange(0, U32_MAX, 0, U32_MAX)
}
