/**
 * The translation tables of Source/GfxConversion.h: from the layer's own
 * enumerations and from the strings of technique files to Vulkan values,
 * and from Vulkan formats to texel sizes and GLSL type names. Each table is
 * written as the source writes it (a `switch` with its fallback, or a chain
 * of string comparisons ending in a default); the lemmas relate the tables
 * to each other and to independent descriptions of what they should contain.
 */
module Conversion {
  import opened Machine
  import opened Wrappers
  import Vk
  import Gfx

  /**
   * `ToVkFormat(GfxFormat)`. Every enumerator is mapped, so the fallback
   * `VK_FORMAT_MAX_ENUM` is reached exactly by codes outside the enumeration.
   */
  function VkFormatOfEnum(format: int): (r: U32)
    ensures r == Vk.MAX_ENUM <==> !(0 <= format < Gfx.FORMAT_COUNT)
  {
    match format
    case 0 => Vk.FORMAT_UNDEFINED
    case 1 => Vk.FORMAT_R8_UNORM
    case 2 => Vk.FORMAT_R8_SNORM
    case 3 => Vk.FORMAT_R8_UINT
    case 4 => Vk.FORMAT_R8_SINT
    case 5 => Vk.FORMAT_R8_SRGB
    case 6 => Vk.FORMAT_R8G8_UNORM
    case 7 => Vk.FORMAT_R8G8_SNORM
    case 8 => Vk.FORMAT_R8G8_UINT
    case 9 => Vk.FORMAT_R8G8_SINT
    case 10 => Vk.FORMAT_R8G8_SRGB
    case 11 => Vk.FORMAT_R8G8B8_UNORM
    case 12 => Vk.FORMAT_R8G8B8_SNORM
    case 13 => Vk.FORMAT_R8G8B8_UINT
    case 14 => Vk.FORMAT_R8G8B8_SINT
    case 15 => Vk.FORMAT_R8G8B8_SRGB
    case 16 => Vk.FORMAT_R8G8B8A8_UNORM
    case 17 => Vk.FORMAT_R8G8B8A8_SNORM
    case 18 => Vk.FORMAT_R8G8B8A8_UINT
    case 19 => Vk.FORMAT_R8G8B8A8_SINT
    case 20 => Vk.FORMAT_R8G8B8A8_SRGB
    case 21 => Vk.FORMAT_A2R10G10B10_UNORM_PACK32
    case 22 => Vk.FORMAT_A2R10G10B10_SNORM_PACK32
    case 23 => Vk.FORMAT_A2R10G10B10_UINT_PACK32
    case 24 => Vk.FORMAT_A2R10G10B10_SINT_PACK32
    case 25 => Vk.FORMAT_R16_UNORM
    case 26 => Vk.FORMAT_R16_SNORM
    case 27 => Vk.FORMAT_R16_UINT
    case 28 => Vk.FORMAT_R16_SINT
    case 29 => Vk.FORMAT_R16_SFLOAT
    case 30 => Vk.FORMAT_R16G16_UNORM
    case 31 => Vk.FORMAT_R16G16_SNORM
    case 32 => Vk.FORMAT_R16G16_UINT
    case 33 => Vk.FORMAT_R16G16_SINT
    case 34 => Vk.FORMAT_R16G16_SFLOAT
    case 35 => Vk.FORMAT_R16G16B16_UNORM
    case 36 => Vk.FORMAT_R16G16B16_SNORM
    case 37 => Vk.FORMAT_R16G16B16_UINT
    case 38 => Vk.FORMAT_R16G16B16_SINT
    case 39 => Vk.FORMAT_R16G16B16_SFLOAT
    case 40 => Vk.FORMAT_R16G16B16A16_UNORM
    case 41 => Vk.FORMAT_R16G16B16A16_SNORM
    case 42 => Vk.FORMAT_R16G16B16A16_UINT
    case 43 => Vk.FORMAT_R16G16B16A16_SINT
    case 44 => Vk.FORMAT_R16G16B16A16_SFLOAT
    case 45 => Vk.FORMAT_R32_UINT
    case 46 => Vk.FORMAT_R32_SINT
    case 47 => Vk.FORMAT_R32_SFLOAT
    case 48 => Vk.FORMAT_R32G32_UINT
    case 49 => Vk.FORMAT_R32G32_SINT
    case 50 => Vk.FORMAT_R32G32_SFLOAT
    case 51 => Vk.FORMAT_R32G32B32_UINT
    case 52 => Vk.FORMAT_R32G32B32_SINT
    case 53 => Vk.FORMAT_R32G32B32_SFLOAT
    case 54 => Vk.FORMAT_R32G32B32A32_UINT
    case 55 => Vk.FORMAT_R32G32B32A32_SINT
    case 56 => Vk.FORMAT_R32G32B32A32_SFLOAT
    case 57 => Vk.FORMAT_B10G11R11_UFLOAT_PACK32
    case 58 => Vk.FORMAT_D16_UNORM
    case 59 => Vk.FORMAT_D32_SFLOAT
    case 60 => Vk.FORMAT_D16_UNORM_S8_UINT
    case 61 => Vk.FORMAT_D32_SFLOAT_S8_UINT
    case _ => Vk.MAX_ENUM
  }

  /** `ToVkFormat(const char*)`: the format names of technique files; anything else is `VK_FORMAT_UNDEFINED`. */
  function VkFormatOfString(str: string): (r: U32)
  {
    if str == "r8_unorm" then Vk.FORMAT_R8_UNORM
    else if str == "r8_snorm" then Vk.FORMAT_R8_SNORM
    else if str == "r8_uint" then Vk.FORMAT_R8_UINT
    else if str == "r8_sint" then Vk.FORMAT_R8_SINT
    else if str == "r8_srgb" then Vk.FORMAT_R8_SRGB
    else if str == "r8g8_unorm" then Vk.FORMAT_R8G8_UNORM
    else if str == "r8g8_snorm" then Vk.FORMAT_R8G8_SNORM
    else if str == "r8g8_uint" then Vk.FORMAT_R8G8_UINT
    else if str == "r8g8_sint" then Vk.FORMAT_R8G8_SINT
    else if str == "r8g8_srgb" then Vk.FORMAT_R8G8_SRGB
    else if str == "r8g8b8_unorm" then Vk.FORMAT_R8G8B8_UNORM
    else if str == "r8g8b8_snorm" then Vk.FORMAT_R8G8B8_SNORM
    else if str == "r8g8b8_uint" then Vk.FORMAT_R8G8B8_UINT
    else if str == "r8g8b8_sint" then Vk.FORMAT_R8G8B8_SINT
    else if str == "r8g8b8_srgb" then Vk.FORMAT_R8G8B8_SRGB
    else if str == "r8g8b8a8_unorm" then Vk.FORMAT_R8G8B8A8_UNORM
    else if str == "r8g8b8a8_snorm" then Vk.FORMAT_R8G8B8A8_SNORM
    else if str == "r8g8b8a8_uint" then Vk.FORMAT_R8G8B8A8_UINT
    else if str == "r8g8b8a8_sint" then Vk.FORMAT_R8G8B8A8_SINT
    else if str == "r8g8b8a8_srgb" then Vk.FORMAT_R8G8B8A8_SRGB
    else if str == "r10g10b10a2_unorm" then Vk.FORMAT_A2R10G10B10_UNORM_PACK32
    else if str == "r10g10b10a2_snorm" then Vk.FORMAT_A2R10G10B10_SNORM_PACK32
    else if str == "r10g10b10a2_uint" then Vk.FORMAT_A2R10G10B10_UINT_PACK32
    else if str == "r10g10b10a2_sint" then Vk.FORMAT_A2R10G10B10_SINT_PACK32
    else if str == "r16_unorm" then Vk.FORMAT_R16_UNORM
    else if str == "r16_snorm" then Vk.FORMAT_R16_SNORM
    else if str == "r16_uint" then Vk.FORMAT_R16_UINT
    else if str == "r16_sint" then Vk.FORMAT_R16_SINT
    else if str == "r16_sfloat" then Vk.FORMAT_R16_SFLOAT
    else if str == "r16g16_unorm" then Vk.FORMAT_R16G16_UNORM
    else if str == "r16g16_snorm" then Vk.FORMAT_R16G16_SNORM
    else if str == "r16g16_uint" then Vk.FORMAT_R16G16_UINT
    else if str == "r16g16_sint" then Vk.FORMAT_R16G16_SINT
    else if str == "r16g16_sfloat" then Vk.FORMAT_R16G16_SFLOAT
    else if str == "r16g16b16_unorm" then Vk.FORMAT_R16G16B16_UNORM
    else if str == "r16g16b16_snorm" then Vk.FORMAT_R16G16B16_SNORM
    else if str == "r16g16b16_uint" then Vk.FORMAT_R16G16B16_UINT
    else if str == "r16g16b16_sint" then Vk.FORMAT_R16G16B16_SINT
    else if str == "r16g16b16_sfloat" then Vk.FORMAT_R16G16B16_SFLOAT
    else if str == "r16g16b16a16_unorm" then Vk.FORMAT_R16G16B16A16_UNORM
    else if str == "r16g16b16a16_snorm" then Vk.FORMAT_R16G16B16A16_SNORM
    else if str == "r16g16b16a16_uint" then Vk.FORMAT_R16G16B16A16_UINT
    else if str == "r16g16b16a16_sint" then Vk.FORMAT_R16G16B16A16_SINT
    else if str == "r16g16b16a16_sfloat" then Vk.FORMAT_R16G16B16A16_SFLOAT
    else if str == "r32_uint" then Vk.FORMAT_R32_UINT
    else if str == "r32_sint" then Vk.FORMAT_R32_SINT
    else if str == "r32_sfloat" then Vk.FORMAT_R32_SFLOAT
    else if str == "r32g32_uint" then Vk.FORMAT_R32G32_UINT
    else if str == "r32g32_sint" then Vk.FORMAT_R32G32_SINT
    else if str == "r32g32_sfloat" then Vk.FORMAT_R32G32_SFLOAT
    else if str == "r32g32b32_uint" then Vk.FORMAT_R32G32B32_UINT
    else if str == "r32g32b32_sint" then Vk.FORMAT_R32G32B32_SINT
    else if str == "r32g32b32_sfloat" then Vk.FORMAT_R32G32B32_SFLOAT
    else if str == "r32g32b32a32_uint" then Vk.FORMAT_R32G32B32A32_UINT
    else if str == "r32g32b32a32_sint" then Vk.FORMAT_R32G32B32A32_SINT
    else if str == "r32g32b32a32_sfloat" then Vk.FORMAT_R32G32B32A32_SFLOAT
    else if str == "r11g11b10_ufloat" then Vk.FORMAT_B10G11R11_UFLOAT_PACK32
    else if str == "d16_unorm" then Vk.FORMAT_D16_UNORM
    else if str == "d32_sfloat" then Vk.FORMAT_D32_SFLOAT
    else if str == "d16_unorm_s8_uint" then Vk.FORMAT_D16_UNORM_S8_UINT
    else if str == "d32_sfloat_s8_uint" then Vk.FORMAT_D32_SFLOAT_S8_UINT
    else Vk.FORMAT_UNDEFINED
  }

  /** `ToTexelStride`: bytes per texel of a vertex attribute format; 0 for a format it does not know. */
  function TexelStride(format: U32): (r: U32)
  {
    if format in {Vk.FORMAT_R8_UNORM, Vk.FORMAT_R8_SNORM, Vk.FORMAT_R8_UINT, Vk.FORMAT_R8_SINT,
        Vk.FORMAT_R8_SRGB}
    then 1
    else if format in {Vk.FORMAT_R8G8_UNORM, Vk.FORMAT_R8G8_SNORM, Vk.FORMAT_R8G8_UINT,
        Vk.FORMAT_R8G8_SINT, Vk.FORMAT_R8G8_SRGB, Vk.FORMAT_R16_UNORM,
        Vk.FORMAT_R16_SNORM, Vk.FORMAT_R16_UINT, Vk.FORMAT_R16_SINT,
        Vk.FORMAT_R16_SFLOAT, Vk.FORMAT_D16_UNORM}
    then 2
    else if format in {Vk.FORMAT_R8G8B8_UNORM, Vk.FORMAT_R8G8B8_SNORM, Vk.FORMAT_R8G8B8_UINT,
        Vk.FORMAT_R8G8B8_SINT, Vk.FORMAT_R8G8B8_SRGB, Vk.FORMAT_D16_UNORM_S8_UINT}
    then 3
    else if format in {Vk.FORMAT_R8G8B8A8_UNORM, Vk.FORMAT_R8G8B8A8_SNORM, Vk.FORMAT_R8G8B8A8_UINT,
        Vk.FORMAT_R8G8B8A8_SINT, Vk.FORMAT_R8G8B8A8_SRGB,
        Vk.FORMAT_A2R10G10B10_UNORM_PACK32, Vk.FORMAT_A2R10G10B10_SNORM_PACK32,
        Vk.FORMAT_A2R10G10B10_UINT_PACK32, Vk.FORMAT_A2R10G10B10_SINT_PACK32,
        Vk.FORMAT_R16G16_UNORM, Vk.FORMAT_R16G16_SNORM, Vk.FORMAT_R16G16_UINT,
        Vk.FORMAT_R16G16_SINT, Vk.FORMAT_R16G16_SFLOAT, Vk.FORMAT_R32_UINT,
        Vk.FORMAT_R32_SINT, Vk.FORMAT_R32_SFLOAT, Vk.FORMAT_B10G11R11_UFLOAT_PACK32,
        Vk.FORMAT_D32_SFLOAT}
    then 4
    else if format in {Vk.FORMAT_R16G16B16_UNORM, Vk.FORMAT_R16G16B16_SNORM, Vk.FORMAT_R16G16B16_UINT,
        Vk.FORMAT_R16G16B16_SINT, Vk.FORMAT_R16G16B16_SFLOAT}
    then 6
    else if format in {Vk.FORMAT_R16G16B16A16_UNORM, Vk.FORMAT_R16G16B16A16_SNORM,
        Vk.FORMAT_R16G16B16A16_UINT, Vk.FORMAT_R16G16B16A16_SINT,
        Vk.FORMAT_R16G16B16A16_SFLOAT, Vk.FORMAT_R32G32_UINT, Vk.FORMAT_R32G32_SINT,
        Vk.FORMAT_R32G32_SFLOAT, Vk.FORMAT_D32_SFLOAT_S8_UINT}
    then 8
    else if format in {Vk.FORMAT_R32G32B32_UINT, Vk.FORMAT_R32G32B32_SINT, Vk.FORMAT_R32G32B32_SFLOAT}
    then 12
    else if format in {Vk.FORMAT_R32G32B32A32_UINT, Vk.FORMAT_R32G32B32A32_SINT,
        Vk.FORMAT_R32G32B32A32_SFLOAT}
    then 16
    else 0
  }

  /** `ToShaderFormatString`: the GLSL type of a vertex attribute; `None` is the NULL the source returns. */
  function ShaderFormatString(format: U32): (r: Option<string>)
  {
    if format in {Vk.FORMAT_R8_UNORM, Vk.FORMAT_R8_SNORM, Vk.FORMAT_R8_SRGB, Vk.FORMAT_R16_UNORM,
        Vk.FORMAT_R16_SNORM, Vk.FORMAT_R16_SFLOAT, Vk.FORMAT_R32_SFLOAT}
    then Some("float")
    else if format in {Vk.FORMAT_R8G8_UNORM, Vk.FORMAT_R8G8_SNORM, Vk.FORMAT_R8G8_SRGB,
        Vk.FORMAT_R16G16_UNORM, Vk.FORMAT_R16G16_SNORM, Vk.FORMAT_R16G16_SFLOAT,
        Vk.FORMAT_R32G32_SFLOAT}
    then Some("vec2")
    else if format in {Vk.FORMAT_R8G8B8_UNORM, Vk.FORMAT_R8G8B8_SNORM, Vk.FORMAT_R8G8B8_SRGB,
        Vk.FORMAT_R16G16B16_UNORM, Vk.FORMAT_R16G16B16_SNORM, Vk.FORMAT_R16G16B16_SFLOAT,
        Vk.FORMAT_R32G32B32_SFLOAT, Vk.FORMAT_B10G11R11_UFLOAT_PACK32}
    then Some("vec3")
    else if format in {Vk.FORMAT_R8G8B8A8_UNORM, Vk.FORMAT_R8G8B8A8_SNORM, Vk.FORMAT_R8G8B8A8_SRGB,
        Vk.FORMAT_A2R10G10B10_UNORM_PACK32, Vk.FORMAT_A2R10G10B10_SNORM_PACK32,
        Vk.FORMAT_R16G16B16A16_UNORM, Vk.FORMAT_R16G16B16A16_SNORM,
        Vk.FORMAT_R16G16B16A16_SFLOAT, Vk.FORMAT_R32G32B32A32_SFLOAT}
    then Some("vec4")
    else if format in {Vk.FORMAT_R8_UINT, Vk.FORMAT_R16_UINT, Vk.FORMAT_R32_UINT}
    then Some("uint")
    else if format in {Vk.FORMAT_R8G8_UINT, Vk.FORMAT_R16G16_UINT, Vk.FORMAT_R32G32_UINT}
    then Some("uvec2")
    else if format in {Vk.FORMAT_R8G8B8_UINT, Vk.FORMAT_R16G16B16_UINT, Vk.FORMAT_R32G32B32_UINT}
    then Some("uvec3")
    else if format in {Vk.FORMAT_R8G8B8A8_UINT, Vk.FORMAT_A2R10G10B10_UINT_PACK32,
        Vk.FORMAT_R16G16B16A16_UINT, Vk.FORMAT_R32G32B32A32_UINT}
    then Some("uvec4")
    else if format in {Vk.FORMAT_R8_SINT, Vk.FORMAT_R16_SINT, Vk.FORMAT_R32_SINT}
    then Some("int")
    else if format in {Vk.FORMAT_R8G8_SINT, Vk.FORMAT_R16G16_SINT, Vk.FORMAT_R32G32_SINT}
    then Some("ivec2")
    else if format in {Vk.FORMAT_R8G8B8_SINT, Vk.FORMAT_R16G16B16_SINT, Vk.FORMAT_R32G32B32_SINT}
    then Some("ivec3")
    else if format in {Vk.FORMAT_R8G8B8A8_SINT, Vk.FORMAT_A2R10G10B10_SINT_PACK32,
        Vk.FORMAT_R16G16B16A16_SINT, Vk.FORMAT_R32G32B32A32_SINT}
    then Some("ivec4")
    else None
  }

  /** An inverse of `VkFormatOfEnum` on the formats it produces, used to name witnesses. */
  function GfxFormatOfVk(format: U32): int
  {
    if format == Vk.FORMAT_R8_UNORM then 1
    else if format == Vk.FORMAT_R8_SNORM then 2
    else if format == Vk.FORMAT_R8_UINT then 3
    else if format == Vk.FORMAT_R8_SINT then 4
    else if format == Vk.FORMAT_R8_SRGB then 5
    else if format == Vk.FORMAT_R8G8_UNORM then 6
    else if format == Vk.FORMAT_R8G8_SNORM then 7
    else if format == Vk.FORMAT_R8G8_UINT then 8
    else if format == Vk.FORMAT_R8G8_SINT then 9
    else if format == Vk.FORMAT_R8G8_SRGB then 10
    else if format == Vk.FORMAT_R8G8B8_UNORM then 11
    else if format == Vk.FORMAT_R8G8B8_SNORM then 12
    else if format == Vk.FORMAT_R8G8B8_UINT then 13
    else if format == Vk.FORMAT_R8G8B8_SINT then 14
    else if format == Vk.FORMAT_R8G8B8_SRGB then 15
    else if format == Vk.FORMAT_R8G8B8A8_UNORM then 16
    else if format == Vk.FORMAT_R8G8B8A8_SNORM then 17
    else if format == Vk.FORMAT_R8G8B8A8_UINT then 18
    else if format == Vk.FORMAT_R8G8B8A8_SINT then 19
    else if format == Vk.FORMAT_R8G8B8A8_SRGB then 20
    else if format == Vk.FORMAT_A2R10G10B10_UNORM_PACK32 then 21
    else if format == Vk.FORMAT_A2R10G10B10_SNORM_PACK32 then 22
    else if format == Vk.FORMAT_A2R10G10B10_UINT_PACK32 then 23
    else if format == Vk.FORMAT_A2R10G10B10_SINT_PACK32 then 24
    else if format == Vk.FORMAT_R16_UNORM then 25
    else if format == Vk.FORMAT_R16_SNORM then 26
    else if format == Vk.FORMAT_R16_UINT then 27
    else if format == Vk.FORMAT_R16_SINT then 28
    else if format == Vk.FORMAT_R16_SFLOAT then 29
    else if format == Vk.FORMAT_R16G16_UNORM then 30
    else if format == Vk.FORMAT_R16G16_SNORM then 31
    else if format == Vk.FORMAT_R16G16_UINT then 32
    else if format == Vk.FORMAT_R16G16_SINT then 33
    else if format == Vk.FORMAT_R16G16_SFLOAT then 34
    else if format == Vk.FORMAT_R16G16B16_UNORM then 35
    else if format == Vk.FORMAT_R16G16B16_SNORM then 36
    else if format == Vk.FORMAT_R16G16B16_UINT then 37
    else if format == Vk.FORMAT_R16G16B16_SINT then 38
    else if format == Vk.FORMAT_R16G16B16_SFLOAT then 39
    else if format == Vk.FORMAT_R16G16B16A16_UNORM then 40
    else if format == Vk.FORMAT_R16G16B16A16_SNORM then 41
    else if format == Vk.FORMAT_R16G16B16A16_UINT then 42
    else if format == Vk.FORMAT_R16G16B16A16_SINT then 43
    else if format == Vk.FORMAT_R16G16B16A16_SFLOAT then 44
    else if format == Vk.FORMAT_R32_UINT then 45
    else if format == Vk.FORMAT_R32_SINT then 46
    else if format == Vk.FORMAT_R32_SFLOAT then 47
    else if format == Vk.FORMAT_R32G32_UINT then 48
    else if format == Vk.FORMAT_R32G32_SINT then 49
    else if format == Vk.FORMAT_R32G32_SFLOAT then 50
    else if format == Vk.FORMAT_R32G32B32_UINT then 51
    else if format == Vk.FORMAT_R32G32B32_SINT then 52
    else if format == Vk.FORMAT_R32G32B32_SFLOAT then 53
    else if format == Vk.FORMAT_R32G32B32A32_UINT then 54
    else if format == Vk.FORMAT_R32G32B32A32_SINT then 55
    else if format == Vk.FORMAT_R32G32B32A32_SFLOAT then 56
    else if format == Vk.FORMAT_B10G11R11_UFLOAT_PACK32 then 57
    else if format == Vk.FORMAT_D16_UNORM then 58
    else if format == Vk.FORMAT_D32_SFLOAT then 59
    else if format == Vk.FORMAT_D16_UNORM_S8_UINT then 60
    else if format == Vk.FORMAT_D32_SFLOAT_S8_UINT then 61
    else Gfx.FORMAT_UNKNOWN
  }

  /** `NamedFormat` for the names at positions 1 to 12 of the comparison chain. */
  lemma NamedFormatIn1(str: string) returns (format: int)
    requires str in {"r8_unorm", "r8_snorm", "r8_uint", "r8_sint", "r8_srgb", "r8g8_unorm",
        "r8g8_snorm", "r8g8_uint", "r8g8_sint", "r8g8_srgb", "r8g8b8_unorm",
        "r8g8b8_snorm"}
    ensures 0 < format < Gfx.FORMAT_COUNT && Gfx.FormatName(format) == str && VkFormatOfEnum(format) == VkFormatOfString(str)
  {
    if str == "r8_unorm" {
      format := 1;
    } else if str == "r8_snorm" {
      format := 2;
    } else if str == "r8_uint" {
      format := 3;
    } else if str == "r8_sint" {
      format := 4;
    } else if str == "r8_srgb" {
      format := 5;
    } else if str == "r8g8_unorm" {
      format := 6;
    } else if str == "r8g8_snorm" {
      format := 7;
    } else if str == "r8g8_uint" {
      format := 8;
    } else if str == "r8g8_sint" {
      format := 9;
    } else if str == "r8g8_srgb" {
      format := 10;
    } else if str == "r8g8b8_unorm" {
      format := 11;
    } else {
      format := 12;
    }
  }

  /** `NamedFormat` for the names at positions 13 to 24 of the comparison chain. */
  lemma NamedFormatIn2(str: string) returns (format: int)
    requires str in {"r8g8b8_uint", "r8g8b8_sint", "r8g8b8_srgb", "r8g8b8a8_unorm", "r8g8b8a8_snorm",
        "r8g8b8a8_uint", "r8g8b8a8_sint", "r8g8b8a8_srgb", "r10g10b10a2_unorm",
        "r10g10b10a2_snorm", "r10g10b10a2_uint", "r10g10b10a2_sint"}
    requires str !in {"r8_unorm", "r8_snorm", "r8_uint", "r8_sint", "r8_srgb", "r8g8_unorm",
        "r8g8_snorm", "r8g8_uint", "r8g8_sint", "r8g8_srgb", "r8g8b8_unorm",
        "r8g8b8_snorm"}
    ensures 0 < format < Gfx.FORMAT_COUNT && Gfx.FormatName(format) == str && VkFormatOfEnum(format) == VkFormatOfString(str)
  {
    if str == "r8g8b8_uint" {
      format := 13;
    } else if str == "r8g8b8_sint" {
      format := 14;
    } else if str == "r8g8b8_srgb" {
      format := 15;
    } else if str == "r8g8b8a8_unorm" {
      format := 16;
    } else if str == "r8g8b8a8_snorm" {
      format := 17;
    } else if str == "r8g8b8a8_uint" {
      format := 18;
    } else if str == "r8g8b8a8_sint" {
      format := 19;
    } else if str == "r8g8b8a8_srgb" {
      format := 20;
    } else if str == "r10g10b10a2_unorm" {
      format := 21;
    } else if str == "r10g10b10a2_snorm" {
      format := 22;
    } else if str == "r10g10b10a2_uint" {
      format := 23;
    } else {
      format := 24;
    }
  }

  /** `NamedFormat` for the names at positions 25 to 34 of the comparison chain. */
  lemma NamedFormatIn3(str: string) returns (format: int)
    requires str in {"r16_unorm", "r16_snorm", "r16_uint", "r16_sint", "r16_sfloat", "r16g16_unorm",
        "r16g16_snorm", "r16g16_uint", "r16g16_sint", "r16g16_sfloat"}
    requires str !in {"r8_unorm", "r8_snorm", "r8_uint", "r8_sint", "r8_srgb", "r8g8_unorm",
        "r8g8_snorm", "r8g8_uint", "r8g8_sint", "r8g8_srgb", "r8g8b8_unorm",
        "r8g8b8_snorm", "r8g8b8_uint", "r8g8b8_sint", "r8g8b8_srgb", "r8g8b8a8_unorm",
        "r8g8b8a8_snorm", "r8g8b8a8_uint", "r8g8b8a8_sint", "r8g8b8a8_srgb",
        "r10g10b10a2_unorm", "r10g10b10a2_snorm", "r10g10b10a2_uint", "r10g10b10a2_sint"}
    ensures 0 < format < Gfx.FORMAT_COUNT && Gfx.FormatName(format) == str && VkFormatOfEnum(format) == VkFormatOfString(str)
  {
    if str == "r16_unorm" {
      format := 25;
    } else if str == "r16_snorm" {
      format := 26;
    } else if str == "r16_uint" {
      format := 27;
    } else if str == "r16_sint" {
      format := 28;
    } else if str == "r16_sfloat" {
      format := 29;
    } else if str == "r16g16_unorm" {
      format := 30;
    } else if str == "r16g16_snorm" {
      format := 31;
    } else if str == "r16g16_uint" {
      format := 32;
    } else if str == "r16g16_sint" {
      format := 33;
    } else {
      format := 34;
    }
  }

  /** `NamedFormat` for the names at positions 35 to 43 of the comparison chain. */
  lemma NamedFormatIn4(str: string) returns (format: int)
    requires str in {"r16g16b16_unorm", "r16g16b16_snorm", "r16g16b16_uint", "r16g16b16_sint",
        "r16g16b16_sfloat", "r16g16b16a16_unorm", "r16g16b16a16_snorm",
        "r16g16b16a16_uint", "r16g16b16a16_sint"}
    requires str !in {"r8_unorm", "r8_snorm", "r8_uint", "r8_sint", "r8_srgb", "r8g8_unorm",
        "r8g8_snorm", "r8g8_uint", "r8g8_sint", "r8g8_srgb", "r8g8b8_unorm",
        "r8g8b8_snorm", "r8g8b8_uint", "r8g8b8_sint", "r8g8b8_srgb", "r8g8b8a8_unorm",
        "r8g8b8a8_snorm", "r8g8b8a8_uint", "r8g8b8a8_sint", "r8g8b8a8_srgb",
        "r10g10b10a2_unorm", "r10g10b10a2_snorm", "r10g10b10a2_uint", "r10g10b10a2_sint",
        "r16_unorm", "r16_snorm", "r16_uint", "r16_sint", "r16_sfloat", "r16g16_unorm",
        "r16g16_snorm", "r16g16_uint", "r16g16_sint", "r16g16_sfloat"}
    ensures 0 < format < Gfx.FORMAT_COUNT && Gfx.FormatName(format) == str && VkFormatOfEnum(format) == VkFormatOfString(str)
  {
    if str == "r16g16b16_unorm" {
      format := 35;
    } else if str == "r16g16b16_snorm" {
      format := 36;
    } else if str == "r16g16b16_uint" {
      format := 37;
    } else if str == "r16g16b16_sint" {
      format := 38;
    } else if str == "r16g16b16_sfloat" {
      format := 39;
    } else if str == "r16g16b16a16_unorm" {
      format := 40;
    } else if str == "r16g16b16a16_snorm" {
      format := 41;
    } else if str == "r16g16b16a16_uint" {
      format := 42;
    } else {
      format := 43;
    }
  }

  /** `NamedFormat` for the names at positions 44 to 47 of the comparison chain. */
  lemma NamedFormatIn5(str: string) returns (format: int)
    requires str in {"r16g16b16a16_sfloat", "r32_uint", "r32_sint", "r32_sfloat"}
    requires str !in {"r8_unorm", "r8_snorm", "r8_uint", "r8_sint", "r8_srgb", "r8g8_unorm",
        "r8g8_snorm", "r8g8_uint", "r8g8_sint", "r8g8_srgb", "r8g8b8_unorm",
        "r8g8b8_snorm", "r8g8b8_uint", "r8g8b8_sint", "r8g8b8_srgb", "r8g8b8a8_unorm",
        "r8g8b8a8_snorm", "r8g8b8a8_uint", "r8g8b8a8_sint", "r8g8b8a8_srgb",
        "r10g10b10a2_unorm", "r10g10b10a2_snorm", "r10g10b10a2_uint", "r10g10b10a2_sint",
        "r16_unorm", "r16_snorm", "r16_uint", "r16_sint", "r16_sfloat", "r16g16_unorm",
        "r16g16_snorm", "r16g16_uint", "r16g16_sint", "r16g16_sfloat", "r16g16b16_unorm",
        "r16g16b16_snorm", "r16g16b16_uint", "r16g16b16_sint", "r16g16b16_sfloat",
        "r16g16b16a16_unorm", "r16g16b16a16_snorm", "r16g16b16a16_uint",
        "r16g16b16a16_sint"}
    ensures 0 < format < Gfx.FORMAT_COUNT && Gfx.FormatName(format) == str && VkFormatOfEnum(format) == VkFormatOfString(str)
  {
    if str == "r16g16b16a16_sfloat" {
      format := 44;
    } else if str == "r32_uint" {
      format := 45;
    } else if str == "r32_sint" {
      format := 46;
    } else {
      format := 47;
    }
  }

  /** `NamedFormat` for the names at positions 48 to 51 of the comparison chain. */
  lemma NamedFormatIn6(str: string) returns (format: int)
    requires str in {"r32g32_uint", "r32g32_sint", "r32g32_sfloat", "r32g32b32_uint"}
    requires str !in {"r8_unorm", "r8_snorm", "r8_uint", "r8_sint", "r8_srgb", "r8g8_unorm",
        "r8g8_snorm", "r8g8_uint", "r8g8_sint", "r8g8_srgb", "r8g8b8_unorm",
        "r8g8b8_snorm", "r8g8b8_uint", "r8g8b8_sint", "r8g8b8_srgb", "r8g8b8a8_unorm",
        "r8g8b8a8_snorm", "r8g8b8a8_uint", "r8g8b8a8_sint", "r8g8b8a8_srgb",
        "r10g10b10a2_unorm", "r10g10b10a2_snorm", "r10g10b10a2_uint", "r10g10b10a2_sint",
        "r16_unorm", "r16_snorm", "r16_uint", "r16_sint", "r16_sfloat", "r16g16_unorm",
        "r16g16_snorm", "r16g16_uint", "r16g16_sint", "r16g16_sfloat", "r16g16b16_unorm",
        "r16g16b16_snorm", "r16g16b16_uint", "r16g16b16_sint", "r16g16b16_sfloat",
        "r16g16b16a16_unorm", "r16g16b16a16_snorm", "r16g16b16a16_uint",
        "r16g16b16a16_sint",
        "r16g16b16a16_sfloat", "r32_uint", "r32_sint", "r32_sfloat"}
    ensures 0 < format < Gfx.FORMAT_COUNT && Gfx.FormatName(format) == str && VkFormatOfEnum(format) == VkFormatOfString(str)
  {
    if str == "r32g32_uint" {
      format := 48;
    } else if str == "r32g32_sint" {
      format := 49;
    } else if str == "r32g32_sfloat" {
      format := 50;
    } else {
      format := 51;
    }
  }

  /** `NamedFormat` for the names at positions 52 to 56 of the comparison chain. */
  lemma NamedFormatIn7(str: string) returns (format: int)
    requires str in {"r32g32b32_sint", "r32g32b32_sfloat", "r32g32b32a32_uint", "r32g32b32a32_sint",
        "r32g32b32a32_sfloat"}
    requires str !in {"r8_unorm", "r8_snorm", "r8_uint", "r8_sint", "r8_srgb", "r8g8_unorm",
        "r8g8_snorm", "r8g8_uint", "r8g8_sint", "r8g8_srgb", "r8g8b8_unorm",
        "r8g8b8_snorm", "r8g8b8_uint", "r8g8b8_sint", "r8g8b8_srgb", "r8g8b8a8_unorm",
        "r8g8b8a8_snorm", "r8g8b8a8_uint", "r8g8b8a8_sint", "r8g8b8a8_srgb",
        "r10g10b10a2_unorm", "r10g10b10a2_snorm", "r10g10b10a2_uint", "r10g10b10a2_sint",
        "r16_unorm", "r16_snorm", "r16_uint", "r16_sint", "r16_sfloat", "r16g16_unorm",
        "r16g16_snorm", "r16g16_uint", "r16g16_sint", "r16g16_sfloat", "r16g16b16_unorm",
        "r16g16b16_snorm", "r16g16b16_uint", "r16g16b16_sint", "r16g16b16_sfloat",
        "r16g16b16a16_unorm", "r16g16b16a16_snorm", "r16g16b16a16_uint",
        "r16g16b16a16_sint", "r16g16b16a16_sfloat", "r32_uint", "r32_sint", "r32_sfloat",
        "r32g32_uint", "r32g32_sint", "r32g32_sfloat", "r32g32b32_uint"}
    ensures 0 < format < Gfx.FORMAT_COUNT && Gfx.FormatName(format) == str && VkFormatOfEnum(format) == VkFormatOfString(str)
  {
    if str == "r32g32b32_sint" {
      format := 52;
    } else if str == "r32g32b32_sfloat" {
      format := 53;
    } else if str == "r32g32b32a32_uint" {
      format := 54;
    } else if str == "r32g32b32a32_sint" {
      format := 55;
    } else {
      format := 56;
    }
  }

  /** `NamedFormat` for the names at positions 57 to 61 of the comparison chain. */
  lemma NamedFormatIn8(str: string) returns (format: int)
    requires str in {"r11g11b10_ufloat", "d16_unorm", "d32_sfloat", "d16_unorm_s8_uint",
        "d32_sfloat_s8_uint"}
    requires str !in {"r8_unorm", "r8_snorm", "r8_uint", "r8_sint", "r8_srgb", "r8g8_unorm",
        "r8g8_snorm", "r8g8_uint", "r8g8_sint", "r8g8_srgb", "r8g8b8_unorm",
        "r8g8b8_snorm", "r8g8b8_uint", "r8g8b8_sint", "r8g8b8_srgb", "r8g8b8a8_unorm",
        "r8g8b8a8_snorm", "r8g8b8a8_uint", "r8g8b8a8_sint", "r8g8b8a8_srgb",
        "r10g10b10a2_unorm", "r10g10b10a2_snorm", "r10g10b10a2_uint", "r10g10b10a2_sint",
        "r16_unorm", "r16_snorm", "r16_uint", "r16_sint", "r16_sfloat", "r16g16_unorm",
        "r16g16_snorm", "r16g16_uint", "r16g16_sint", "r16g16_sfloat", "r16g16b16_unorm",
        "r16g16b16_snorm", "r16g16b16_uint", "r16g16b16_sint", "r16g16b16_sfloat",
        "r16g16b16a16_unorm", "r16g16b16a16_snorm", "r16g16b16a16_uint",
        "r16g16b16a16_sint", "r16g16b16a16_sfloat", "r32_uint", "r32_sint", "r32_sfloat",
        "r32g32_uint", "r32g32_sint", "r32g32_sfloat", "r32g32b32_uint",
        "r32g32b32_sint", "r32g32b32_sfloat", "r32g32b32a32_uint", "r32g32b32a32_sint",
        "r32g32b32a32_sfloat"}
    ensures 0 < format < Gfx.FORMAT_COUNT && Gfx.FormatName(format) == str && VkFormatOfEnum(format) == VkFormatOfString(str)
  {
    if str == "r11g11b10_ufloat" {
      format := 57;
    } else if str == "d16_unorm" {
      format := 58;
    } else if str == "d32_sfloat" {
      format := 59;
    } else if str == "d16_unorm_s8_uint" {
      format := 60;
    } else {
      format := 61;
    }
  }

  /** The enumerator whose name the string parser recognised, with its `GfxFormat` value. */
  lemma NamedFormat(str: string) returns (format: int)
    ensures VkFormatOfString(str) != Vk.FORMAT_UNDEFINED ==>
      0 < format < Gfx.FORMAT_COUNT && Gfx.FormatName(format) == str && VkFormatOfEnum(format) == VkFormatOfString(str)
  {
    if str in {"r8_unorm", "r8_snorm", "r8_uint", "r8_sint", "r8_srgb", "r8g8_unorm",
        "r8g8_snorm", "r8g8_uint", "r8g8_sint", "r8g8_srgb", "r8g8b8_unorm",
        "r8g8b8_snorm"} {
      format := NamedFormatIn1(str);
    } else if str in {"r8g8b8_uint", "r8g8b8_sint", "r8g8b8_srgb", "r8g8b8a8_unorm", "r8g8b8a8_snorm",
        "r8g8b8a8_uint", "r8g8b8a8_sint", "r8g8b8a8_srgb", "r10g10b10a2_unorm",
        "r10g10b10a2_snorm", "r10g10b10a2_uint", "r10g10b10a2_sint"} {
      format := NamedFormatIn2(str);
    } else if str in {"r16_unorm", "r16_snorm", "r16_uint", "r16_sint", "r16_sfloat", "r16g16_unorm",
        "r16g16_snorm", "r16g16_uint", "r16g16_sint", "r16g16_sfloat"} {
      format := NamedFormatIn3(str);
    } else if str in {"r16g16b16_unorm", "r16g16b16_snorm", "r16g16b16_uint", "r16g16b16_sint",
        "r16g16b16_sfloat", "r16g16b16a16_unorm", "r16g16b16a16_snorm",
        "r16g16b16a16_uint", "r16g16b16a16_sint"} {
      format := NamedFormatIn4(str);
    } else if str in {"r16g16b16a16_sfloat", "r32_uint", "r32_sint", "r32_sfloat"} {
      format := NamedFormatIn5(str);
    } else if str in {"r32g32_uint", "r32g32_sint", "r32g32_sfloat", "r32g32b32_uint"} {
      format := NamedFormatIn6(str);
    } else if str in {"r32g32b32_sint", "r32g32b32_sfloat", "r32g32b32a32_uint", "r32g32b32a32_sint",
        "r32g32b32a32_sfloat"} {
      format := NamedFormatIn7(str);
    } else if str in {"r11g11b10_ufloat", "d16_unorm", "d32_sfloat", "d16_unorm_s8_uint",
        "d32_sfloat_s8_uint"} {
      format := NamedFormatIn8(str);
    } else {
      format := Gfx.FORMAT_UNKNOWN;
    }
  }

  /** A string the parser rejects is not the name of any of the formats 1 to 12. */
  lemma RejectedNamesIn1(str: string)
    requires VkFormatOfString(str) == Vk.FORMAT_UNDEFINED
    ensures forall format | 1 <= format <= 12 :: str != Gfx.FormatName(format)
  {
    assert str != "r8_unorm";
    assert str != "r8_snorm";
    assert str != "r8_uint";
    assert str != "r8_sint";
    assert str != "r8_srgb";
    assert str != "r8g8_unorm";
    assert str != "r8g8_snorm";
    assert str != "r8g8_uint";
    assert str != "r8g8_sint";
    assert str != "r8g8_srgb";
    assert str != "r8g8b8_unorm";
    assert str != "r8g8b8_snorm";
  }

  /** A string the parser rejects is not the name of any of the formats 13 to 24. */
  lemma RejectedNamesIn2(str: string)
    requires VkFormatOfString(str) == Vk.FORMAT_UNDEFINED
    ensures forall format | 13 <= format <= 24 :: str != Gfx.FormatName(format)
  {
    assert str != "r8_unorm";
    assert str != "r8_snorm";
    assert str != "r8_uint";
    assert str != "r8_sint";
    assert str != "r8_srgb";
    assert str != "r8g8_unorm";
    assert str != "r8g8_snorm";
    assert str != "r8g8_uint";
    assert str != "r8g8_sint";
    assert str != "r8g8_srgb";
    assert str != "r8g8b8_unorm";
    assert str != "r8g8b8_snorm";
    assert str != "r8g8b8_uint";
    assert str != "r8g8b8_sint";
    assert str != "r8g8b8_srgb";
    assert str != "r8g8b8a8_unorm";
    assert str != "r8g8b8a8_snorm";
    assert str != "r8g8b8a8_uint";
    assert str != "r8g8b8a8_sint";
    assert str != "r8g8b8a8_srgb";
    assert str != "r10g10b10a2_unorm";
    assert str != "r10g10b10a2_snorm";
    assert str != "r10g10b10a2_uint";
    assert str != "r10g10b10a2_sint";
  }

  /** A string the parser rejects is not the name of any of the formats 25 to 34. */
  lemma RejectedNamesIn3(str: string)
    requires VkFormatOfString(str) == Vk.FORMAT_UNDEFINED
    ensures forall format | 25 <= format <= 34 :: str != Gfx.FormatName(format)
  {
    assert str != "r8_unorm";
    assert str != "r8_snorm";
    assert str != "r8_uint";
    assert str != "r8_sint";
    assert str != "r8_srgb";
    assert str != "r8g8_unorm";
    assert str != "r8g8_snorm";
    assert str != "r8g8_uint";
    assert str != "r8g8_sint";
    assert str != "r8g8_srgb";
    assert str != "r8g8b8_unorm";
    assert str != "r8g8b8_snorm";
    assert str != "r8g8b8_uint";
    assert str != "r8g8b8_sint";
    assert str != "r8g8b8_srgb";
    assert str != "r8g8b8a8_unorm";
    assert str != "r8g8b8a8_snorm";
    assert str != "r8g8b8a8_uint";
    assert str != "r8g8b8a8_sint";
    assert str != "r8g8b8a8_srgb";
    assert str != "r10g10b10a2_unorm";
    assert str != "r10g10b10a2_snorm";
    assert str != "r10g10b10a2_uint";
    assert str != "r10g10b10a2_sint";
    assert str != "r16_unorm";
    assert str != "r16_snorm";
    assert str != "r16_uint";
    assert str != "r16_sint";
    assert str != "r16_sfloat";
    assert str != "r16g16_unorm";
    assert str != "r16g16_snorm";
    assert str != "r16g16_uint";
    assert str != "r16g16_sint";
    assert str != "r16g16_sfloat";
  }

  /** A string the parser rejects is not the name of any of the formats 35 to 43. */
  lemma RejectedNamesIn4(str: string)
    requires VkFormatOfString(str) == Vk.FORMAT_UNDEFINED
    ensures forall format | 35 <= format <= 43 :: str != Gfx.FormatName(format)
  {
    assert str != "r8_unorm";
    assert str != "r8_snorm";
    assert str != "r8_uint";
    assert str != "r8_sint";
    assert str != "r8_srgb";
    assert str != "r8g8_unorm";
    assert str != "r8g8_snorm";
    assert str != "r8g8_uint";
    assert str != "r8g8_sint";
    assert str != "r8g8_srgb";
    assert str != "r8g8b8_unorm";
    assert str != "r8g8b8_snorm";
    assert str != "r8g8b8_uint";
    assert str != "r8g8b8_sint";
    assert str != "r8g8b8_srgb";
    assert str != "r8g8b8a8_unorm";
    assert str != "r8g8b8a8_snorm";
    assert str != "r8g8b8a8_uint";
    assert str != "r8g8b8a8_sint";
    assert str != "r8g8b8a8_srgb";
    assert str != "r10g10b10a2_unorm";
    assert str != "r10g10b10a2_snorm";
    assert str != "r10g10b10a2_uint";
    assert str != "r10g10b10a2_sint";
    assert str != "r16_unorm";
    assert str != "r16_snorm";
    assert str != "r16_uint";
    assert str != "r16_sint";
    assert str != "r16_sfloat";
    assert str != "r16g16_unorm";
    assert str != "r16g16_snorm";
    assert str != "r16g16_uint";
    assert str != "r16g16_sint";
    assert str != "r16g16_sfloat";
    assert str != "r16g16b16_unorm";
    assert str != "r16g16b16_snorm";
    assert str != "r16g16b16_uint";
    assert str != "r16g16b16_sint";
    assert str != "r16g16b16_sfloat";
    assert str != "r16g16b16a16_unorm";
    assert str != "r16g16b16a16_snorm";
    assert str != "r16g16b16a16_uint";
    assert str != "r16g16b16a16_sint";
  }

  /** A string the parser rejects is not the name of any of the formats 44 to 51. */
  lemma RejectedNamesIn5(str: string)
    requires VkFormatOfString(str) == Vk.FORMAT_UNDEFINED
    ensures forall format | 44 <= format <= 51 :: str != Gfx.FormatName(format)
  {
    assert str != "r8_unorm";
    assert str != "r8_snorm";
    assert str != "r8_uint";
    assert str != "r8_sint";
    assert str != "r8_srgb";
    assert str != "r8g8_unorm";
    assert str != "r8g8_snorm";
    assert str != "r8g8_uint";
    assert str != "r8g8_sint";
    assert str != "r8g8_srgb";
    assert str != "r8g8b8_unorm";
    assert str != "r8g8b8_snorm";
    assert str != "r8g8b8_uint";
    assert str != "r8g8b8_sint";
    assert str != "r8g8b8_srgb";
    assert str != "r8g8b8a8_unorm";
    assert str != "r8g8b8a8_snorm";
    assert str != "r8g8b8a8_uint";
    assert str != "r8g8b8a8_sint";
    assert str != "r8g8b8a8_srgb";
    assert str != "r10g10b10a2_unorm";
    assert str != "r10g10b10a2_snorm";
    assert str != "r10g10b10a2_uint";
    assert str != "r10g10b10a2_sint";
    assert str != "r16_unorm";
    assert str != "r16_snorm";
    assert str != "r16_uint";
    assert str != "r16_sint";
    assert str != "r16_sfloat";
    assert str != "r16g16_unorm";
    assert str != "r16g16_snorm";
    assert str != "r16g16_uint";
    assert str != "r16g16_sint";
    assert str != "r16g16_sfloat";
    assert str != "r16g16b16_unorm";
    assert str != "r16g16b16_snorm";
    assert str != "r16g16b16_uint";
    assert str != "r16g16b16_sint";
    assert str != "r16g16b16_sfloat";
    assert str != "r16g16b16a16_unorm";
    assert str != "r16g16b16a16_snorm";
    assert str != "r16g16b16a16_uint";
    assert str != "r16g16b16a16_sint";
    assert str != "r16g16b16a16_sfloat";
    assert str != "r32_uint";
    assert str != "r32_sint";
    assert str != "r32_sfloat";
    assert str != "r32g32_uint";
    assert str != "r32g32_sint";
    assert str != "r32g32_sfloat";
    assert str != "r32g32b32_uint";
  }

  /** A string the parser rejects is not the name of any of the formats 52 to 56. */
  lemma RejectedNamesIn6(str: string)
    requires VkFormatOfString(str) == Vk.FORMAT_UNDEFINED
    ensures forall format | 52 <= format <= 56 :: str != Gfx.FormatName(format)
  {
    assert str != "r8_unorm";
    assert str != "r8_snorm";
    assert str != "r8_uint";
    assert str != "r8_sint";
    assert str != "r8_srgb";
    assert str != "r8g8_unorm";
    assert str != "r8g8_snorm";
    assert str != "r8g8_uint";
    assert str != "r8g8_sint";
    assert str != "r8g8_srgb";
    assert str != "r8g8b8_unorm";
    assert str != "r8g8b8_snorm";
    assert str != "r8g8b8_uint";
    assert str != "r8g8b8_sint";
    assert str != "r8g8b8_srgb";
    assert str != "r8g8b8a8_unorm";
    assert str != "r8g8b8a8_snorm";
    assert str != "r8g8b8a8_uint";
    assert str != "r8g8b8a8_sint";
    assert str != "r8g8b8a8_srgb";
    assert str != "r10g10b10a2_unorm";
    assert str != "r10g10b10a2_snorm";
    assert str != "r10g10b10a2_uint";
    assert str != "r10g10b10a2_sint";
    assert str != "r16_unorm";
    assert str != "r16_snorm";
    assert str != "r16_uint";
    assert str != "r16_sint";
    assert str != "r16_sfloat";
    assert str != "r16g16_unorm";
    assert str != "r16g16_snorm";
    assert str != "r16g16_uint";
    assert str != "r16g16_sint";
    assert str != "r16g16_sfloat";
    assert str != "r16g16b16_unorm";
    assert str != "r16g16b16_snorm";
    assert str != "r16g16b16_uint";
    assert str != "r16g16b16_sint";
    assert str != "r16g16b16_sfloat";
    assert str != "r16g16b16a16_unorm";
    assert str != "r16g16b16a16_snorm";
    assert str != "r16g16b16a16_uint";
    assert str != "r16g16b16a16_sint";
    assert str != "r16g16b16a16_sfloat";
    assert str != "r32_uint";
    assert str != "r32_sint";
    assert str != "r32_sfloat";
    assert str != "r32g32_uint";
    assert str != "r32g32_sint";
    assert str != "r32g32_sfloat";
    assert str != "r32g32b32_uint";
    assert str != "r32g32b32_sint";
    assert str != "r32g32b32_sfloat";
    assert str != "r32g32b32a32_uint";
    assert str != "r32g32b32a32_sint";
    assert str != "r32g32b32a32_sfloat";
  }

  /** A string the parser rejects is not the name of any of the formats 57 to 61. */
  lemma RejectedNamesIn7(str: string)
    requires VkFormatOfString(str) == Vk.FORMAT_UNDEFINED
    ensures forall format | 57 <= format <= 61 :: str != Gfx.FormatName(format)
  {
    assert str != "r8_unorm";
    assert str != "r8_snorm";
    assert str != "r8_uint";
    assert str != "r8_sint";
    assert str != "r8_srgb";
    assert str != "r8g8_unorm";
    assert str != "r8g8_snorm";
    assert str != "r8g8_uint";
    assert str != "r8g8_sint";
    assert str != "r8g8_srgb";
    assert str != "r8g8b8_unorm";
    assert str != "r8g8b8_snorm";
    assert str != "r8g8b8_uint";
    assert str != "r8g8b8_sint";
    assert str != "r8g8b8_srgb";
    assert str != "r8g8b8a8_unorm";
    assert str != "r8g8b8a8_snorm";
    assert str != "r8g8b8a8_uint";
    assert str != "r8g8b8a8_sint";
    assert str != "r8g8b8a8_srgb";
    assert str != "r10g10b10a2_unorm";
    assert str != "r10g10b10a2_snorm";
    assert str != "r10g10b10a2_uint";
    assert str != "r10g10b10a2_sint";
    assert str != "r16_unorm";
    assert str != "r16_snorm";
    assert str != "r16_uint";
    assert str != "r16_sint";
    assert str != "r16_sfloat";
    assert str != "r16g16_unorm";
    assert str != "r16g16_snorm";
    assert str != "r16g16_uint";
    assert str != "r16g16_sint";
    assert str != "r16g16_sfloat";
    assert str != "r16g16b16_unorm";
    assert str != "r16g16b16_snorm";
    assert str != "r16g16b16_uint";
    assert str != "r16g16b16_sint";
    assert str != "r16g16b16_sfloat";
    assert str != "r16g16b16a16_unorm";
    assert str != "r16g16b16a16_snorm";
    assert str != "r16g16b16a16_uint";
    assert str != "r16g16b16a16_sint";
    assert str != "r16g16b16a16_sfloat";
    assert str != "r32_uint";
    assert str != "r32_sint";
    assert str != "r32_sfloat";
    assert str != "r32g32_uint";
    assert str != "r32g32_sint";
    assert str != "r32g32_sfloat";
    assert str != "r32g32b32_uint";
    assert str != "r32g32b32_sint";
    assert str != "r32g32b32_sfloat";
    assert str != "r32g32b32a32_uint";
    assert str != "r32g32b32a32_sint";
    assert str != "r32g32b32a32_sfloat";
    assert str != "r11g11b10_ufloat";
    assert str != "d16_unorm";
    assert str != "d32_sfloat";
    assert str != "d16_unorm_s8_uint";
    assert str != "d32_sfloat_s8_uint";
  }

  /** `ToVkImageAspectMask`: depth formats have a depth aspect, the two with stencil also a stencil aspect. */
  function ImageAspectMask(format: U32): (r: Vk.Flags)
  {
    if format in {Vk.FORMAT_D16_UNORM, Vk.FORMAT_D32_SFLOAT} then Vk.ASPECT_DEPTH
    else if format in {Vk.FORMAT_D16_UNORM_S8_UINT, Vk.FORMAT_D32_SFLOAT_S8_UINT} then Vk.ASPECT_DEPTH | Vk.ASPECT_STENCIL
    else Vk.ASPECT_COLOR
  }

  /**
   * The two format parsers agree: whatever the string parser recognises is
   * the name of an enumerator of the layer's format enumeration, and the
   * result is what `ToVkFormat(GfxFormat)` gives for that enumerator.
   */
  lemma FormatParsersAgree(str: string)
    ensures VkFormatOfString(str) != Vk.FORMAT_UNDEFINED ==>
      exists format :: 0 < format < Gfx.FORMAT_COUNT && Gfx.FormatName(format) == str && VkFormatOfEnum(format) == VkFormatOfString(str)
  {
    var format := NamedFormat(str);
  }

  /** The string parser recognises the name of every real format, and not "unknown". */
  lemma FormatNamesRecognised(format: int)
    requires 0 <= format < Gfx.FORMAT_COUNT
    ensures VkFormatOfString(Gfx.FormatName(format)) != Vk.FORMAT_UNDEFINED <==> format != Gfx.FORMAT_UNKNOWN
  {
    var str := Gfx.FormatName(format);
    if format == Gfx.FORMAT_UNKNOWN {
      assert str == "unknown";
    } else if VkFormatOfString(str) == Vk.FORMAT_UNDEFINED {
      RejectedNamesIn1(str);
      RejectedNamesIn2(str);
      RejectedNamesIn3(str);
      RejectedNamesIn4(str);
      RejectedNamesIn5(str);
      RejectedNamesIn6(str);
      RejectedNamesIn7(str);
    }
  }

  /** Different formats of the enumeration map to different Vulkan formats. */
  lemma FormatEnumInjective(format: int)
    requires 0 < format < Gfx.FORMAT_COUNT
    ensures GfxFormatOfVk(VkFormatOfEnum(format)) == format
  {
  }

  /** `ToTexelStride` is nonzero exactly for the Vulkan formats the layer's formats map to. */
  lemma TexelStrideExactlyForGfxFormats(format: U32)
    ensures TexelStride(format) != 0 <==> exists f :: 0 < f < Gfx.FORMAT_COUNT && VkFormatOfEnum(f) == format
  {
    if TexelStride(format) != 0 {
      var f := GfxFormatOfVk(format);
      assert 0 < f < Gfx.FORMAT_COUNT && VkFormatOfEnum(f) == format;
    }
  }

  /** Every format the string parser can return has a texel size. */
  lemma ParsedFormatsHaveStride(str: string)
    ensures VkFormatOfString(str) != Vk.FORMAT_UNDEFINED ==> TexelStride(VkFormatOfString(str)) != 0
  {
  }

  /** A GLSL type name exists exactly for the formats with a texel size that are not depth formats. */
  lemma ShaderFormatStringCoverage(format: U32)
    ensures ShaderFormatString(format).Some? <==> TexelStride(format) != 0 && ImageAspectMask(format) == Vk.ASPECT_COLOR
  {
  }

  /** The depth and stencil aspects belong to the four formats that end the enumeration. */
  lemma AspectsOfGfxFormats(format: int)
    requires 0 <= format < Gfx.FORMAT_COUNT
    ensures var a := ImageAspectMask(VkFormatOfEnum(format));
      && ((a & Vk.ASPECT_DEPTH != 0) <==> format >= Gfx.FORMAT_D16_UNORM)
      && ((a & Vk.ASPECT_STENCIL != 0) <==> format >= Gfx.FORMAT_D16_UNORM_S8_UINT)
      && ((a & Vk.ASPECT_COLOR != 0) <==> format < Gfx.FORMAT_D16_UNORM)
  {
  }

  /** `ToVkImageLayout(GfxTextureState)`. */
  function ImageLayout(state: int): (r: U32)
  {
    match state
    case 0 => Vk.IMAGE_LAYOUT_SHADER_READ_ONLY_OPTIMAL
    case 1 => Vk.IMAGE_LAYOUT_GENERAL
    case 2 => Vk.IMAGE_LAYOUT_COLOR_ATTACHMENT_OPTIMAL
    case 3 => Vk.IMAGE_LAYOUT_DEPTH_STENCIL_ATTACHMENT_OPTIMAL
    case 4 => Vk.IMAGE_LAYOUT_TRANSFER_SRC_OPTIMAL
    case 5 => Vk.IMAGE_LAYOUT_TRANSFER_DST_OPTIMAL
    case 6 => Vk.IMAGE_LAYOUT_PRESENT_SRC
    case _ => Vk.MAX_ENUM
  }

  /** `ToVkAccessMask(GfxTextureState)`. */
  function TextureAccessMask(state: int): (r: Vk.Flags)
  {
    match state
    case 0 => Vk.ACCESS_SHADER_READ
    case 1 => Vk.ACCESS_SHADER_READ | Vk.ACCESS_SHADER_WRITE
    case 2 => Vk.ACCESS_COLOR_ATTACHMENT_READ | Vk.ACCESS_COLOR_ATTACHMENT_WRITE
    case 3 => Vk.ACCESS_DEPTH_STENCIL_ATTACHMENT_READ | Vk.ACCESS_DEPTH_STENCIL_ATTACHMENT_WRITE
    case 4 => Vk.ACCESS_TRANSFER_READ
    case 5 => Vk.ACCESS_TRANSFER_WRITE
    case 6 => Vk.ACCESS_MEMORY_READ
    case _ => 0
  }

  /** The shader stages that touch a resource, shared by several states and accesses. */
  const SHADER_STAGES: Vk.Flags := Vk.STAGE_VERTEX_SHADER | Vk.STAGE_FRAGMENT_SHADER | Vk.STAGE_COMPUTE_SHADER

  /** `ToVkPipelineStageMask(GfxTextureState)`: there is no case for `PRESENT`. */
  function TextureStageMask(state: int): (r: Vk.Flags)
  {
    match state
    case 0 => SHADER_STAGES
    case 1 => SHADER_STAGES
    case 2 => Vk.STAGE_COLOR_ATTACHMENT_OUTPUT
    case 3 => Vk.STAGE_EARLY_FRAGMENT_TESTS | Vk.STAGE_LATE_FRAGMENT_TESTS
    case 4 => Vk.STAGE_TRANSFER
    case 5 => Vk.STAGE_TRANSFER
    case _ => Vk.STAGE_ALL_COMMANDS
  }

  /**
   * The layout and access tables have a case for each of the seven texture
   * states, never falling back, and no two states share a layout; the stage
   * table reaches its fallback for `PRESENT`, which waits on all commands.
   */
  lemma TextureStateTablesCoverStates(state: int, other: int)
    requires 0 <= state < Gfx.TEXTURE_STATE_COUNT && 0 <= other < Gfx.TEXTURE_STATE_COUNT
    ensures ImageLayout(state) != Vk.MAX_ENUM
    ensures TextureAccessMask(state) != 0
    ensures state != other ==> ImageLayout(state) != ImageLayout(other)
    ensures TextureStageMask(state) == Vk.STAGE_ALL_COMMANDS <==> state == Gfx.TEXTURE_STATE_PRESENT
  {
  }

  /** `ToVkAccessMask(GfxBufferAccess)`. */
  function BufferAccessMask(access: int): (r: Vk.Flags)
  {
    match access
    case 0 => 0
    case 1 => Vk.ACCESS_VERTEX_ATTRIBUTE_READ
    case 2 => Vk.ACCESS_INDEX_READ
    case 3 => Vk.ACCESS_INDIRECT_COMMAND_READ
    case 4 => Vk.ACCESS_UNIFORM_READ
    case 5 => Vk.ACCESS_SHADER_READ
    case 6 => Vk.ACCESS_SHADER_READ | Vk.ACCESS_SHADER_WRITE
    case 7 => Vk.ACCESS_TRANSFER_READ
    case 8 => Vk.ACCESS_TRANSFER_WRITE
    case _ => 0
  }

  /** `ToVkPipelineStageMask(GfxBufferAccess)`. */
  function BufferStageMask(access: int): (r: Vk.Flags)
  {
    match access
    case 0 => Vk.STAGE_TOP_OF_PIPE
    case 1 => Vk.STAGE_VERTEX_INPUT
    case 2 => Vk.STAGE_VERTEX_INPUT
    case 3 => Vk.STAGE_DRAW_INDIRECT
    case 4 => SHADER_STAGES
    case 5 => SHADER_STAGES
    case 6 => SHADER_STAGES
    case 7 => Vk.STAGE_TRANSFER
    case 8 => Vk.STAGE_TRANSFER
    case _ => Vk.STAGE_ALL_COMMANDS
  }

  /**
   * Every buffer access has its own stage case, and only `NONE` has an empty
   * access mask; the write accesses are the ones whose mask holds a write bit.
   */
  lemma BufferAccessTablesCoverAccesses(access: int)
    requires 0 <= access < Gfx.BUFFER_ACCESS_COUNT
    ensures BufferStageMask(access) != Vk.STAGE_ALL_COMMANDS
    ensures BufferAccessMask(access) == 0 <==> access == Gfx.BUFFER_ACCESS_NONE
    ensures BufferAccessMask(access) & (Vk.ACCESS_SHADER_WRITE | Vk.ACCESS_TRANSFER_WRITE) != 0
      <==> access in {Gfx.BUFFER_ACCESS_SHADER_WRITE, Gfx.BUFFER_ACCESS_COPY_DST}
  {
  }

  /** One usage bit carried over: `vk` when `gfx` is set in `usage`, else nothing. */
  function CarryBit(usage: Vk.Flags, gfx: Vk.Flags, vk: Vk.Flags): Vk.Flags {
    if usage & gfx != 0 then vk else 0
  }

  /** `ToVkBufferUsageMask`: copies are always allowed; each layer bit adds its Vulkan bit. */
  function BufferUsageMask(usage: Vk.Flags): (r: Vk.Flags)
    ensures r & (Vk.BUFFER_USAGE_TRANSFER_SRC | Vk.BUFFER_USAGE_TRANSFER_DST)
      == Vk.BUFFER_USAGE_TRANSFER_SRC | Vk.BUFFER_USAGE_TRANSFER_DST
    ensures (r & Vk.BUFFER_USAGE_UNIFORM_BUFFER != 0) == (usage & Gfx.BUFFER_USAGE_UNIFORM_BUFFER != 0)
    ensures (r & Vk.BUFFER_USAGE_STORAGE_BUFFER != 0) == (usage & Gfx.BUFFER_USAGE_STORAGE_BUFFER != 0)
    ensures (r & Vk.BUFFER_USAGE_INDEX_BUFFER != 0) == (usage & Gfx.BUFFER_USAGE_INDEX_BUFFER != 0)
    ensures (r & Vk.BUFFER_USAGE_VERTEX_BUFFER != 0) == (usage & Gfx.BUFFER_USAGE_VERTEX_BUFFER != 0)
    ensures (r & Vk.BUFFER_USAGE_INDIRECT_BUFFER != 0) == (usage & Gfx.BUFFER_USAGE_INDIRECT_BUFFER != 0)
    ensures r & !(Vk.BUFFER_USAGE_TRANSFER_SRC | Vk.BUFFER_USAGE_TRANSFER_DST | Vk.BUFFER_USAGE_UNIFORM_BUFFER
      | Vk.BUFFER_USAGE_STORAGE_BUFFER | Vk.BUFFER_USAGE_INDEX_BUFFER | Vk.BUFFER_USAGE_VERTEX_BUFFER
      | Vk.BUFFER_USAGE_INDIRECT_BUFFER) == 0
  {
    Vk.BUFFER_USAGE_TRANSFER_SRC | Vk.BUFFER_USAGE_TRANSFER_DST
    | CarryBit(usage, Gfx.BUFFER_USAGE_UNIFORM_BUFFER, Vk.BUFFER_USAGE_UNIFORM_BUFFER)
    | CarryBit(usage, Gfx.BUFFER_USAGE_STORAGE_BUFFER, Vk.BUFFER_USAGE_STORAGE_BUFFER)
    | CarryBit(usage, Gfx.BUFFER_USAGE_INDEX_BUFFER, Vk.BUFFER_USAGE_INDEX_BUFFER)
    | CarryBit(usage, Gfx.BUFFER_USAGE_VERTEX_BUFFER, Vk.BUFFER_USAGE_VERTEX_BUFFER)
    | CarryBit(usage, Gfx.BUFFER_USAGE_INDIRECT_BUFFER, Vk.BUFFER_USAGE_INDIRECT_BUFFER)
  }

  /** `ToVkImageUsageMask`: copies are always allowed; each layer bit adds its Vulkan bit. */
  function ImageUsageMask(usage: Vk.Flags): (r: Vk.Flags)
    ensures r & (Vk.IMAGE_USAGE_TRANSFER_SRC | Vk.IMAGE_USAGE_TRANSFER_DST)
      == Vk.IMAGE_USAGE_TRANSFER_SRC | Vk.IMAGE_USAGE_TRANSFER_DST
    ensures (r & Vk.IMAGE_USAGE_SAMPLED != 0) == (usage & Gfx.TEXTURE_USAGE_SAMPLE != 0)
    ensures (r & Vk.IMAGE_USAGE_STORAGE != 0) == (usage & Gfx.TEXTURE_USAGE_STORE != 0)
    ensures (r & Vk.IMAGE_USAGE_COLOR_ATTACHMENT != 0) == (usage & Gfx.TEXTURE_USAGE_COLOR_ATTACHMENT != 0)
    ensures (r & Vk.IMAGE_USAGE_DEPTH_STENCIL_ATTACHMENT != 0) == (usage & Gfx.TEXTURE_USAGE_DEPTH_ATTACHMENT != 0)
    ensures r & !(Vk.IMAGE_USAGE_TRANSFER_SRC | Vk.IMAGE_USAGE_TRANSFER_DST | Vk.IMAGE_USAGE_SAMPLED
      | Vk.IMAGE_USAGE_STORAGE | Vk.IMAGE_USAGE_COLOR_ATTACHMENT | Vk.IMAGE_USAGE_DEPTH_STENCIL_ATTACHMENT) == 0
  {
    Vk.IMAGE_USAGE_TRANSFER_SRC | Vk.IMAGE_USAGE_TRANSFER_DST
    | CarryBit(usage, Gfx.TEXTURE_USAGE_SAMPLE, Vk.IMAGE_USAGE_SAMPLED)
    | CarryBit(usage, Gfx.TEXTURE_USAGE_STORE, Vk.IMAGE_USAGE_STORAGE)
    | CarryBit(usage, Gfx.TEXTURE_USAGE_COLOR_ATTACHMENT, Vk.IMAGE_USAGE_COLOR_ATTACHMENT)
    | CarryBit(usage, Gfx.TEXTURE_USAGE_DEPTH_ATTACHMENT, Vk.IMAGE_USAGE_DEPTH_STENCIL_ATTACHMENT)
  }

  /** The binding types a technique file may name. */
  const DESCRIPTOR_NAMES: seq<string> :=
    ["sampler", "texture1d", "texture2d", "texture3d", "image1d", "image2d", "image3d", "cbuffer", "buffer"]

  /** `ToVkDescriptorType`. */
  function DescriptorType(str: string): (r: U32)
  {
    if str == "sampler" then Vk.DESCRIPTOR_TYPE_SAMPLER
    else if str == "texture1d" then Vk.DESCRIPTOR_TYPE_SAMPLED_IMAGE
    else if str == "texture2d" then Vk.DESCRIPTOR_TYPE_SAMPLED_IMAGE
    else if str == "texture3d" then Vk.DESCRIPTOR_TYPE_SAMPLED_IMAGE
    else if str == "image1d" then Vk.DESCRIPTOR_TYPE_STORAGE_IMAGE
    else if str == "image2d" then Vk.DESCRIPTOR_TYPE_STORAGE_IMAGE
    else if str == "image3d" then Vk.DESCRIPTOR_TYPE_STORAGE_IMAGE
    else if str == "cbuffer" then Vk.DESCRIPTOR_TYPE_UNIFORM_BUFFER
    else if str == "buffer" then Vk.DESCRIPTOR_TYPE_STORAGE_BUFFER
    else Vk.MAX_ENUM
  }

  /** `ToShaderDescriptorString`: the GLSL declaration qualifier and type; `None` is NULL. */
  function ShaderDescriptorString(str: string): (r: Option<string>)
  {
    if str == "sampler" then Some("uniform sampler")
    else if str == "texture1d" then Some("uniform texture1D")
    else if str == "texture2d" then Some("uniform texture2D")
    else if str == "texture3d" then Some("uniform texture3D")
    else if str == "image1d" then Some("uniform image1D")
    else if str == "image2d" then Some("uniform image2D")
    else if str == "image3d" then Some("uniform image3D")
    else if str == "cbuffer" then Some("uniform")
    else if str == "buffer" then Some("buffer")
    else None
  }

  /**
   * The two descriptor tables accept the same nine names, and the Vulkan
   * descriptor type follows the family of the name: `texture*` is a sampled
   * image, `image*` a storage image, `cbuffer` a uniform buffer and `buffer`
   * a storage buffer.
   */
  lemma DescriptorTablesAgree(str: string)
    ensures DescriptorType(str) != Vk.MAX_ENUM <==> str in DESCRIPTOR_NAMES
    ensures ShaderDescriptorString(str).Some? <==> str in DESCRIPTOR_NAMES
    ensures DescriptorType(str) == Vk.DESCRIPTOR_TYPE_SAMPLED_IMAGE <==> str in DESCRIPTOR_NAMES && |str| > 7 && str[..7] == "texture"
    ensures DescriptorType(str) == Vk.DESCRIPTOR_TYPE_STORAGE_IMAGE <==> str in DESCRIPTOR_NAMES && |str| > 5 && str[..5] == "image"
    ensures DescriptorType(str) == Vk.DESCRIPTOR_TYPE_UNIFORM_BUFFER <==> str == "cbuffer"
    ensures DescriptorType(str) == Vk.DESCRIPTOR_TYPE_STORAGE_BUFFER <==> str == "buffer"
    ensures DescriptorType(str) == Vk.DESCRIPTOR_TYPE_SAMPLER <==> str == "sampler"
  {
    if str in DESCRIPTOR_NAMES {
      var i :| 0 <= i < |DESCRIPTOR_NAMES| && DESCRIPTOR_NAMES[i] == str;
      if i == 0 {
        assert str[..5] == "sampl";
      } else if i <= 3 {
        assert str[..7] == "texture";
        assert str[..5] == "textu";
      } else if i <= 6 {
        assert str[..5] == "image";
      } else if i == 7 {
        assert str[..5] == "cbuff";
      } else {
        assert str[..5] == "buffe";
      }
    }
  }

  /**
   * The remaining string tables name the Vulkan enumerants in the order of
   * their values: a known name parses to its position in the list, any other
   * string to the enumeration's `MAX_ENUM`.
   */
  predicate ParsesToPosition(names: seq<string>, str: string, r: U32) {
    (str in names ==> r < |names| && names[r] == str) && (str !in names ==> r == Vk.MAX_ENUM)
  }

  const INPUT_RATE_NAMES: seq<string> := ["vertex", "instance"]
  const TOPOLOGY_NAMES: seq<string> :=
    ["point_list", "line_list", "line_strip", "triangle_list", "triangle_strip", "triangle_fan"]
  const POLYGON_MODE_NAMES: seq<string> := ["fill", "line", "point"]
  const CULL_MODE_NAMES: seq<string> := ["none", "front", "back"]
  const FRONT_FACE_NAMES: seq<string> := ["counter_clockwise", "clockwise"]
  const COMPARE_OP_NAMES: seq<string> :=
    ["never", "less", "equal", "less_equal", "greater", "not_equal", "greater_equal", "always"]
  const STENCIL_OP_NAMES: seq<string> :=
    ["keep", "zero", "replace", "increment_and_clamp", "decrement_and_clamp", "invert",
     "increment_and_wrap", "decrement_and_wrap"]
  const BLEND_FACTOR_NAMES: seq<string> :=
    ["zero", "one", "src_color", "inv_src_color", "dst_color", "inv_dst_color",
     "src_alpha", "inv_src_alpha", "dst_alpha", "inv_dst_alpha"]
  const BLEND_OP_NAMES: seq<string> := ["add", "subtract", "rev_subtract", "min", "max"]

  /** `ToVkVertexInputRate`. */
  function VertexInputRate(str: string): (r: U32)
    ensures ParsesToPosition(INPUT_RATE_NAMES, str, r)
  {
    if str == "vertex" then Vk.VERTEX_INPUT_RATE_VERTEX
    else if str == "instance" then Vk.VERTEX_INPUT_RATE_INSTANCE
    else Vk.MAX_ENUM
  }

  /** `ToVkPrimitiveTopology`. */
  function PrimitiveTopology(str: string): (r: U32)
    ensures ParsesToPosition(TOPOLOGY_NAMES, str, r)
  {
    if str == "point_list" then Vk.PRIMITIVE_TOPOLOGY_POINT_LIST
    else if str == "line_list" then Vk.PRIMITIVE_TOPOLOGY_LINE_LIST
    else if str == "line_strip" then Vk.PRIMITIVE_TOPOLOGY_LINE_STRIP
    else if str == "triangle_list" then Vk.PRIMITIVE_TOPOLOGY_TRIANGLE_LIST
    else if str == "triangle_strip" then Vk.PRIMITIVE_TOPOLOGY_TRIANGLE_STRIP
    else if str == "triangle_fan" then Vk.PRIMITIVE_TOPOLOGY_TRIANGLE_FAN
    else Vk.MAX_ENUM
  }

  /** `ToVkPolygonMode`. */
  function PolygonMode(str: string): (r: U32)
    ensures ParsesToPosition(POLYGON_MODE_NAMES, str, r)
  {
    if str == "fill" then Vk.POLYGON_MODE_FILL
    else if str == "line" then Vk.POLYGON_MODE_LINE
    else if str == "point" then Vk.POLYGON_MODE_POINT
    else Vk.MAX_ENUM
  }

  /** `ToVkCullMode`. */
  function CullMode(str: string): (r: U32)
    ensures ParsesToPosition(CULL_MODE_NAMES, str, r)
  {
    if str == "none" then Vk.CULL_MODE_NONE
    else if str == "front" then Vk.CULL_MODE_FRONT
    else if str == "back" then Vk.CULL_MODE_BACK
    else Vk.MAX_ENUM
  }

  /** `ToVkFrontFace`. */
  function FrontFace(str: string): (r: U32)
    ensures ParsesToPosition(FRONT_FACE_NAMES, str, r)
  {
    if str == "counter_clockwise" then Vk.FRONT_FACE_COUNTER_CLOCKWISE
    else if str == "clockwise" then Vk.FRONT_FACE_CLOCKWISE
    else Vk.MAX_ENUM
  }

  /** `ToVkCompareOp(const char*)`. */
  function CompareOp(str: string): (r: U32)
    ensures ParsesToPosition(COMPARE_OP_NAMES, str, r)
  {
    if str == "never" then Vk.COMPARE_OP_NEVER
    else if str == "less" then Vk.COMPARE_OP_LESS
    else if str == "equal" then Vk.COMPARE_OP_EQUAL
    else if str == "less_equal" then Vk.COMPARE_OP_LESS_OR_EQUAL
    else if str == "greater" then Vk.COMPARE_OP_GREATER
    else if str == "not_equal" then Vk.COMPARE_OP_NOT_EQUAL
    else if str == "greater_equal" then Vk.COMPARE_OP_GREATER_OR_EQUAL
    else if str == "always" then Vk.COMPARE_OP_ALWAYS
    else Vk.MAX_ENUM
  }

  /** `ToVkStencilOp`. */
  function StencilOp(str: string): (r: U32)
    ensures ParsesToPosition(STENCIL_OP_NAMES, str, r)
  {
    if str == "keep" then Vk.STENCIL_OP_KEEP
    else if str == "zero" then Vk.STENCIL_OP_ZERO
    else if str == "replace" then Vk.STENCIL_OP_REPLACE
    else if str == "increment_and_clamp" then Vk.STENCIL_OP_INCREMENT_AND_CLAMP
    else if str == "decrement_and_clamp" then Vk.STENCIL_OP_DECREMENT_AND_CLAMP
    else if str == "invert" then Vk.STENCIL_OP_INVERT
    else if str == "increment_and_wrap" then Vk.STENCIL_OP_INCREMENT_AND_WRAP
    else if str == "decrement_and_wrap" then Vk.STENCIL_OP_DECREMENT_AND_WRAP
    else Vk.MAX_ENUM
  }

  /** `ToVkBlendFactor`. */
  function BlendFactor(str: string): (r: U32)
    ensures ParsesToPosition(BLEND_FACTOR_NAMES, str, r)
  {
    if str == "zero" then Vk.BLEND_FACTOR_ZERO
    else if str == "one" then Vk.BLEND_FACTOR_ONE
    else if str == "src_color" then Vk.BLEND_FACTOR_SRC_COLOR
    else if str == "inv_src_color" then Vk.BLEND_FACTOR_ONE_MINUS_SRC_COLOR
    else if str == "dst_color" then Vk.BLEND_FACTOR_DST_COLOR
    else if str == "inv_dst_color" then Vk.BLEND_FACTOR_ONE_MINUS_DST_COLOR
    else if str == "src_alpha" then Vk.BLEND_FACTOR_SRC_ALPHA
    else if str == "inv_src_alpha" then Vk.BLEND_FACTOR_ONE_MINUS_SRC_ALPHA
    else if str == "dst_alpha" then Vk.BLEND_FACTOR_DST_ALPHA
    else if str == "inv_dst_alpha" then Vk.BLEND_FACTOR_ONE_MINUS_DST_ALPHA
    else Vk.MAX_ENUM
  }

  /** `ToVkBlendOp`. */
  function BlendOp(str: string): (r: U32)
    ensures ParsesToPosition(BLEND_OP_NAMES, str, r)
  {
    if str == "add" then Vk.BLEND_OP_ADD
    else if str == "subtract" then Vk.BLEND_OP_SUBTRACT
    else if str == "rev_subtract" then Vk.BLEND_OP_REVERSE_SUBTRACT
    else if str == "min" then Vk.BLEND_OP_MIN
    else if str == "max" then Vk.BLEND_OP_MAX
    else Vk.MAX_ENUM
  }

  /** The bits of the components a write-mask string names: order, repetition and other characters do not matter. */
  function ComponentsNamed(str: string): Vk.Flags {
    (if 'r' in str then Vk.COLOR_COMPONENT_R else 0)
    | (if 'g' in str then Vk.COLOR_COMPONENT_G else 0)
    | (if 'b' in str then Vk.COLOR_COMPONENT_B else 0)
    | (if 'a' in str then Vk.COLOR_COMPONENT_A else 0)
  }

  /** `ToVkColorComponentMask`: or in one component bit per matching character, left to right. */
  method ColorComponentMask(str: string) returns (mask: Vk.Flags)
    ensures mask == ComponentsNamed(str)
  {
    mask := 0;
    var i := 0;
    while i < |str|
      invariant 0 <= i <= |str|
      invariant mask == ComponentsNamed(str[..i])
    {
      mask := mask | (if str[i] == 'r' then Vk.COLOR_COMPONENT_R else 0);
      mask := mask | (if str[i] == 'g' then Vk.COLOR_COMPONENT_G else 0);
      mask := mask | (if str[i] == 'b' then Vk.COLOR_COMPONENT_B else 0);
      mask := mask | (if str[i] == 'a' then Vk.COLOR_COMPONENT_A else 0);
      assert str[..i + 1] == str[..i] + [str[i]];
      i := i + 1;
    }
    assert str[..i] == str;
  }
}
