/**
 * The Vulkan enumerants and flag bits the layer passes to the driver, with
 * the numeric values of the Vulkan 1.0 API registry (vulkan_core.h). Plain
 * enumerants are 32-bit integers; flag masks are 32-bit vectors so that the
 * model can combine and test them the way the C++ code does with `|` and `&`.
 */
module Vk {
  import opened Machine

  type Flags = bv32

  /** Every Vulkan enumeration reserves 0x7FFFFFFF as `*_MAX_ENUM`. */
  const MAX_ENUM: U32 := 0x7FFF_FFFF

  // VkFormat
  const FORMAT_UNDEFINED: U32 := 0
  const FORMAT_R8_UNORM: U32 := 9
  const FORMAT_R8_SNORM: U32 := 10
  const FORMAT_R8_UINT: U32 := 13
  const FORMAT_R8_SINT: U32 := 14
  const FORMAT_R8_SRGB: U32 := 15
  const FORMAT_R8G8_UNORM: U32 := 16
  const FORMAT_R8G8_SNORM: U32 := 17
  const FORMAT_R8G8_UINT: U32 := 20
  const FORMAT_R8G8_SINT: U32 := 21
  const FORMAT_R8G8_SRGB: U32 := 22
  const FORMAT_R8G8B8_UNORM: U32 := 23
  const FORMAT_R8G8B8_SNORM: U32 := 24
  const FORMAT_R8G8B8_UINT: U32 := 27
  const FORMAT_R8G8B8_SINT: U32 := 28
  const FORMAT_R8G8B8_SRGB: U32 := 29
  const FORMAT_R8G8B8A8_UNORM: U32 := 37
  const FORMAT_R8G8B8A8_SNORM: U32 := 38
  const FORMAT_R8G8B8A8_UINT: U32 := 41
  const FORMAT_R8G8B8A8_SINT: U32 := 42
  const FORMAT_R8G8B8A8_SRGB: U32 := 43
  const FORMAT_A2R10G10B10_UNORM_PACK32: U32 := 58
  const FORMAT_A2R10G10B10_SNORM_PACK32: U32 := 59
  const FORMAT_A2R10G10B10_UINT_PACK32: U32 := 62
  const FORMAT_A2R10G10B10_SINT_PACK32: U32 := 63
  const FORMAT_R16_UNORM: U32 := 70
  const FORMAT_R16_SNORM: U32 := 71
  const FORMAT_R16_UINT: U32 := 74
  const FORMAT_R16_SINT: U32 := 75
  const FORMAT_R16_SFLOAT: U32 := 76
  const FORMAT_R16G16_UNORM: U32 := 77
  const FORMAT_R16G16_SNORM: U32 := 78
  const FORMAT_R16G16_UINT: U32 := 81
  const FORMAT_R16G16_SINT: U32 := 82
  const FORMAT_R16G16_SFLOAT: U32 := 83
  const FORMAT_R16G16B16_UNORM: U32 := 84
  const FORMAT_R16G16B16_SNORM: U32 := 85
  const FORMAT_R16G16B16_UINT: U32 := 88
  const FORMAT_R16G16B16_SINT: U32 := 89
  const FORMAT_R16G16B16_SFLOAT: U32 := 90
  const FORMAT_R16G16B16A16_UNORM: U32 := 91
  const FORMAT_R16G16B16A16_SNORM: U32 := 92
  const FORMAT_R16G16B16A16_UINT: U32 := 95
  const FORMAT_R16G16B16A16_SINT: U32 := 96
  const FORMAT_R16G16B16A16_SFLOAT: U32 := 97
  const FORMAT_R32_UINT: U32 := 98
  const FORMAT_R32_SINT: U32 := 99
  const FORMAT_R32_SFLOAT: U32 := 100
  const FORMAT_R32G32_UINT: U32 := 101
  const FORMAT_R32G32_SINT: U32 := 102
  const FORMAT_R32G32_SFLOAT: U32 := 103
  const FORMAT_R32G32B32_UINT: U32 := 104
  const FORMAT_R32G32B32_SINT: U32 := 105
  const FORMAT_R32G32B32_SFLOAT: U32 := 106
  const FORMAT_R32G32B32A32_UINT: U32 := 107
  const FORMAT_R32G32B32A32_SINT: U32 := 108
  const FORMAT_R32G32B32A32_SFLOAT: U32 := 109
  const FORMAT_B10G11R11_UFLOAT_PACK32: U32 := 122
  const FORMAT_D16_UNORM: U32 := 124
  const FORMAT_D32_SFLOAT: U32 := 126
  const FORMAT_D16_UNORM_S8_UINT: U32 := 128
  const FORMAT_D32_SFLOAT_S8_UINT: U32 := 130
  /** `VK_FORMAT_RANGE_SIZE`, one past the last core format; never a real format. */
  const FORMAT_RANGE_SIZE: U32 := 185

  // VkImageLayout
  const IMAGE_LAYOUT_UNDEFINED: U32 := 0
  const IMAGE_LAYOUT_GENERAL: U32 := 1
  const IMAGE_LAYOUT_COLOR_ATTACHMENT_OPTIMAL: U32 := 2
  const IMAGE_LAYOUT_DEPTH_STENCIL_ATTACHMENT_OPTIMAL: U32 := 3
  const IMAGE_LAYOUT_SHADER_READ_ONLY_OPTIMAL: U32 := 5
  const IMAGE_LAYOUT_TRANSFER_SRC_OPTIMAL: U32 := 6
  const IMAGE_LAYOUT_TRANSFER_DST_OPTIMAL: U32 := 7
  const IMAGE_LAYOUT_PRESENT_SRC: U32 := 1000001002

  // VkAccessFlagBits
  const ACCESS_INDIRECT_COMMAND_READ: Flags := 0x1
  const ACCESS_INDEX_READ: Flags := 0x2
  const ACCESS_VERTEX_ATTRIBUTE_READ: Flags := 0x4
  const ACCESS_UNIFORM_READ: Flags := 0x8
  const ACCESS_SHADER_READ: Flags := 0x20
  const ACCESS_SHADER_WRITE: Flags := 0x40
  const ACCESS_COLOR_ATTACHMENT_READ: Flags := 0x80
  const ACCESS_COLOR_ATTACHMENT_WRITE: Flags := 0x100
  const ACCESS_DEPTH_STENCIL_ATTACHMENT_READ: Flags := 0x200
  const ACCESS_DEPTH_STENCIL_ATTACHMENT_WRITE: Flags := 0x400
  const ACCESS_TRANSFER_READ: Flags := 0x800
  const ACCESS_TRANSFER_WRITE: Flags := 0x1000
  const ACCESS_MEMORY_READ: Flags := 0x8000

  // VkPipelineStageFlagBits
  const STAGE_TOP_OF_PIPE: Flags := 0x1
  const STAGE_DRAW_INDIRECT: Flags := 0x2
  const STAGE_VERTEX_INPUT: Flags := 0x4
  const STAGE_VERTEX_SHADER: Flags := 0x8
  const STAGE_FRAGMENT_SHADER: Flags := 0x80
  const STAGE_EARLY_FRAGMENT_TESTS: Flags := 0x100
  const STAGE_LATE_FRAGMENT_TESTS: Flags := 0x200
  const STAGE_COLOR_ATTACHMENT_OUTPUT: Flags := 0x400
  const STAGE_COMPUTE_SHADER: Flags := 0x800
  const STAGE_TRANSFER: Flags := 0x1000
  const STAGE_ALL_COMMANDS: Flags := 0x10000

  // VkImageAspectFlagBits
  const ASPECT_COLOR: Flags := 0x1
  const ASPECT_DEPTH: Flags := 0x2
  const ASPECT_STENCIL: Flags := 0x4

  // VkBufferUsageFlagBits
  const BUFFER_USAGE_TRANSFER_SRC: Flags := 0x1
  const BUFFER_USAGE_TRANSFER_DST: Flags := 0x2
  const BUFFER_USAGE_UNIFORM_BUFFER: Flags := 0x10
  const BUFFER_USAGE_STORAGE_BUFFER: Flags := 0x20
  const BUFFER_USAGE_INDEX_BUFFER: Flags := 0x40
  const BUFFER_USAGE_VERTEX_BUFFER: Flags := 0x80
  const BUFFER_USAGE_INDIRECT_BUFFER: Flags := 0x100

  // VkImageUsageFlagBits
  const IMAGE_USAGE_TRANSFER_SRC: Flags := 0x1
  const IMAGE_USAGE_TRANSFER_DST: Flags := 0x2
  const IMAGE_USAGE_SAMPLED: Flags := 0x4
  const IMAGE_USAGE_STORAGE: Flags := 0x8
  const IMAGE_USAGE_COLOR_ATTACHMENT: Flags := 0x10
  const IMAGE_USAGE_DEPTH_STENCIL_ATTACHMENT: Flags := 0x20

  // VkDescriptorType
  const DESCRIPTOR_TYPE_SAMPLER: U32 := 0
  const DESCRIPTOR_TYPE_COMBINED_IMAGE_SAMPLER: U32 := 1
  const DESCRIPTOR_TYPE_SAMPLED_IMAGE: U32 := 2
  const DESCRIPTOR_TYPE_STORAGE_IMAGE: U32 := 3
  const DESCRIPTOR_TYPE_UNIFORM_TEXEL_BUFFER: U32 := 4
  const DESCRIPTOR_TYPE_STORAGE_TEXEL_BUFFER: U32 := 5
  const DESCRIPTOR_TYPE_UNIFORM_BUFFER: U32 := 6
  const DESCRIPTOR_TYPE_STORAGE_BUFFER: U32 := 7
  const DESCRIPTOR_TYPE_UNIFORM_BUFFER_DYNAMIC: U32 := 8
  const DESCRIPTOR_TYPE_STORAGE_BUFFER_DYNAMIC: U32 := 9

  // VkVertexInputRate
  const VERTEX_INPUT_RATE_VERTEX: U32 := 0
  const VERTEX_INPUT_RATE_INSTANCE: U32 := 1

  // VkPrimitiveTopology
  const PRIMITIVE_TOPOLOGY_POINT_LIST: U32 := 0
  const PRIMITIVE_TOPOLOGY_LINE_LIST: U32 := 1
  const PRIMITIVE_TOPOLOGY_LINE_STRIP: U32 := 2
  const PRIMITIVE_TOPOLOGY_TRIANGLE_LIST: U32 := 3
  const PRIMITIVE_TOPOLOGY_TRIANGLE_STRIP: U32 := 4
  const PRIMITIVE_TOPOLOGY_TRIANGLE_FAN: U32 := 5

  // VkPolygonMode
  const POLYGON_MODE_FILL: U32 := 0
  const POLYGON_MODE_LINE: U32 := 1
  const POLYGON_MODE_POINT: U32 := 2

  // VkCullModeFlagBits
  const CULL_MODE_NONE: U32 := 0
  const CULL_MODE_FRONT: U32 := 1
  const CULL_MODE_BACK: U32 := 2

  // VkFrontFace
  const FRONT_FACE_COUNTER_CLOCKWISE: U32 := 0
  const FRONT_FACE_CLOCKWISE: U32 := 1

  // VkCompareOp
  const COMPARE_OP_NEVER: U32 := 0
  const COMPARE_OP_LESS: U32 := 1
  const COMPARE_OP_EQUAL: U32 := 2
  const COMPARE_OP_LESS_OR_EQUAL: U32 := 3
  const COMPARE_OP_GREATER: U32 := 4
  const COMPARE_OP_NOT_EQUAL: U32 := 5
  const COMPARE_OP_GREATER_OR_EQUAL: U32 := 6
  const COMPARE_OP_ALWAYS: U32 := 7

  // VkStencilOp
  const STENCIL_OP_KEEP: U32 := 0
  const STENCIL_OP_ZERO: U32 := 1
  const STENCIL_OP_REPLACE: U32 := 2
  const STENCIL_OP_INCREMENT_AND_CLAMP: U32 := 3
  const STENCIL_OP_DECREMENT_AND_CLAMP: U32 := 4
  const STENCIL_OP_INVERT: U32 := 5
  const STENCIL_OP_INCREMENT_AND_WRAP: U32 := 6
  const STENCIL_OP_DECREMENT_AND_WRAP: U32 := 7

  // VkBlendFactor
  const BLEND_FACTOR_ZERO: U32 := 0
  const BLEND_FACTOR_ONE: U32 := 1
  const BLEND_FACTOR_SRC_COLOR: U32 := 2
  const BLEND_FACTOR_ONE_MINUS_SRC_COLOR: U32 := 3
  const BLEND_FACTOR_DST_COLOR: U32 := 4
  const BLEND_FACTOR_ONE_MINUS_DST_COLOR: U32 := 5
  const BLEND_FACTOR_SRC_ALPHA: U32 := 6
  const BLEND_FACTOR_ONE_MINUS_SRC_ALPHA: U32 := 7
  const BLEND_FACTOR_DST_ALPHA: U32 := 8
  const BLEND_FACTOR_ONE_MINUS_DST_ALPHA: U32 := 9

  // VkBlendOp
  const BLEND_OP_ADD: U32 := 0
  const BLEND_OP_SUBTRACT: U32 := 1
  const BLEND_OP_REVERSE_SUBTRACT: U32 := 2
  const BLEND_OP_MIN: U32 := 3
  const BLEND_OP_MAX: U32 := 4

  // VkColorComponentFlagBits
  const COLOR_COMPONENT_R: Flags := 0x1
  const COLOR_COMPONENT_G: Flags := 0x2
  const COLOR_COMPONENT_B: Flags := 0x4
  const COLOR_COMPONENT_A: Flags := 0x8

  // VkPipelineBindPoint
  const PIPELINE_BIND_POINT_GRAPHICS: U32 := 0
  const PIPELINE_BIND_POINT_COMPUTE: U32 := 1
}
