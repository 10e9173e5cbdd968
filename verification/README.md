# gfx — a Dafny model of the integer core of a thin Vulkan layer

gfx is a small C++ layer over Vulkan. Most of its code makes Vulkan calls, but between those calls sit several sequential, integer-only algorithms. This project models those algorithms in Dafny and proves what the code promises about them.

- **Support code.** The following are modelled on their own and proved:
  - `GfxHash`, the sdbm hash modulo 2^64 (`Hashing`);
  - the linear-probing `HashTable` (`GfxHashTable`);
  - the growable `Array` (`GfxArray`);
  - `String::Append` (`GfxString`);
  - `Min`/`Max`/`Clamp` (`GfxMath`);
  - the length-prefixed little-endian `ReadStream`/`WriteStream` (`GfxStream`);
  - the public enumerations, usage bits and parameter defaults of Include/Gfx.h (`Gfx`, with the Vulkan constants they map to in `Vk`);
  - the string and enum translation tables of Source/GfxConversion.h (`Conversion`).
- **Device side of Source/Gfx.cpp:**
  - the staging ring allocator `AllocateStagingBuffer` (`Staging`), as written and corrected;
  - the frame ring of `GfxBeginFrame`/`GfxEndFrame` (`Frames`);
  - the deferred command queue `QueueCmd` and its drain (`DeferredQueue`);
  - the commands `GfxCreateBuffer`/`GfxCreateTexture` choose to queue (`Device`);
  - the level and barrier schedule of `CmdGenerateMipmap` (`Mipmap`);
  - the debug render-setup list, as an arena of ids (`RenderSetupList`);
  - the command recorder (`Recorder`). The recorder keeps the bound technique and setup, resolves binding hashes through the technique's table, checks descriptor kinds, keeps per-slot writes and the dirty flag, and counts the descriptor sets that draws allocate.
- **Techniques** (Source/GfxTechnique.cpp):
  - the parsed JSON tree that `CreateTechniqueBlob` walks (`Json`);
  - the technique record and its defaults and sentinels (`TechniqueBlob`);
  - the validation, numbering and pipeline-state sections of the compiler (`TechniqueCompiler`, `FixedFunction`);
  - the blob file layout (`TechniqueFile`);
  - `GfxCreateTechnique`'s binding table, vertex input and render pass (`Technique`);
  - the load cache and reload of `GfxLoadTechnique`/`GfxReloadAllTechniques` (`TechniqueCache`).
  - Blob paths are covered by `BlobPath`; files on disk and the rebuild decision by `AssetFiles`.
- **Models** (Source/GfxModel.cpp):
  - the integer layout of `CreateModelBlob`: mesh prefix offsets, the texture dedup table and the blob size (`ModelBlob`);
  - `CreateModel` reading the blob back into records, textures and GPU buffers (`GfxModel`);
  - `GfxLoadModel`, the accessors and `GfxCmdDrawModel` (`ModelApi`).

Fixed-width integers are bounded subset types of `int` (`Machine`). Wrap-around is written out wherever the code relies on it: the hash, the staging distances and the `uint32_t` vertex-buffer size. Every `ASSERT`, `VERIFY` and `Abort` of the code becomes an explicit outcome, using `Option`, `Result` or a fault constructor. A lookup that can never end, such as probing a full hash table, is an `EndlessProbe` fault rather than a precondition: the recorder's set calls and the technique cache report it where the code would spin.

Everything outside the layer is a parameter of the model:
- the JSON5 parser (`Parser`, giving `None` when the text does not parse);
- the shader compiler (`Compiler`, from a stage, its declarations and its main text to `Option` of SPIR-V bytes);
- tinyobjloader (a `Parser` from the file and its directory to an `Obj` value) for models;
- `GfxLoadTexture` (`Loader`) and `FileExists` (`fileExists`);
- the files on disk (`AssetFiles.Files`, a map from path to bytes);
- the handles Vulkan returns.

Byte blobs are `seq<Byte>`. Every value in them is little-endian at its declared width. A record copied with `memcpy` is laid out as its fields in declaration order with no alignment padding, and a `bool` field takes a four-byte word; the C++ compiler's padded layout is not modelled (see "Left out"). Characters become bytes through `Machine.Bytes`, which keeps each code point modulo 256, so paths and JSON text are one byte per character.

## Model

| member | source | states |
|---|---|---|
| GfxArray.New | Source/GfxUtil.h:76-81 | the constructor gives `count` elements and capacity equal to the count |
| GfxArray.Reserve | Source/GfxUtil.h:93-97 | reallocating to a capacity at least the count keeps every element and sets the capacity |
| GfxArray.Resize | Source/GfxUtil.h:98-105 | the count becomes the requested one; capacity grows to it only when it exceeds the old capacity; shrinking keeps the prefix, growing keeps the old elements in front |
| GfxArray.Grow | Source/GfxUtil.h:106-113 | the count rises by `n` and the old elements stay in front |
| GfxArray.Push | Source/GfxUtil.h:114-121 | the elements become the old ones followed by the new one; the capacity is kept while there is room and otherwise becomes 1 (from 0) or double |
| GfxArray.EraseSwap | Source/GfxUtil.h:122-125 | the count drops by one, the last element moves into the erased index, every other index keeps its element, capacity unchanged |
| GfxArray.EraseSwapRemovesOne | Source/GfxUtil.h:122-125 | as a multiset, the result plus the erased element is the original |
| GfxArray.Clear | Source/GfxUtil.h:126-129 | no elements remain and the capacity is kept |
| GfxArray.PushKeepsDoublingBound | Source/GfxUtil.h:114-121 | from an empty array, pushes keep the capacity a power of two with count <= capacity < 2 * count, so at most half the storage is unused |
| GfxHashTable.Create | Source/GfxUtil.h:157-165 | a new table has the requested capacity and every hash is the empty marker `~0` |
| GfxHashTable.CreateIsAllEmpty | Source/GfxUtil.h:157-165 | a new table has as many empty slots as its capacity |
| GfxHashTable.Clear | Source/GfxUtil.h:178-181 | clearing keeps the capacity and sets every hash to the empty marker |
| GfxHashTable.ClearIsAllEmpty | Source/GfxUtil.h:178-181 | a cleared table has as many empty slots as its capacity |
| GfxHashTable.ProbeIndex | Source/GfxUtil.h:172-174 | the linear probe from `hash % capacity` ends at a slot that holds the hash or the empty marker |
| GfxHashTable.ProbeDistance | Source/GfxUtil.h:172-174 | the probe's slot is the first stopping slot counted from the home slot `hash % capacity` |
| GfxHashTable.Put | Source/GfxUtil.h:170-177 | `Put` writes the hash and entry at the probe's slot and changes no other slot |
| GfxHashTable.Find | Source/GfxUtil.h:182-188 | a found entry is stored under that hash in some slot; looking up the empty marker `~0` finds nothing |
| GfxHashTable.Get | Source/GfxUtil.h:189-192 | `Get(i)` is non-NULL exactly when slot `i` is occupied, and then it is that slot's entry |
| GfxHashTable.FindAfterPut | Source/GfxUtil.h:170-188 | after `Put(h, e)` with `h` not the marker, `Find(h)` returns `e` |
| GfxHashTable.PutEmptyMarkerIsLost | Source/GfxUtil.h:170-188 | a `Put` under the marker `~0` cannot be found again |
| GfxHashTable.PutKeepsOthers | Source/GfxUtil.h:170-188 | a `Put` under another hash does not change what `Find` returns for a stored hash |
| GfxHashTable.PutSameHashOverwrites | Source/GfxUtil.h:170-177 | a second `Put` with the same hash probes to the same slot and overwrites it in place |
| GfxHashTable.PutUsesAtMostOneSlot | Source/GfxUtil.h:170-177 | a `Put` fills at most one empty slot: none for a hash already present, exactly one for a new hash |
| GfxHashTable.NewHashTakesSlot | Source/GfxUtil.h:170-177 | a hash not in a table with an empty slot can be put, and takes exactly one empty slot |
| GfxHashTable.EmptySlotLetsProbe | Source/GfxUtil.h:172-174 | while one slot is empty, the probe loop terminates for every hash |
| GfxHashTable.FullTableNeverStops | Source/GfxUtil.h:182-188 | with no empty slot and the hash absent, the probe loop never stops |
| GfxHashTable.FindOrMiss | Source/GfxUtil.h:182-188 | a lookup that reports a hash absent from every slot as missing, and agrees with `Find` whenever the probe stops |
| GfxHashTable.EmptyTableFindsNothing | Source/GfxUtil.h:178-188 | in a table with every slot empty (new or cleared), `Find` of any hash is NULL |
| GfxHashTable.SameHashesSameSlot | Source/GfxUtil.h:172-174 | the probe depends only on the hashes, not on the entries |
| GfxHashTable.SameKeysAgree | Source/GfxUtil.h:170-188 | tables with the same occupied keys and entries answer every `Find` alike and stay so after the same `Put` |
| GfxHashTable.OccupiedAfterPut | Source/GfxUtil.h:170-177 | the occupied view after a `Put` is the old one with the probe slot now holding the entry (or empty for the marker) |
| GfxStream.DecodeEncode | Source/GfxUtil.h:399-422 | a word written as `w` little-endian bytes reads back as the same value |
| GfxStream.EncodeDecode | Source/GfxUtil.h:314-341 | any `w` bytes read as a word and written back are the same bytes |
| GfxStream.NewWriteStream | Source/GfxUtil.h:370-374 | a new write stream over `size` bytes has written nothing |
| GfxStream.WriteField | Source/GfxUtil.h:390-439 | one `Write*` call appends exactly the field's encoding and leaves the buffer size alone |
| GfxStream.WriteFields | Source/GfxUtil.h:390-439 | a run of `Write*` calls appends the concatenated encodings of the fields in order |
| GfxStream.EncodeAllAppend | Source/GfxUtil.h:390-439 | writing two runs one after the other is writing their concatenation |
| GfxStream.SizeAllIsLength | Source/GfxUtil.h:390-439 | the bytes a run of writes produces are exactly the sum of the fields' sizes (8 + n for a block) |
| GfxStream.Word | Source/GfxUtil.h:399-428 | a scalar field is written as the little-endian bytes of its bit pattern, and that word determines the field |
| GfxStream.ReadWord | Source/GfxUtil.h:314-341 | a `w`-byte read succeeds exactly when `w` bytes remain, and yields a value below 256^w |
| GfxStream.LeadingChecksum | Source/GfxTechnique.cpp:1296 | the leading checksum of a blob is present exactly when the data has at least eight bytes |
| GfxStream.ReadField | Source/GfxUtil.h:303-361 | a read yields a field of the requested kind and advances the cursor by that field's size, staying inside the data |
| GfxStream.ReadFields | Source/GfxUtil.h:303-361 | a run of reads yields one field per requested kind |
| GfxStream.ReadFieldsKinds | Source/GfxUtil.h:303-361 | a successful run of reads yields fields of exactly the requested kinds and ends after their total size |
| GfxStream.ReadFieldsSplit | Source/GfxUtil.h:303-361 | reading two runs of kinds in one go is reading the first run, then the second from where it stopped |
| GfxStream.ReadFieldAt | Source/GfxUtil.h:303-439 | reading a field's kind where that field was written yields the field and the cursor after it |
| GfxStream.ReadFieldsAt | Source/GfxUtil.h:303-439 | reading the kinds of a run where the run was written yields the run and the cursor after it |
| GfxStream.BlobRoundTrip | Source/GfxUtil.h:298-439 | writing fields into a buffer of exactly their size ends at the end of the stream, and reading their kinds back from the start yields the same fields and ends at the end |
| GfxString.AppendN | Source/GfxUtil.h:241-248 | `Append(str, len)` keeps the old text (empty when NULL) and adds at most `len` characters of `str`, stopping at its end |
| GfxString.Append | Source/GfxUtil.h:249-256 | appending a NULL C string faults (it is passed to `strlen`); otherwise the result is the old text followed by the whole of `str` |
| GfxString.Length | Source/GfxUtil.h:274-277 | `strlen` faults exactly on NULL and otherwise counts the characters |
| GfxString.AppendLength | Source/GfxUtil.h:241-256 | the length after an append is the old length plus the appended length |
| GfxString.AppendTwice | Source/GfxUtil.h:241-256 | appending `a` then `b` is appending `a + b` |
| GfxMath.Min | Source/GfxUtil.h:442-445 | the result is one of the arguments and no larger than either |
| GfxMath.Max | Source/GfxUtil.h:446-449 | the result is one of the arguments and no smaller than either |
| GfxMath.Clamp | Source/GfxUtil.h:450-453 | the result never exceeds `high`; with `low <= high` it lies in `[low, high]`, is `n` when `n` does, and is the nearer bound otherwise; with `low > high` it is `high` |
| GfxMath.ClampMeansCase | Source/GfxUtil.h:450-453 | into a non-empty range, `Clamp` gives `low` below it, `high` above it and `n` inside it; into an empty range it gives `high` |
| Hashing.Hash | Include/Gfx.h:296-303 | `GfxHash` folded over the bytes from first to last, 0 for the empty string; it carries no contract of its own, and `Hashing.HashIsPolynomial` states its closed form |
| Hashing.SignedChar | Include/Gfx.h:300-301 | each byte enters the hash as a signed `char`: a value in [-128, 128) congruent to the byte |
| Hashing.StepIsMultiply | Include/Gfx.h:300-301 | one step `c + (h << 6) + (h << 16) - h` is `h * 65599 + c` modulo 2^64 |
| Hashing.HashIsPolynomial | Include/Gfx.h:296-303 | `GfxHash` is the polynomial sum of c_i * 65599^(n-1-i) over the signed bytes, reduced modulo 2^64 |
| Hashing.HashAppend | Include/Gfx.h:296-303 | hashing one more byte is one more step on the previous hash |
| Hashing.ComputeHash | Include/Gfx.h:296-303 | the loop over the first `len` bytes computes the hash of that prefix, which is the polynomial modulo 2^64 |
| Hashing.SingleByteHash | Include/Gfx.h:296-303 | a one-byte string hashes to its sign-extended byte, which is non-zero for a non-zero byte |
| Conversion.VkFormatOfEnum | Source/GfxConversion.h:6-74 | `ToVkFormat(GfxFormat)` reaches its `VK_FORMAT_MAX_ENUM` fallback exactly for codes outside the enumeration |
| Conversion.FormatEnumInjective | Source/GfxConversion.h:6-74 | different enumerators map to different Vulkan formats (an inverse recovers the enumerator) |
| Conversion.NamedFormat | Source/GfxConversion.h:6-140 | every string `ToVkFormat(const char*)` recognises is the name of an enumerator, and maps to what the enumerator maps to |
| Conversion.FormatParsersAgree | Source/GfxConversion.h:6-140 | the two `ToVkFormat` overloads agree: a recognised string names some enumerator with the same Vulkan format |
| Conversion.FormatNamesRecognised | Source/GfxConversion.h:75-140 | the string parser recognises the name of every enumerator except `unknown` |
| Conversion.TexelStrideExactlyForGfxFormats | Source/GfxConversion.h:141-216 | `ToTexelStride` is non-zero exactly for the Vulkan formats some enumerator maps to |
| Conversion.ParsedFormatsHaveStride | Source/GfxConversion.h:75-216 | every format the string parser returns has a non-zero texel stride |
| Conversion.ShaderFormatStringCoverage | Source/GfxConversion.h:217-305 | `ToShaderFormatString` is non-NULL exactly for formats with a texel stride whose aspect is colour, so NULL for the four depth formats |
| Conversion.AspectsOfGfxFormats | Source/GfxConversion.h:293-305 | D16/D32 have a depth aspect, D16S8/D32S8 depth and stencil, every other format colour only |
| Conversion.TextureStateTablesCoverStates | Source/GfxConversion.h:307-378 | the layout and access tables cover all seven texture states without their fallbacks and give distinct layouts; the stage table falls back to ALL_COMMANDS exactly for PRESENT |
| Conversion.BufferAccessTablesCoverAccesses | Source/GfxConversion.h:321-366 | every buffer access has its own stage; only NONE has an empty access mask; SHADER_WRITE and COPY_DST are exactly the accesses with a write bit |
| Conversion.BufferUsageMask | Source/GfxConversion.h:464-473 | buffer usage always has TRANSFER_SRC and TRANSFER_DST, each Vulkan usage bit is set exactly when its layer bit is, and no other bit is set |
| Conversion.ImageUsageMask | Source/GfxConversion.h:474-482 | image usage always has TRANSFER_SRC and TRANSFER_DST, each Vulkan usage bit is set exactly when its layer bit is, and no other bit is set |
| Conversion.DescriptorTablesAgree | Source/GfxConversion.h:484-509 | `ToVkDescriptorType` and `ToShaderDescriptorString` accept the same nine names; `texture*` gives SAMPLED_IMAGE, `image*` STORAGE_IMAGE, `cbuffer` UNIFORM_BUFFER, `buffer` STORAGE_BUFFER, `sampler` SAMPLER |
| Conversion.VertexInputRate | Source/GfxConversion.h:510-515 | each name of the chain parses to its position in the chain, which is its Vulkan value, and any other string to MAX_ENUM |
| Conversion.PrimitiveTopology | Source/GfxConversion.h:516-525 | each name of the chain parses to its position in the chain, which is its Vulkan value, and any other string to MAX_ENUM |
| Conversion.PolygonMode | Source/GfxConversion.h:526-532 | each name of the chain parses to its position in the chain, which is its Vulkan value, and any other string to MAX_ENUM |
| Conversion.CullMode | Source/GfxConversion.h:533-539 | each name of the chain parses to its position in the chain (NONE, FRONT_BIT, BACK_BIT), and any other string to MAX_ENUM |
| Conversion.FrontFace | Source/GfxConversion.h:540-545 | each name of the chain parses to its position in the chain, which is its Vulkan value, and any other string to MAX_ENUM |
| Conversion.CompareOp | Source/GfxConversion.h:546-557 | each name of the chain parses to its position in the chain, which is its Vulkan value, and any other string to MAX_ENUM |
| Conversion.StencilOp | Source/GfxConversion.h:558-569 | each name of the chain parses to its position in the chain, which is its Vulkan value, and any other string to MAX_ENUM |
| Conversion.BlendFactor | Source/GfxConversion.h:570-583 | each name of the chain parses to its position in the chain, which is its Vulkan value, and any other string to MAX_ENUM |
| Conversion.BlendOp | Source/GfxConversion.h:584-592 | each name of the chain parses to its position in the chain, which is its Vulkan value, and any other string to MAX_ENUM |
| Conversion.ColorComponentMask | Source/GfxConversion.h:593-605 | the mask holds the R, G, B or A bit exactly when that letter occurs in the string, whatever the order, repetitions or other characters |
| Staging.AlignUp | Source/Gfx.cpp:18 | rounding the head up to a power-of-two alignment gives the first multiple of the alignment at or after the head |
| Staging.AllocateAsWritten | Source/Gfx.cpp:13-31 | the allocator exactly as written: an accepted offset is aligned and the new head is `offset + size` in 64-bit arithmetic; its only check is that the distance from the tail does not shrink |
| Staging.ChosenOffset | Source/Gfx.cpp:18-20 | the offset is the aligned head when the block fits before the end of the 512 MiB buffer, otherwise 0 |
| Staging.Allocate | Source/Gfx.cpp:13-31 | an accepted block is aligned, lies inside the buffer at the chosen offset, and the head moves to its end |
| Staging.AllocateRefusesExactlyOverlap | Source/Gfx.cpp:13-31 | the corrected allocator refuses exactly when the block is larger than the buffer or overlaps the bytes between the next frame's tail and the head still in use by the GPU |
| Staging.StraightAsWritten | Source/Gfx.cpp:18-28 | without wrapping, an accepted block sits at the aligned head and the distance from the tail grows |
| Staging.LiteralCheckWithoutWrap | Source/Gfx.cpp:13-31 | when the block fits without wrapping to 0 and is smaller than the buffer (or the head is not 0), the code as written and the corrected allocator agree |
| Staging.AllocateWhenClear | Source/Gfx.cpp:13-31 | a block that fits at the aligned head and overlaps no byte in use is granted there |
| Staging.WrapOverlapExample | Source/Gfx.cpp:19-22 | as written, wrapping to offset 0 lets a 400 MiB block with head 384 MiB and tail 128 MiB through, although it covers the in-use byte at the tail; the corrected allocator refuses it |
| Staging.OverflowExample | Source/Gfx.cpp:22 | as written, a size near 2^64 wraps `offset + size` and passes both tests, leaving the head at 0; the corrected allocator refuses it |
| Frames.RequestedImageCount | Source/Gfx.cpp:272 | the image count is the desired count clamped to the surface's [min, max], with no upper bound when the maximum is 0 |
| Frames.CreateSwapchain | Source/Gfx.cpp:386-387 | a new ring of `count` frames starts at frame 0 with frame `1 % count` next |
| Frames.EndFrame | Source/Gfx.cpp:712-743 | ending a frame records the staging head as that frame's tail, changes no other tail, and advances to the next frame |
| Frames.EndFramesRotate | Source/Gfx.cpp:741-742 | after `k` frames the current frame is the start frame plus `k` modulo the frame count |
| Frames.FullLap | Source/Gfx.cpp:741-742 | after as many frames as there are swapchain images, the current and next frames are back where they started |
| Frames.AllocateUpload | Source/Gfx.cpp:745-752 | `GfxAllocateUploadBuffer` succeeds exactly when the staging allocator does against the next frame's tail; the offset is 256-aligned, inside the buffer, and only the head changes |
| DeferredQueue.Empty | Source/Gfx.cpp:706-708 | a drained queue holds no functions and no parameter bytes |
| DeferredQueue.QueueCmd | Source/Gfx.cpp:51-58 | `QueueCmd` adds one function whose parameter bytes start at the old end of the byte buffer and appends those bytes |
| DeferredQueue.QueueCmdAppends | Source/Gfx.cpp:51-58 | the pending calls after `QueueCmd` are the old ones followed by the new function with its own bytes |
| DeferredQueue.QueueAllPending | Source/Gfx.cpp:51-58 | queueing any list of commands in order leaves exactly that list pending, each with its own bytes |
| DeferredQueue.Drain | Source/Gfx.cpp:697-708 | `GfxBeginFrame` calls every pending function in queue order with its own bytes and leaves the queue empty |
| Mipmap.Half | Source/Gfx.cpp:237-238 | the next level's extent `Max(x >> 1, 1)` is at least 1 |
| Mipmap.LevelSizeClosedForm | Source/Gfx.cpp:224-259 | level `k >= 1` has extent `Max(x >> k, 1)` |
| Mipmap.Steps | Source/Gfx.cpp:226-260 | each loop iteration issues three events (barrier, blit, barrier) |
| Mipmap.GenerateMipmap | Source/Gfx.cpp:222-262 | the loop issues exactly the events of the schedule: three per level after the first, then one final barrier |
| Mipmap.ScheduleBlits | Source/Gfx.cpp:226-260 | the blit for level `k` reads level `k - 1` at its full extent and writes level `k` at half that extent (at least 1) |
| Mipmap.ScheduleReleasesEachLevelOnce | Source/Gfx.cpp:222-262 | every level is moved to the caller's final layout by exactly one barrier |
| Device.ParamsOf | Source/Gfx.cpp:60-190 | fields read back behind a `user_data` pointer rebuild parameters of the command they were read for |
| Device.DecodeParams | Source/Gfx.cpp:60-190 | decoding a command's parameter bytes yields parameters of that command, or nothing |
| Device.DecodePayload | Source/Gfx.cpp:51-190 | the bytes `QueueCmd` copies from a parameter struct are read back by the deferred function as the same struct |
| Device.PayloadSize | Source/Gfx.cpp:60-190 | no parameter struct is larger than the biggest one, the mipmap parameters |
| Device.Write | Source/Gfx.cpp:784 | the `memcpy` into the mapped staging memory puts the data at the offset and changes no other byte |
| Device.Queue | Source/Gfx.cpp:51-58 | queueing a typed command appends exactly that command and its bytes to the pending calls and leaves the staging state alone |
| Device.CreateBuffer | Source/Gfx.cpp:767-799 | `GfxCreateBuffer` gives the buffer its size and Vulkan usage; without data nothing is queued, with data it succeeds exactly when the staging allocator does |
| Device.CreateBufferQueuesUpload | Source/Gfx.cpp:782-796 | with data, the bytes land in staging at an aligned offset ending at the new head, no other staging byte changes, and one upload command for exactly that range is queued |
| Device.BufferUploadRunsAtNextFrame | Source/Gfx.cpp:767-799 | the queued call, decoded as the deferred function decodes it, copies `size` bytes of the caller's data from staging to offset 0 of the new buffer |
| Device.TextureCommand | Source/Gfx.cpp:850-891 | the command `GfxCreateTexture` queues is an image command, never a buffer upload |
| Device.CreateTexture | Source/Gfx.cpp:807-894 | the texture's format, mip count (computed only when mipmaps are asked for) and Vulkan usage follow the parameters; without data it always succeeds, with data exactly when the staging allocator does |
| Device.CreateTextureQueuesOne | Source/Gfx.cpp:850-891 | exactly one command is queued: a mipmap generation for data with mipmaps, an image upload for data without, a transition without data |
| Device.CreateTextureCommandTargets | Source/Gfx.cpp:883-891 | without data the queued transition moves the new image to the aspect, access and layout of the initial state |
| Device.CreateTextureUploadTargets | Source/Gfx.cpp:850-881 | with data, the queued command reads the staged copy of the data and targets the new image with the initial state's layout, access and the format's aspect |
| Device.DefaultTextureIsTransitioned | Include/Gfx.h:212-224 | a texture made with the default parameters gets one mip level, an undefined format and one transition to shader-read layout |
| Device.QueueSwapchainTransitions | Source/Gfx.cpp:333-338 | creating the swapchain queues one present transition per image, in image order |
| Device.AllocateUploadBuffer | Source/Gfx.cpp:745-752 | `GfxAllocateUploadBuffer` returns a 256-aligned range of the staging buffer and changes only the ring; it fails exactly when the allocator does |
| Device.BeginFrame | Source/Gfx.cpp:697-708 | beginning a frame runs every pending command in order and leaves the queue empty, changing nothing else |
| Recorder.Fresh | Source/GfxInternal.h:42-59 | a new command buffer has no technique, no render setup, a clean descriptor set and nothing recorded |
| Recorder.BeginTechnique | Source/Gfx.cpp:1102-1112 | binding a technique records its pipeline bind, resizes the descriptor writes to its binding count and clears the dirty flag |
| Recorder.EndTechnique | Source/Gfx.cpp:1113-1120 | ending a technique ends the render pass only when a render setup is active, and forgets both |
| Recorder.SetRenderSetup | Source/Gfx.cpp:1122-1140 | a render setup is accepted only for a graphics technique and begins its render pass; with no technique it faults |
| Recorder.Resolve | Source/Gfx.cpp:1199-1206 | a binding resolves exactly when the technique's table holds the hash with an accepted descriptor type; the slot is below the binding count; a missing hash is an error, not a NULL dereference |
| Recorder.FoundSlotBelow | Source/GfxTechnique.cpp:931-946 | every binding a technique's table holds has a slot below the binding count |
| Recorder.ResolveAsWritten | Source/GfxUtil.h:182-188 | the lookup as written never returns when the probe finds no stopping slot, and otherwise agrees with the corrected lookup |
| Recorder.FullTableHangs | Source/GfxUtil.h:182-188 | with every slot occupied, looking up an absent hash loops forever, where the corrected lookup reports it unknown |
| Recorder.ResolvesDeclaredBinding | Source/Gfx.cpp:1197-1267 | a binding declared in the technique file (the last with its hash) resolves to its own index when its type is accepted, and to a type error otherwise; for a declared hash the lookup as written gives the same answer |
| Recorder.SixteenBindingsHang | Source/GfxInternal.h:196-207 | a technique with sixteen distinct bindings fills its sixteen-slot table, so looking up any other name never returns |
| Recorder.Store | Source/Gfx.cpp:1208-1222 | a set call writes only the resolved slot and marks the descriptor set dirty |
| Recorder.SetBuffer | Source/Gfx.cpp:1197-1223 | `GfxCmdSetBuffer` looks the hash up as the code does: on a full table with no stopping slot it faults with `EndlessProbe`; it succeeds exactly when the lookup finds a buffer type, and then writes the buffer range into that slot only, marks the set dirty and changes nothing else; otherwise it reports the lookup's error |
| Recorder.SetTexture | Source/Gfx.cpp:1224-1246 | `GfxCmdSetTexture` faults with `EndlessProbe` where the code's lookup spins, succeeds exactly when the lookup finds an image type, and then writes the view with the layout of its state into that slot only and marks the set dirty |
| Recorder.SetSampler | Source/Gfx.cpp:1247-1268 | `GfxCmdSetSampler` faults with `EndlessProbe` where the code's lookup spins, succeeds exactly when the lookup finds a sampler, and then writes the sampler into that slot only and marks the set dirty |
| Recorder.AllocUploadBuffer | Source/Gfx.cpp:1269-1295 | `GfxCmdAllocUploadBuffer` looks the hash up as the code does (an `EndlessProbe` fault where it spins), needs a uniform or storage buffer, takes a 256-aligned staging range and writes that range into the slot only; it fails exactly when the lookup or the allocation does |
| Recorder.Flush | Source/Gfx.cpp:1297-1319 | a dirty descriptor set is allocated and bound once, counting one set, and the flag clears; a clean one changes nothing |
| Recorder.DrawWith | Source/Gfx.cpp:1321-1335 | every draw and dispatch first flushes the descriptor set, then records the call |
| Recorder.Step | Source/Gfx.cpp:1102-1335 | after each call the dirty flag is set by a set call, cleared by a draw or technique bind, and otherwise kept; only a dirty draw allocates a set |
| Recorder.SetStep | Source/Gfx.cpp:1197-1295 | a set call leaves the descriptor set dirty and allocates nothing |
| Recorder.UploadStep | Source/Gfx.cpp:1269-1295 | an upload allocation leaves the descriptor set dirty and records nothing |
| Recorder.SetsPerFlushingDraw | Source/Gfx.cpp:1297-1335 | a recording allocates exactly one descriptor set per draw preceded by a set call since the last draw or technique bind, so never more than the draws |
| Recorder.RunKeepsBinds | Source/Gfx.cpp:1297-1335 | in the stream a run of recorder calls records, every descriptor-set bind is immediately followed by the draw or dispatch it was flushed for |
| Recorder.SecondDrawAllocatesNone | Source/Gfx.cpp:1297-1335 | a draw straight after another allocates no descriptor set and only records the call |
| RenderSetupList.EmptyRepresentsNothing | Source/GfxInternal.h:198-201 | a technique with no render setups has no head and no tail |
| RenderSetupList.Append | Source/Gfx.cpp:1069-1080 | a new setup becomes the tail, its `m_Prev` is the old tail, and it becomes the head only when the list was empty |
| RenderSetupList.AppendAtTail | Source/Gfx.cpp:1069-1080 | creating a setup appends it to the end of the list's order |
| RenderSetupList.Unlink | Source/Gfx.cpp:1086-1096 | destroying a setup removes it; the head moves to its `m_Next` only when it was the head, and the tail to its `m_Prev` only when it was the tail |
| RenderSetupList.UnlinkKeepsOrder | Source/Gfx.cpp:1086-1096 | destroying the `i`-th setup leaves the others linked in the same order |
| RenderSetupList.UnlinkedEnds | Source/Gfx.cpp:1088-1091 | after destroying a setup, head and tail are the first and last of the remaining order |
| RenderSetupList.UnlinkedNeighbour | Source/Gfx.cpp:1092-1095 | after destroying a setup, its former neighbours point at each other |
| RenderSetupList.WalkVisitsAll | Source/Gfx.cpp:1069-1096 | following `m_Next` from the head visits every setup exactly once, in creation order |
| RenderSetupList.NodeCount | Source/Gfx.cpp:1069-1096 | the list holds exactly as many setups as its order lists |
| TechniqueBlob.EmptyBlob | Source/GfxTechnique.cpp:121-122 | the compiler starts from a record with no bindings, every binding slot at its default, and the bind point of the technique kind; a graphics record also has the default pipeline state |
| TechniqueBlob.DefaultsAreSentinels | Source/GfxInternal.h:119-180 | a fresh record has bind point MAX_ENUM, no bindings, 16 binding slots of hash 0 and type MAX_ENUM, 8 attribute slots, 4 colour formats and 4 blend attachments at their declared defaults |
| TechniqueBlob.FromWordsRoundTrip | Source/GfxInternal.h:119-180 | the words of a record read back as the same record |
| TechniqueBlob.ImageWordsRoundTrip | Source/GfxInternal.h:119-180 | words laid out as little-endian bytes read back as the same words |
| TechniqueBlob.ImageRoundTrip | Source/GfxInternal.h:119-180 | in the model's unpadded layout a graphics record's image is 616 bytes and a compute record's 200, and reinterpreting either image gives back the record |
| TechniqueBlob.FromImage | Source/GfxTechnique.cpp:910 | reinterpreting a block as a record yields a record of the declared shape, or nothing when the block is not one |
| TechniqueFile.ReadFront | Source/GfxTechnique.cpp:907-910 | reading the checksum and the record block yields a well-shaped record, or nothing when the data runs out |
| TechniqueFile.ReadStages | Source/GfxTechnique.cpp:965-969 | reading the stage blocks yields one block per stage, or nothing |
| TechniqueFile.Deserialise | Source/GfxTechnique.cpp:903-972 | a blob that parses yields contents the writer could have produced: a well-shaped record and one code block per stage |
| TechniqueFile.FillsWrittenSize | Source/GfxTechnique.cpp:727-739 | the bytes written are exactly the `m_Size` computed beforehand, so the stream ends at its end |
| TechniqueFile.RoundTrip | Source/GfxTechnique.cpp:727-969 | a blob written by the compiler (record, then the vertex and fragment or compute code) is read back as the same checksum, record and code |
| TechniqueFile.ChecksumLeads | Source/GfxTechnique.cpp:735 | the first eight bytes of a written blob are the checksum of its source |
| TechniqueFile.ReadChecksumLeads | Source/GfxTechnique.cpp:1340 | the checksum a parsed blob carries is the one its first eight bytes hold |
| TechniqueCompiler.Extend | Source/GfxTechnique.cpp:164-171 | each generated line is appended to the stage's include text; a text with nothing appended stays NULL |
| TechniqueCompiler.AppendText | Source/GfxTechnique.cpp:168-181 | appending a JSON string keeps the old text and adds the string |
| TechniqueCompiler.ArrayOf | Source/GfxTechnique.cpp:237-242 | an array section is accepted exactly when it is an array of at most `capacity` elements each accepted; element `j` fills slot `j` and slots past the array keep their values |
| TechniqueCompiler.VaryingNeedsNameAndType | Source/GfxTechnique.cpp:143-163 | an accepted output is an object that names both "name" and "type" |
| TechniqueCompiler.OutputEntry | Source/GfxTechnique.cpp:143-165 | output `i` is accepted exactly when its object has string "name" and "type", and then is declared `out` at location `i` |
| TechniqueCompiler.InputDecls | Source/GfxTechnique.cpp:165 | there is one fragment-stage input declaration per vertex output |
| TechniqueCompiler.OutputsOf | Source/GfxTechnique.cpp:136-167 | "outputs" is accepted exactly when it is an array of accepted outputs; output `j` is declared at location `j`, with no limit on the count |
| TechniqueCompiler.AttributeEntry | Source/GfxTechnique.cpp:241-289 | an accepted attribute has every field set and is declared as a vertex input at its index, with the GLSL type of its format |
| TechniqueCompiler.AttributeNeedsEveryKey | Source/GfxTechnique.cpp:283-287 | an attribute is accepted only when its object names "name", "binding", "format", "offset" and "input_rate" |
| TechniqueCompiler.BindingEntry | Source/GfxTechnique.cpp:297-349 | an accepted binding has a non-zero name hash and a known descriptor type, is declared at its index, and stores the hash of its name with the type its "type" names |
| TechniqueCompiler.BindingKindIsKnown | Source/GfxTechnique.cpp:333-345 | an accepted binding's type is one of the nine names, so its GLSL declaration is never NULL |
| TechniqueCompiler.BindingsOf | Source/GfxTechnique.cpp:292-351 | "shader_bindings" is accepted only as an array of at most 16; entry `j` fills slot `j`, the count is the array's length, and later slots keep their values |
| TechniqueCompiler.BindingsOfChecked | Source/GfxTechnique.cpp:292-351 | after "shader_bindings", every counted binding has a non-zero hash and a known type |
| TechniqueCompiler.VertexShaderMember | Source/GfxTechnique.cpp:130-182 | the vertex shader section changes only shader text, never the record |
| TechniqueCompiler.FragmentShaderMember | Source/GfxTechnique.cpp:183-234 | the fragment shader section changes only shader text, never the record |
| TechniqueCompiler.ShaderOf | Source/GfxTechnique.cpp:130-234 | a shader section must be an object; its members change only shader text |
| TechniqueCompiler.StateMember | Source/GfxTechnique.cpp:353-690 | the attachment and pipeline-state sections keep every counted entry filled in and every enumeration known |
| TechniqueCompiler.BlendsOf | Source/GfxTechnique.cpp:623-690 | "blend_attachments" keeps the table of blend states at its fixed size and every state's enumerations known |
| TechniqueCompiler.BlendEntry | Source/GfxTechnique.cpp:629-688 | a blend state object updates the state in place and keeps its enumerations known |
| TechniqueCompiler.AttributesOf | Source/GfxTechnique.cpp:235-291 | "vertex_attributes" is accepted only as an array of at most eight; attribute `j` fills slot `j` and adds one vertex-stage declaration; the count is the array's length |
| TechniqueCompiler.GraphicsBindingsOf | Source/GfxTechnique.cpp:292-351 | in a graphics technique the binding table, its count and the declarations added to the vertex include are exactly what "shader_bindings" gives |
| TechniqueCompiler.WorkGroupOf | Source/GfxTechnique.cpp:761-789 | an accepted "work_group_size" yields a local-size declaration |
| TechniqueCompiler.ComputeShaderMember | Source/GfxTechnique.cpp:755-804 | the compute shader section never changes the binding table |
| TechniqueCompiler.ScanRoot | Source/GfxTechnique.cpp:104-115 | the first pass notes whether the root names "vertex_shader" and whether it names "compute_shader" |
| TechniqueCompiler.BranchOf | Source/GfxTechnique.cpp:94-117 | a technique is accepted only when the text parses to an object naming exactly one of "vertex_shader" and "compute_shader"; it is graphics exactly when it names the vertex shader |
| TechniqueCompiler.GraphicsCodeAsWritten | Source/GfxTechnique.cpp:695-726 | as written, a graphics technique whose vertex include or vertex main text was never appended to faults on a NULL string; whenever it does not fault it agrees with the corrected assembly |
| TechniqueCompiler.GraphicsCode | Source/GfxTechnique.cpp:695-726 | graphics code exists exactly when the vertex source compiles and, when the fragment main is not empty, the fragment source compiles; an empty fragment main gives empty fragment code |
| TechniqueCompiler.ComputeCodeAsWritten | Source/GfxTechnique.cpp:870-882 | as written, the compute source faults exactly when its include or main text was never appended to, and otherwise agrees with the corrected assembly |
| TechniqueCompiler.ComputeCode | Source/GfxTechnique.cpp:870-882 | compute code exists exactly when the compute source compiles, and is that one block |
| TechniqueCompiler.GraphicsBlob | Source/GfxTechnique.cpp:121-122 | the record built for a graphics technique has the declared shape |
| TechniqueCompiler.ComputeBlob | Source/GfxTechnique.cpp:747-748 | the record built for a compute technique has the declared shape |
| TechniqueCompiler.CompileAsWritten | Source/GfxTechnique.cpp:86-895 | `CreateTechniqueBlob` as written: whenever it does not fault it returns what the corrected compiler returns |
| TechniqueCompiler.Compile | Source/GfxTechnique.cpp:86-895 | a compiled technique is storable, passes every check, carries the hash of the JSON text as checksum, and is graphics exactly when the root names the vertex shader |
| TechniqueCompiler.CreateTechniqueBlob | Source/GfxTechnique.cpp:86-895 | the blob is empty when compilation fails and otherwise the serialised compiled technique; `TechniqueCompiler.CreatedBlobReadsBack` states that it reads back |
| TechniqueCompiler.CreatedBlobReadsBack | Source/GfxTechnique.cpp:86-895 | the returned blob is empty exactly when compilation fails; otherwise it reads back as the compiled contents and leads with the text's hash |
| TechniqueCompiler.VertexOnlyDereferencesNull | Source/GfxTechnique.cpp:700-711 | a technique with only a vertex shader (no bindings, attributes or outputs) faults as written on the NULL include text, while the corrected compiler accepts it with empty fragment code |
| FixedFunction.BoolOf | Source/GfxTechnique.cpp:388-392 | a flag is accepted exactly when the value is `true` or `false`, and is set exactly when it is `true` |
| FixedFunction.WordOf | Source/GfxTechnique.cpp:533-537 | a count is accepted exactly when the value is a number, and is the `atoi` of its text cast to 32 bits |
| FixedFunction.FloatOf | Source/GfxTechnique.cpp:438-443 | a float field is accepted exactly when the value is a number |
| FixedFunction.EnumOf | Source/GfxTechnique.cpp:381-387 | an enumerated field is accepted exactly when the value is a string its table knows, and is that table's value |
| FixedFunction.FoldKeeps | Source/GfxTechnique.cpp:378-394 | a property every accepted member keeps holds after the whole member loop |
| FixedFunction.FilledOnlyAtKey | Source/GfxTechnique.cpp:378-394 | a field that only one key can fill is filled after the loop only when the object names that key |
| FixedFunction.InputAssemblyMember | Source/GfxTechnique.cpp:375-395 | "input_assembly" never leaves an unknown topology behind |
| FixedFunction.RasterizerMember | Source/GfxTechnique.cpp:396-464 | "rasterizer_state" never leaves an unknown polygon mode, cull mode or front face behind |
| FixedFunction.StencilMember | Source/GfxTechnique.cpp:498-608 | a stencil face never gets an unknown operation or compare op |
| FixedFunction.DepthStencilMember | Source/GfxTechnique.cpp:465-622 | "depth_stencil_state" never leaves an unknown compare op or stencil face behind |
| FixedFunction.BlendMember | Source/GfxTechnique.cpp:635-688 | a blend state never gets an unknown blend factor or blend op |
| FixedFunction.ColorFormatOfMeans | Source/GfxTechnique.cpp:361-364 | a color attachment is accepted exactly when it is "back_buffer" (stored as the range-size sentinel) or a format name the lookup knows (stored as that format) |
| FixedFunction.ColorAttachmentsOf | Source/GfxTechnique.cpp:353-367 | "color_attachments" is accepted exactly when it is an array of at most four accepted formats; format `i` fills slot `i`, the count is the array's length and later slots keep their values |
| FixedFunction.ColorItems | Source/GfxTechnique.cpp:359-366 | the attachment loop from element `i` fills exactly the slots it visits and accepts exactly when every visited element is accepted |
| FixedFunction.DepthFormatOf | Source/GfxTechnique.cpp:368-374 | "depth_attachment" is accepted exactly when it is a format name the lookup knows, and is that format |
| FixedFunction.AcceptedIsPosition | Source/GfxConversion.h:510-592 | a string parser's accepted result is the position of that string in its name table |
| FixedFunction.RasterizerStaysKnown | Source/GfxTechnique.cpp:396-464 | after a whole "rasterizer_state" object its enumerations are still known |
| FixedFunction.StencilStaysKnown | Source/GfxTechnique.cpp:498-608 | after a whole "front" or "back" object the face's enumerations are still known |
| FixedFunction.DepthStencilStaysKnown | Source/GfxTechnique.cpp:465-622 | after a whole "depth_stencil_state" object its enumerations are still known |
| FixedFunction.BlendStaysKnown | Source/GfxTechnique.cpp:629-689 | after a whole blend state object its enumerations are still known |
| FixedFunction.DefaultsAreKnown | Source/GfxInternal.h:119-180 | the default rasterizer, depth-stencil and blend states hold only known enumerations |
| Technique.PutBindings | Source/GfxTechnique.cpp:934-946 | putting the first `n` bindings keeps the table valid, keeps its capacity and uses at most `n` empty slots |
| Technique.PutBindingsFinds | Source/GfxTechnique.cpp:934-946 | after the loop, a binding's name hash finds the slot of the last binding with that hash, with its descriptor type |
| Technique.PutKeeps | Source/GfxUtil.h:170-188 | putting one hash leaves what another hash finds unchanged |
| Technique.PutBindingsHashes | Source/GfxTechnique.cpp:934-946 | after the loop every slot holds its old hash or the hash of one of the bindings |
| Technique.PutBindingsMisses | Source/GfxTechnique.cpp:934-946 | starting from an empty table, a hash no binding has finds nothing |
| Technique.PutBindingsSameKeys | Source/GfxTechnique.cpp:934-946 | two tables with the same keys in the same slots still agree after the same bindings are put |
| Technique.PutBindingsSlots | Source/GfxTechnique.cpp:934-946 | after the loop every stored slot number is below the binding count |
| Technique.PutBindingsFills | Source/GfxTechnique.cpp:934-946 | from an empty table, `n` distinct non-empty hashes take exactly `n` slots |
| Technique.PutNewBinding | Source/GfxTechnique.cpp:945 | one new distinct hash takes exactly one more slot |
| Technique.FilledWithOthers | Source/GfxTechnique.cpp:934-946 | a table filled only by the bindings holds no other hash |
| Technique.PutSameKeys | Source/GfxUtil.h:170-177 | one put keeps two tables with the same keys in agreement |
| Technique.RenderPassOf | Source/GfxTechnique.cpp:971-1027 | the render pass has one attachment per color attachment plus one for a depth format; color `i` gets its format with the back buffer resolved to the swapchain format; the subpass has a depth reference exactly when there is a depth format, which is the attachment after the colors |
| Technique.BindingCountOf | Source/GfxTechnique.cpp:1069-1084 | the vertex binding count is above every attribute's binding and, when positive, is one more than some attribute's binding |
| Technique.BindingsAfter | Source/GfxTechnique.cpp:1062-1067 | the bindings array has one entry per attribute |
| Technique.AttributeStep | Source/GfxTechnique.cpp:1071-1084 | one loop step adds the attribute's texel stride to its binding's stride and sets that binding's input rate, and changes no other binding |
| Technique.Descriptions | Source/GfxTechnique.cpp:1070-1079 | attribute description `i` has location `i` and the attribute's binding, format and offset |
| Technique.VertexInputOf | Source/GfxTechnique.cpp:1062-1091 | the vertex input exists exactly when every binding is below the attribute count; binding `b`'s stride is the sum of its attributes' texel strides, its rate is its last attribute's, and the count is the highest binding plus one |
| Technique.BindingLoop | Source/GfxTechnique.cpp:1069-1084 | the loop faults exactly when some binding indexes past the array, and otherwise yields the strides and the binding count |
| Technique.CountStep | Source/GfxTechnique.cpp:1083 | one step raises the binding count to the attribute's binding plus one when that is larger |
| Technique.VertexInputAsWritten | Source/GfxTechnique.cpp:1062-1091 | the loop as written faults exactly when a binding is past the array, and otherwise yields the corrected vertex input |
| Technique.BaseTable | Source/GfxTechnique.cpp:912-926 | the binding table starts empty, whether it is a fresh technique's or a reloaded one's cleared table |
| Technique.GraphicsPipelineOf | Source/GfxTechnique.cpp:961-1185 | the pipeline exists exactly when the vertex input does; it has two stages exactly when there is fragment code, one blend state per color attachment, and the render pass of the record |
| Technique.CreateTechnique | Source/GfxTechnique.cpp:903-1244 | a technique is created exactly when the file reads back as a loadable record; it keeps the record's bind point and binding count and has a graphics pipeline exactly when it is graphics |
| Technique.CreatedFindsBindings | Source/GfxTechnique.cpp:931-946 | a created technique finds each binding's name hash at the binding's own slot, with its descriptor type |
| Technique.CreatedMissesOthers | Source/GfxTechnique.cpp:931-946 | a created technique finds nothing for a hash no binding has |
| Technique.CreatedSlotsBelow | Source/GfxTechnique.cpp:931-946 | every slot a created technique stores is below its binding count |
| Technique.CreatedFullTable | Source/GfxTechnique.cpp:931-946 | with sixteen distinct bindings the sixteen-slot table is full, so probing any other hash never stops |
| Technique.FullBindingTable | Source/GfxTechnique.cpp:931-946 | sixteen distinct bindings leave no empty slot for another hash |
| Technique.ReloadIsFresh | Source/GfxTechnique.cpp:912-926 | rebuilding over an old technique gives the same bind point, binding count, pipeline and keys as creating a new one |
| Technique.CreatedState | Source/GfxTechnique.cpp:912-946 | the created table is the base table with the bindings put, and the pipeline does not depend on the old technique |
| Technique.BaseTablesAgree | Source/GfxTechnique.cpp:913-926 | a cleared old table and a new table have the same keys and the same occupancy |
| TechniqueCache.CompilerIsFaithful | Source/GfxTechnique.cpp:727-739 | every non-empty blob the compiler returns reads back and starts with the hash of its JSON text |
| TechniqueCache.SourceBlob | Source/GfxTechnique.cpp:1291-1335 | the technique is built from a fresh compile when the compiled file is missing or its checksum differs from the JSON's hash, and from the compiled file otherwise |
| TechniqueCache.LoadNew | Source/GfxTechnique.cpp:1270-1352 | a new path gives NULL when neither file reads, waits for an edit when the JSON must be compiled and does not compile, and otherwise loads when the chosen bytes load; a load adds one technique, writes the compiled file exactly when it was regenerated, and leaves the cache alone on failure; when the cache has no slot at which the final `Put` can stop, a load that would succeed is an `EndlessProbe` fault instead |
| TechniqueCache.LoadTechnique | Source/GfxTechnique.cpp:1260-1268 | when the cache has neither the path's hash nor an empty slot the lookup is an `EndlessProbe` fault that changes nothing; otherwise a cached path returns the cached technique and changes nothing, and an uncached one is a new load |
| TechniqueCache.FullCacheHangs | Source/GfxTechnique.cpp:1264-1268 | once every one of the cache's slots holds a path other than this one, loading it never returns |
| TechniqueCache.LoadNewTakesSlot | Source/GfxTechnique.cpp:1337-1341 | a successful load of a path not yet cached, whose hash is not the empty marker, uses up exactly one empty slot of the cache |
| TechniqueCache.LoadTechniqueChecked | Source/GfxTechnique.cpp:1260-1268 | the load that refuses a new path on a full cache: it never spins, reports `CacheFull` exactly when the lookup as written would spin and then changes nothing, and otherwise does what the code does |
| TechniqueCache.PutKeepsValid | Source/GfxTechnique.cpp:1337-1341 | caching a new entry for a new technique keeps every entry naming an existing technique |
| TechniqueCache.LoadedIsCached | Source/GfxTechnique.cpp:1260-1341 | after a load, loading the same path again returns the same technique without touching anything |
| TechniqueCache.LoadKeepsOthers | Source/GfxTechnique.cpp:1337-1341 | a load leaves every other cached path's entry and technique unchanged |
| TechniqueCache.FoundIsObject | Source/GfxTechnique.cpp:1264-1268 | a cached entry always names an existing technique |
| TechniqueCache.LoadedChecksumIsJsonHash | Source/GfxTechnique.cpp:1291-1341 | when the JSON exists, the cached checksum after a load is the hash of the JSON text |
| TechniqueCache.SlotJson | Source/GfxTechnique.cpp:1361-1374 | a reload reads a slot's JSON exactly when the slot is used and its path reads |
| TechniqueCache.ReloadSlot | Source/GfxTechnique.cpp:1361-1409 | a current slot is left alone; otherwise the JSON is recompiled, the compiled file rewritten, the technique rebuilt in place and the checksum set to the JSON's hash, with every other slot and every handle kept |
| TechniqueCache.Rebuilt | Source/GfxTechnique.cpp:1403-1404 | rebuilding slot `i` changes only its checksum and its technique |
| TechniqueCache.LoadedIsCurrent | Source/GfxTechnique.cpp:1291-1341 | right after a load from an existing JSON file, a reload has nothing to do for that slot |
| TechniqueCache.LoadKeepsJson | Source/GfxTechnique.cpp:1326-1329 | a load never changes the JSON file it read |
| TechniqueCache.LoadedEntry | Source/GfxTechnique.cpp:1337-1341 | a load stores the path's hash and the path in the slot its hash probes to |
| TechniqueCache.ReloadedLikeFresh | Source/GfxTechnique.cpp:1403 | a rebuilt technique is the one a fresh create of the new file gives, up to the slot order of its binding table |
| TechniqueCache.ReloadFrom | Source/GfxTechnique.cpp:1358-1410 | reloading from slot `i` on keeps every handle valid |
| TechniqueCache.ReloadAll | Source/GfxTechnique.cpp:1356-1411 | reloading every technique keeps every handle, path and hash |
| TechniqueCache.ReloadKeepsHandles | Source/GfxTechnique.cpp:1356-1411 | after a reload every cached path still finds the same technique handle |
| TechniqueCache.SlotSettles | Source/GfxTechnique.cpp:1361-1409 | reloading one slot makes it current and keeps every current slot current |
| TechniqueCache.SeparateKept | Source/GfxTechnique.cpp:1389-1397 | keeping handles keeps compiled-file paths apart from JSON paths |
| TechniqueCache.JsonKept | Source/GfxTechnique.cpp:1398 | writing a compiled file changes no slot's JSON |
| TechniqueCache.ReloadSettles | Source/GfxTechnique.cpp:1358-1410 | after a reload pass every slot is current |
| TechniqueCache.CurrentIsFixed | Source/GfxTechnique.cpp:1370-1380 | a pass over slots that are all current changes nothing |
| TechniqueCache.ReloadIdempotent | Source/GfxTechnique.cpp:1356-1411 | reloading twice gives the same as reloading once |
| TechniqueCache.CountedAttributes | Source/GfxTechnique.cpp:1063-1071 | the loader sees at most eight vertex attributes |
| TechniqueCache.CheckedLoadable | Source/GfxTechnique.cpp:235-291 | a record that passed the compiler's checks loads exactly when every attribute's binding is below the attribute count |
| TechniqueCache.CompiledBlobLoads | Source/GfxTechnique.cpp:86-895 | a compiled blob loads exactly when its attribute bindings are in range |
| TechniqueCache.CheckedFileLoads | Source/GfxTechnique.cpp:903-1244 | a file that reads back as checked contents loads exactly when its attribute bindings are in range |
| TechniqueCache.LoneAttributeOverruns | Source/GfxTechnique.cpp:1062-1083 | one attribute on binding 1 passes every compiler check, yet indexes past the one-element bindings array, so the corrected loader refuses it |
| BlobPath.StripLeading | Source/GfxTechnique.cpp:1270-1277 | the stripped path is a suffix of the path, everything dropped is '.', '/' or '\\', and what is left does not start with one of them |
| BlobPath.Truncated | Source/GfxUtil.h:209-218 | a formatted string keeps at most 1023 characters of its text, and all of it when it fits |
| BlobPath.SkipOffset | Source/GfxTechnique.cpp:1270-1277 | the skip loop stops at the offset where the stripped path starts |
| BlobPath.BlobFilepath | Source/GfxTechnique.cpp:1270-1278 | the loop and the format give the compiled-file path of the source path |
| BlobPath.BlobPathShape | Source/GfxTechnique.cpp:1278 | when it fits, the compiled-file path is "Data/", the stripped path, then ".blob" |
| BlobPath.BlobPathDiffers | Source/GfxTechnique.cpp:1278 | when it fits, the compiled-file path never equals the source path, so writing it cannot clobber the source |
| BlobPath.StripIdempotent | Source/GfxTechnique.cpp:1270-1277 | stripping twice is stripping once |
| BlobPath.LeadingRunIgnored | Source/GfxTechnique.cpp:1270-1278 | paths that differ only in a leading run of '.', '/' and '\\' share one compiled file |
| BlobPath.StripPrefixRun | Source/GfxTechnique.cpp:1270-1277 | stripping skips any leading run of '.', '/' and '\\' in full |
| AssetFiles.ReadFile | Source/GfxUtil.h:467-498 | reading a path succeeds exactly when the file exists, and gives its bytes |
| ModelBlob.TotalsGrow | Source/GfxModel.cpp:31-37 | the running vertex and triangle totals never exceed the totals over all shapes |
| ModelBlob.NextPrefix | Source/GfxModel.cpp:33-37 | one more shape adds its vertex count and its triangle count to the totals |
| ModelBlob.MaterialIndex | Source/GfxModel.cpp:181 | a shape without material ids gets 0xffffffff, otherwise the bits of its first material id |
| ModelBlob.MeshRecords | Source/GfxModel.cpp:175-190 | mesh `i` starts at the vertices and indices of the shapes before it, counts its own vertices and three indices per triangle, and names its shape's material |
| ModelBlob.UpToNul | Source/GfxModel.cpp:141 | a `%s` argument stops at the first NUL byte |
| ModelBlob.UpToTerminator | Source/GfxModel.cpp:141 | a string without NUL is read back whole before its terminator |
| ModelBlob.TexturePath | Source/GfxModel.cpp:141 | a texture path is the material directory followed by the name up to its first NUL, cut to 1023 bytes |
| ModelBlob.AddTexture | Source/GfxModel.cpp:136-152 | one texture name adds at most one path, adds its hash to the table, and keeps every stored index in range |
| ModelBlob.TextureTable | Source/GfxModel.cpp:128-154 | the table knows exactly the hashes of the diffuse names, holds at most one path per name, and every index is -1 or a path |
| ModelBlob.FirstIsNew | Source/GfxModel.cpp:139 | a name's first appearance is the first time its hash is seen |
| ModelBlob.TableStep | Source/GfxModel.cpp:130-153 | the table for one more name is the previous table with that name added |
| ModelBlob.AddKeeps | Source/GfxModel.cpp:139-151 | adding a name never changes a hash already in the table, and only appends paths |
| ModelBlob.AddNew | Source/GfxModel.cpp:139-151 | a new name's hash maps to the next path index when its file exists, and to -1 otherwise, with the path appended only when it exists |
| ModelBlob.FirstDecides | Source/GfxModel.cpp:136-152 | a name's index is decided at its first appearance: non-negative exactly when its file exists, and then it indexes that name's path |
| ModelBlob.FirstAppearanceOrder | Source/GfxModel.cpp:142-146 | existing textures are numbered in order of first appearance |
| ModelBlob.PathsOwned | Source/GfxModel.cpp:142-146 | every stored path is the path of the first appearance of some name, whose hash maps to it |
| ModelBlob.AllVertices | Source/GfxModel.cpp:47-123 | the vertex arrays hold exactly the total vertex count |
| ModelBlob.AllIndices | Source/GfxModel.cpp:115-120 | the index array holds three indices per triangle |
| ModelBlob.ContentsOf | Source/GfxModel.cpp:10-303 | the stored model holds the mesh records, the vertices of all shapes in order, and their indices in order |
| ModelBlob.CreateModelBlob | Source/GfxModel.cpp:10-303 | the blob is empty when the OBJ does not parse and otherwise the encoding of the stored model; `ModelBlob.BlobSizeIsWritten` and `GfxModel.BlobLoads` state its size and that it reads back |
| ModelBlob.BlobSize | Source/GfxModel.cpp:156-168 | the `m_Size` formula, section by section; `ModelBlob.BlobSizeIsWritten` states that the writes fill exactly that many bytes |
| ModelBlob.PartsSize | Source/GfxModel.cpp:156-170 | the written size is the sum of the sizes of its sections |
| ModelBlob.PathFieldsSize | Source/GfxModel.cpp:148 | the paths take eight bytes plus their length plus one each |
| ModelBlob.VertexFieldsSize | Source/GfxModel.cpp:166-168 | positions take eight bytes, texture coordinates four and normals four per vertex |
| ModelBlob.PartSizes | Source/GfxModel.cpp:156-170 | each section takes the bytes the size formula gives it |
| ModelBlob.EncodedSizeIsWritten | Source/GfxModel.cpp:156-296 | writing the model into a stream of the computed size ends exactly at the end of the stream |
| ModelBlob.FieldsSize | Source/GfxModel.cpp:156-170 | the fields written add up to the computed size |
| ModelBlob.BlobSizeIsWritten | Source/GfxModel.cpp:156-296 | the blob is exactly `m_Size` bytes long and the writes fill it exactly, so the end-of-stream assertion holds |
| ModelBlob.ChecksumLeads | Source/GfxModel.cpp:173 | the blob starts with the checksum of the OBJ text |
| ModelBlob.ShapeVerticesAt | Source/GfxModel.cpp:47-123 | shape `i`'s vertices sit in the vertex arrays at the total of the shapes before it |
| ModelBlob.ShapeIndicesAt | Source/GfxModel.cpp:115-120 | shape `i`'s indices sit in the index array at three times the triangles before it |
| ModelBlob.MeshLocatesShape | Source/GfxModel.cpp:175-190 | mesh `i`'s offsets and counts pick out exactly shape `i`'s vertices and indices |
| GfxModel.VertexLayoutAsWritten | Source/GfxModel.cpp:347-362 | as written, the vertex buffer size is sixteen bytes per vertex taken modulo 2^32, because `vertex_buffer_size` is a `uint32_t` |
| GfxModel.VertexLayout | Source/GfxModel.cpp:347-362 | the vertex buffer holds sixteen bytes per vertex, positions start it and the four bytes of normals end it |
| GfxModel.LayoutsAgree | Source/GfxModel.cpp:347-362 | while the buffer size fits in 32 bits, the layout as written is the corrected one |
| GfxModel.Assemble | Source/GfxModel.cpp:364-383 | the buffers are taken exactly when the vertex and index bytes fill the rest of the blob, and have the sizes the mesh counts give |
| GfxModel.ReadBoundsFrom | Source/GfxModel.cpp:342-345 | the bounding box and scale read back as written |
| GfxModel.BlocksRead | Source/GfxModel.cpp:335-340 | the path blocks written read back as the terminated paths |
| GfxModel.IdsRead | Source/GfxModel.cpp:329-333 | the texture indices written read back unchanged |
| GfxModel.TexturesStep | Source/GfxModel.cpp:335-340 | the texture section is a count followed by that many blocks |
| GfxModel.MaterialsStep | Source/GfxModel.cpp:329-333 | the material section is a count followed by that many indices |
| GfxModel.ReadHeader | Source/GfxModel.cpp:310-345 | the checksum, the mesh records, the materials, the texture paths, the bounds and the scale read in that order; `GfxModel.ReadHeaderFrom` states what it returns for a written header |
| GfxModel.HeaderStep | Source/GfxModel.cpp:310-327 | the header is the checksum, a mesh count and five words per mesh |
| GfxModel.ReadTexturesFrom | Source/GfxModel.cpp:335-345 | the textures written read back as their paths, followed by the bounds |
| GfxModel.ReadMaterialsFrom | Source/GfxModel.cpp:329-345 | the materials written read back as their indices, followed by the textures and bounds |
| GfxModel.MeshFieldAt | Source/GfxModel.cpp:319-323 | word `j` of mesh `i` is its material index, vertex offset, vertex count, index offset or index count, in that order |
| GfxModel.MeshRead | Source/GfxModel.cpp:317-327 | mesh `i` reads back as written |
| GfxModel.MeshesRead | Source/GfxModel.cpp:317-327 | the mesh records read back as written |
| GfxModel.TextureKindsOf | Source/GfxModel.cpp:335-345 | the textures section has the shape the reader expects |
| GfxModel.MaterialKindsOf | Source/GfxModel.cpp:329-345 | the materials section has the shape the reader expects |
| GfxModel.FrontKindsOf | Source/GfxModel.cpp:310-345 | the header written has the shape the reader expects |
| GfxModel.HeaderRuns | Source/GfxModel.cpp:310-345 | the header splits into its head, its meshes and the rest where the reader expects |
| GfxModel.ReadHeaderFrom | Source/GfxModel.cpp:310-345 | a well-shaped header reads back as the meshes, materials, paths, bounds and scale written |
| GfxModel.BlobSplit | Source/GfxModel.cpp:156-296 | the blob is the header, then sixteen bytes per vertex, then four bytes per index |
| GfxModel.FrontRead | Source/GfxModel.cpp:310-345 | the header of an encoded model reads with the expected shape |
| GfxModel.PathsReadBack | Source/GfxModel.cpp:338 | texture paths read back unchanged |
| GfxModel.HeaderReadsBack | Source/GfxModel.cpp:310-345 | the header of an encoded model reads back as written |
| GfxModel.BuffersReadBack | Source/GfxModel.cpp:364-379 | after the header come exactly the vertex data and the index data |
| GfxModel.CreateFromHeader | Source/GfxModel.cpp:306-383 | creating a model is reading its header and then taking the buffers the header's counts call for |
| GfxModel.CreateModel | Source/GfxModel.cpp:306-383 | the corrected reader: the header, then the buffers laid out at sixteen bytes per vertex without wrapping; `GfxModel.ReadsBack` states that a stored model reads back |
| GfxModel.CreateModelAsWritten | Source/GfxModel.cpp:306-383 | the reader as written, with the `uint32_t` vertex-buffer size; `GfxModel.AsWrittenRejectsLarge` and `GfxModel.AsWrittenAgrees` state where it differs from the corrected one |
| GfxModel.AssembleBack | Source/GfxModel.cpp:364-383 | buffers written after a header are taken back whole |
| GfxModel.ReadsBack | Source/GfxModel.cpp:306-383 | a consistent stored model reads back as the model it describes |
| GfxModel.SumsMatch | Source/GfxModel.cpp:325-326 | the per-mesh sums of vertex and index counts equal the totals over the shapes |
| GfxModel.ContentsConsistent | Source/GfxModel.cpp:10-303 | what the blob writer stores is always consistent |
| GfxModel.BlobLoads | Source/GfxModel.cpp:10-383 | the blob written for an OBJ loads back as the model of its contents |
| GfxModel.LayoutWrapsAt | Source/GfxModel.cpp:347-362 | with 2^28 vertices the vertex buffer size wraps to 0 as written, where the intended size is 2^32 |
| GfxModel.AsWrittenRejectsLarge | Source/GfxModel.cpp:347-381 | as written, a stored model with 16 bytes per vertex reaching 2^32 fails to load, though the corrected reader loads it |
| GfxModel.AsWrittenAgrees | Source/GfxModel.cpp:347-381 | below that size the reader as written and the corrected one agree |
| ModelApi.MeshCount | Source/GfxModel.cpp:470-473 | the number of mesh records; `ModelApi.LoadedRecords` states that it is one per OBJ shape |
| ModelApi.MaterialIndexOf | Source/GfxModel.cpp:474-477 | the stored material index of a mesh record; `ModelApi.LoadedRecords` states where it comes from |
| ModelApi.DiffuseTexture | Source/GfxModel.cpp:478-482 | index -1 gives NULL, and any other index gives one of the model's texture entries |
| ModelApi.DrawModel | Source/GfxModel.cpp:504-507 | the `uint32_t` vertex offset passed as the `int32_t` parameter is the same 32-bit pattern, and it is non-negative exactly when the offset is below 2^31 |
| ModelApi.BindVertexBuffer | Source/GfxModel.cpp:496-499 | the model's vertex buffer at the attribute's offset; `ModelApi.BindingsSelectAttributes` states which section that is |
| ModelApi.BindIndexBuffer | Source/GfxModel.cpp:500-503 | the model's index buffer from offset 0 with a four-byte stride |
| ModelApi.BindingsSelectAttributes | Source/GfxModel.cpp:496-503 | binding an attribute's vertex buffer selects exactly that attribute's data, and the index buffer binds from offset 0 with four-byte indices |
| ModelApi.AttributeSections | Source/GfxModel.cpp:347-362 | positions start at 0, texture coordinates at eight bytes per vertex and normals at twelve, each covering its own data |
| ModelApi.DrawSelectsShape | Source/GfxModel.cpp:504-507 | drawing mesh `i` draws exactly shape `i`'s vertices and indices, with the instance count given |
| ModelApi.DrawLocates | Source/GfxModel.cpp:504-507 | a draw over mesh records laid out from the shapes draws shape `i` |
| ModelApi.FirstSameHash | Source/GfxModel.cpp:136-146 | a name's index is decided by the first name with the same hash |
| ModelApi.SearchFrom | Source/GfxModel.cpp:136-146 | the search finds the first name with the same hash |
| ModelApi.LoadedDiffuseTexture | Source/GfxModel.cpp:478-482 | material `k`'s diffuse texture is the texture loaded from the path of the first name with its hash when that file exists, and NULL otherwise |
| ModelApi.LoadedOwnTexture | Source/GfxModel.cpp:478-482 | without hash collisions, material `k`'s diffuse texture is the one loaded from its own name's path, or NULL when that file does not exist |
| ModelApi.LoadedRecords | Source/GfxModel.cpp:470-477 | there is one mesh per shape and one material per diffuse name, and mesh `i`'s material index is its shape's first material id or 0xffffffff |
| ModelApi.LoadModel | Source/GfxModel.cpp:395-468 | loading gives NULL when neither file reads, fails when the OBJ must be compiled and does not parse, writes files only when it regenerates, a regenerated load writes the encoded contents to the compiled-file path and gives their model, and otherwise loads the current compiled file |
| ModelApi.Outcome | Source/GfxModel.cpp:455-468 | a model that reads back is loaded and one that does not is unreadable |
| ModelApi.ReloadUsesBlob | Source/GfxModel.cpp:395-468 | loading the same path a second time gives the same model and writes nothing more |
| Staging.FreeRunMeansClear | Source/Gfx.cpp:22 | the corrected test accepts a range exactly when no byte of it lies between the tail and the head |
| Staging.StraightCheckSound | Source/Gfx.cpp:18-26 | when the piece does not wrap, the literal distance test already keeps it clear of every byte in use |
| Frames.EndFrames | Source/Gfx.cpp:712-743 | any number of frames keeps the ring valid and its size |
| Mipmap.LevelSize | Source/Gfx.cpp:237-238 | every level below the first is at least one texel wide |
| Mipmap.StepsAt | Source/Gfx.cpp:226-260 | the schedule's steps for level `k` are that level's barrier, blit and release, in that order |
| Mipmap.StepsRelease | Source/Gfx.cpp:226-260 | from a level on, the schedule releases each later level below the count exactly once |
| DeferredQueue.Pending | Source/Gfx.cpp:697-708 | one pending command per queued entry |
| DeferredQueue.QueueAll | Source/Gfx.cpp:51-58 | queueing a list of commands keeps the queue valid and holds exactly their payload bytes |
| Recorder.CreatedIsBindable | Source/Gfx.cpp:1102-1112 | every slot of a created technique is below its binding count, so the per-slot arrays sized by `BeginTechnique` hold it |
| Recorder.Run | Source/Gfx.cpp:1102-1335 | a run of recorder calls that does not fault leaves a valid recorder |
| Recorder.StepKeepsBinds | Source/Gfx.cpp:1297-1335 | one recorder call keeps every descriptor-set bind immediately followed by the draw or dispatch it was flushed for |
| RenderSetupList.WalkFromVisitsRest | Source/Gfx.cpp:1065-1097 | walking the list from node `i` visits the rest of the list in order |
| RenderSetupList.UnlinkedKeys | Source/Gfx.cpp:1086-1096 | unlinking keeps only the other nodes |
| TechniqueFile.ReadHead | Source/GfxTechnique.cpp:907-910 | the head written reads back as the checksum and the record |
| TechniqueFile.ReadCode | Source/GfxTechnique.cpp:965-969 | the code blocks written read back as the same blocks and end the stream |
| TechniqueFile.LaidOut | Source/GfxTechnique.cpp:727-739 | the file is the head followed by the code blocks, filling it exactly |
| GfxStream.ReadWordAt | Source/GfxUtil.h:314-341 | a word read where its little-endian bytes were written gives the word back |
| GfxStream.ReadScalarAt | Source/GfxUtil.h:314-361 | a fixed-width value read where it was written gives it back and advances by its width |
| GfxStream.ReadBlockAt | Source/GfxUtil.h:303-313 | a block read where it was written gives its bytes back and advances past its length and bytes |

## Left out

- Vulkan and VMA calls are not modelled: command recording, object creation, submission, presentation, fences, semaphores and descriptor pools. They are foreign API calls. The recorder keeps only the state these calls depend on, and a handle Vulkan or VMA returns is an input.
- Device, instance and swapchain creation (`GfxCreateDevice`, `CreateSwapchain` beyond its frame indices and present-layout transitions) are Vulkan object setup.
- `CompileShader` is not modelled. It writes temporary files, runs glslangValidator and scrapes its output, which is process I/O, so it is the `Compiler` parameter. The GLSL text it is given is kept as declaration records plus the main text, not as formatted characters.
- The json.h parser, tinyobjloader and stb_image are external libraries. The first two are parameters. Texture decoding is covered by the `Loader` parameter.
- `GfxLoadTexture` beyond its blob path is not modelled: image decoding, mip generation and the texture blob format. This is the image library's work and the Vulkan upload's.
- File I/O is reduced to a map from path to bytes. A `WriteFile` always succeeds; a failing write, `mkdir` and `Print` are not modelled.
- The `getchar` retry loop of `GfxLoadTechnique` waits on console input. The model stops where that loop would start, with the `AwaitingEdit` outcome of `TechniqueCache.LoadNew`.
- `String::AppendFormat` and the `vsnprintf` constructor are a formatting library. Only the 1023-character truncation of blob paths is modelled.
- Floating point is left out:
  - `MipCount` (Source/GfxUtil.h:454-457) uses `log`, so the mip count is an input;
  - position quantisation, normal encoding, texcoord flip, half packing and the bounding box of `CreateModelBlob` are not modelled; vertex data is kept as opaque bytes;
  - depth bias, line width and other float fields of technique files are kept as the bit pattern of `(float)atof`, without arithmetic.
- The enum tables of Source/GfxConversion.h:380-462 are simple `switch` statements over sampler and image-view enumerations with no consumer in the modelled core: `ToVkImageType`, `ToVkImageViewType`, `ToVkFilter`, `ToVkSamplerMipmapMode`, `ToVkSamplerAddressMode`, the enum `ToVkCompareOp` and `ToVkBorderColor`.
- `GfxDestroyModel` and `GfxDestroyTechnique` only free memory and Vulkan objects. Only the render-setup unlink that destruction performs is modelled.
- Hash collisions are not resolved. Two paths or names with the same `GfxHash` are the same key, as in the code; no lemma assumes the hash is injective.
- The texture dedup table of `CreateModelBlob` is a 256-slot `HashTable`. It is modelled as a map with no capacity. So the model does not show the endless probe that the code would hit with more than 256 distinct diffuse texture names.
- Reads past the end of a blob are not possible in the model. The code's `ReadStream` does not check bounds, and `CreateModel` reads the leading checksum without a size check; a short or truncated blob is modelled as a failed read (`None`).
- Generated shader "outputs" entries have no length check in the code. The model keeps any number of them, numbered by position.
- Staging.Allocate: the corrected allocator promises only what the literal distance test gives. It does not claim that the bytes of the oldest frame still in flight are protected, because the tail it consults marks the end of that frame, not its start.
- Conversion.FormatParsersAgree: states that each recognised name maps to some enumerator with the same Vulkan format. It does not prove the 61 names pairwise distinct.
- ModelApi.DrawSelectsShape: requires the model's vertex total to be below 2^31. `GfxCmdDrawIndexed` takes the vertex offset as a signed 32-bit value, and the model does not describe the wrapped offset beyond that.
- ModelApi.ReloadUsesBlob: requires the path plus "Data/" and ".blob" to fit the 1023-character formatting buffer. Beyond that, the truncated blob path may name another file.
- TechniqueCache.LoadedIsCurrent: has the same 1023-character requirement on the path.
- GfxArray.Grow: the count is a `nat`, so the `uint32_t` sum `m_Count += count` (Source/GfxUtil.h:108) never wraps in the model.
- GfxArray.Push: the capacity is a `nat`, so doubling `m_Capacity` (Source/GfxUtil.h:116-118) never wraps past 2^32 in the model.
- ModelBlob.Fits: an OBJ value must have fewer than 2^32 shapes, a vertex total below 2^32 and three times its triangle total below 2^32. The code keeps these totals in `uint32_t` (Source/GfxModel.cpp:31-36) and wraps them for larger files; the model does not describe the blob it would then write.
- TechniqueBlob.ImageRoundTrip: the image is the record's fields back to back, with no alignment padding and each `bool` as a four-byte word, 616 bytes for a graphics record and 200 for a compute one. With natural alignment the C++ structures are 672 and 264 bytes. The round trip holds for the model's layout; the byte offsets of the compiled structure are not claimed.
- Device.ParamsOf: `CmdUploadBufferParams` and `CmdUploadImageParams` take 44 bytes in the model, without the padding that makes them 48 in C++. Only the read-back of the fields is claimed.
- Frames.AllocateUpload: allocates with the corrected `Staging.Allocate`, not `Staging.AllocateAsWritten`, so it refuses the wrapped and overflowing blocks of the first finding that the code would hand out.
- Device.CreateBuffer: stages its data with the corrected `Staging.Allocate`, for the same reason.
- Device.CreateTexture: stages its data with the corrected `Staging.Allocate`, for the same reason.
- Device.AllocateUploadBuffer: allocates with the corrected `Staging.Allocate`, for the same reason.
- Recorder.AllocUploadBuffer: allocates with the corrected `Staging.Allocate`, for the same reason; its lookup is the one as written.
- ModelApi.LoadModel: reads the blob with the corrected `GfxModel.CreateModel`, so a model of 2^28 or more vertices loads, where the code as written computes a wrapped buffer size and fails its end-of-stream assertion (`GfxModel.AsWrittenRejectsLarge`).
- TechniqueCache.LoadNew: where `GfxCreateTechnique` would read past the end of a blob, write past `vertex_bindings` for a binding index at or above the attribute count (Source/GfxTechnique.cpp:1062-1083), or write past `m_ShaderBindings` for more than 16 bindings (Source/GfxTechnique.cpp:934-946), the model reports `Unloadable` instead of describing the memory the code would overwrite. `TechniqueCache.ReloadSlot` does the same for a rebuild.
- The transition defaults of Include/Gfx.h:251 and 317-318 are constants in `Gfx` (`DEFAULT_BUFFER_RANGE`, `DEFAULT_TEXTURE_RANGE`). They carry no lemma, because no modelled operation consumes them beyond copying.

## Findings

| source | as written | input that shows it | evidently intended | confidence | as-written member | corrected member |
|---|---|---|---|---|---|---|
| Source/Gfx.cpp:18-22 | after wrapping to offset 0, the only test is that the distance from the tail does not shrink; `offset + size` is computed in 64 bits | head 0x1800_0000, tail 0x0800_0000, size 0x1900_0000: the block at 0 passes and covers the byte at the tail. Separately, head 1, tail 1, size 2^64-256 wraps `offset + size` to 0 and passes | refuse a block that reaches the tail or whose end overflows | not executed | Staging.AllocateAsWritten, Staging.WrapOverlapExample, Staging.OverflowExample | Staging.Allocate |
| Source/GfxTechnique.cpp:700-712 | `fs_main.Length()` is measured on a `String` that was never appended to, whose data pointer is NULL | a technique with only "vertex_shader" (include "" and a main) | a vertex-only technique compiles with an empty fragment block | not executed | TechniqueCompiler.CompileAsWritten, TechniqueCompiler.VertexOnlyDereferencesNull | TechniqueCompiler.Compile, TechniqueCompiler.CreatedBlobReadsBack |
| Source/GfxTechnique.cpp:1062-1083 | `vertex_bindings` is sized by the attribute count, but it is indexed by binding number | one attribute on binding 1: the compiler accepts it, and the loader writes `vertex_bindings[1]` of a one-element array | refuse a binding index at or above the array size | not executed | Technique.VertexInputAsWritten, TechniqueCache.LoneAttributeOverruns | Technique.VertexInputOf, TechniqueCache.CompiledBlobLoads |
| Source/GfxUtil.h:182-188 | `Find` probes until it meets the hash or an empty slot | a technique with 16 distinct shader bindings fills its 16-slot table, so `GfxCmdSet*` of an undeclared name never returns | an undeclared name fails the `ASSERT` | not executed | Recorder.ResolveAsWritten, Recorder.SixteenBindingsHang, Recorder.SetBuffer | Recorder.Resolve |
| Source/GfxModel.cpp:347-362 | `vertex_buffer_size` is a `uint32_t`, 16 bytes per vertex | 2^28 vertices: the computed size wraps to 0, so the stored buffer of 2^32 bytes fails to load | the buffer size is 16 bytes per vertex without wrapping | not executed | GfxModel.CreateModelAsWritten, GfxModel.LayoutWrapsAt, GfxModel.AsWrittenRejectsLarge | GfxModel.CreateModel, GfxModel.ReadsBack |
| Source/GfxTechnique.cpp:1265 | `m_TechniqueEntries.Find(hash)` probes the 1024-slot cache (Source/GfxInternal.h:112) until it meets the hash or an empty slot | a device that has loaded 1024 techniques from paths with distinct hashes, asked for a 1025th new path: no slot stops the probe, so `GfxLoadTechnique` never returns | refuse or report a new path once the cache is full | not executed | TechniqueCache.LoadTechnique, TechniqueCache.FullCacheHangs, TechniqueCache.LoadNewTakesSlot | TechniqueCache.LoadTechniqueChecked |
