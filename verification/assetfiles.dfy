/**
 * The file side shared by `GfxLoadTechnique` and `GfxLoadModel` in
 * Source/Gfx.cpp and Source/GfxModel.cpp: the files on disk, `ReadFile`,
 * and the rule both loaders apply to decide whether the cached blob next
 * to a source file must be rebuilt.
 */
module AssetFiles {
  import opened Machine
  import opened Wrappers
  import Hashing
  import GfxStream

  /** The files on disk, by path. */
  type Files = map<string, seq<Byte>>

  /** `ReadFile`: the file's bytes when it exists. */
  function ReadFile(files: Files, path: string): (r: Option<seq<Byte>>)
    ensures r.Some? <==> path in files
    ensures r.Some? ==> r.value == files[path]
  {
    if path in files then Some(files[path]) else None
  }

  /**
   * A new blob is made exactly when the source file was read and no blob
   * was read whose leading `uint64_t` is the checksum of the source text.
   */
  predicate NeedsNewBlob(source: Option<seq<Byte>>, blob: Option<seq<Byte>>) {
    source.Some? && (blob.None? || GfxStream.LeadingChecksum(blob.value) != Some(Hashing.Hash(source.value)))
  }
}
