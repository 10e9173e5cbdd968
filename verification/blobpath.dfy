/**
 * Where a compiled asset is cached: `GfxLoadTechnique`, `GfxReloadAllTechniques`,
 * `GfxLoadTexture` and `GfxLoadModel` all skip the leading '.', '/' and '\'
 * characters of the source path and format "Data/<rest>.blob" into a String.
 * The String constructor formats into a 1024-character buffer, so the result
 * keeps at most 1023 characters.
 */
module BlobPath {
  import GfxString

  /** `vsnprintf` into `char buffer[1024]` keeps at most this many characters. */
  const FORMAT_LIMIT: nat := 1023

  /** The characters the skip loop steps over. */
  predicate Skipped(c: char) {
    c == '.' || c == '/' || c == '\\'
  }

  /** The path without its leading run of skipped characters. */
  function StripLeading(path: string): (r: string)
    ensures |r| <= |path| && r == path[|path| - |r|..]
    ensures forall i :: 0 <= i < |path| - |r| ==> Skipped(path[i])
    ensures |r| > 0 ==> !Skipped(r[0])
  {
    if |path| > 0 && Skipped(path[0]) then
      var r := StripLeading(path[1..]);
      assert path[1..][|path| - 1 - |r|..] == path[|path| - |r|..];
      r
    else path
  }

  /** The first `FORMAT_LIMIT` characters of a formatted text. */
  function Truncated<T>(s: seq<T>): (r: seq<T>)
    ensures |r| <= FORMAT_LIMIT && |r| <= |s| && r == s[..|r|]
    ensures |s| <= FORMAT_LIMIT ==> r == s
  {
    if |s| <= FORMAT_LIMIT then s else s[..FORMAT_LIMIT]
  }

  /** The blob path a source path maps to. */
  function BlobPathOf(path: GfxString.CText): string {
    Truncated("Data/" + StripLeading(path) + ".blob")
  }

  /** The skip loop: the offset of the first character that is not skipped. */
  method SkipOffset(path: string) returns (offset: nat)
    ensures offset <= |path| && path[offset..] == StripLeading(path)
  {
    offset := 0;
    while offset < |path| && Skipped(path[offset])
      invariant offset <= |path|
      invariant StripLeading(path) == StripLeading(path[offset..])
      decreases |path| - offset
    {
      assert path[offset..][1..] == path[offset + 1..];
      offset := offset + 1;
    }
  }

  /** The skip loop followed by the formatting, as the loaders write it. */
  method BlobFilepath(path: GfxString.CText) returns (r: string)
    ensures r == BlobPathOf(path)
  {
    var offset := SkipOffset(path);
    var full := "Data/" + path[offset..] + ".blob";
    r := if |full| <= FORMAT_LIMIT then full else full[..FORMAT_LIMIT];
  }

  /** A path short enough for the buffer maps to "Data/", its stripped text and ".blob", in that order. */
  lemma BlobPathShape(path: GfxString.CText)
    requires |path| + 10 <= FORMAT_LIMIT
    ensures var r := BlobPathOf(path); |r| >= 10 && r[..5] == "Data/" && r[5..|r| - 5] == StripLeading(path) && r[|r| - 5..] == ".blob"
  {
  }

  /** A path short enough for the buffer is never its own blob path, so writing the blob keeps the source. */
  lemma BlobPathDiffers(path: GfxString.CText)
    requires |path| + 10 <= FORMAT_LIMIT
    ensures BlobPathOf(path) != path
  {
    BlobPathShape(path);
    var r := BlobPathOf(path);
    if StripLeading(path) != path {
      assert |path| > 0 && Skipped(path[0]);
      assert r[0] == 'D';
    }
  }

  /** Stripping twice strips nothing more. */
  lemma StripIdempotent(path: string)
    ensures StripLeading(StripLeading(path)) == StripLeading(path)
  {
  }

  /** Paths that differ only in their leading dots and slashes share a blob: "./x", "/x" and "x" all map to "Data/x.blob". */
  lemma LeadingRunIgnored(prefix: GfxString.CText, path: GfxString.CText)
    requires forall i :: 0 <= i < |prefix| ==> Skipped(prefix[i])
    ensures BlobPathOf(prefix + path) == BlobPathOf(path)
  {
    StripPrefixRun(prefix, path);
  }

  lemma {:induction false} StripPrefixRun(prefix: string, path: string)
    requires forall i :: 0 <= i < |prefix| ==> Skipped(prefix[i])
    ensures StripLeading(prefix + path) == StripLeading(path)
    decreases |prefix|
  {
    if |prefix| > 0 {
      assert (prefix + path)[1..] == prefix[1..] + path;
      StripPrefixRun(prefix[1..], path);
    } else {
      assert prefix + path == path;
    }
  }
}
