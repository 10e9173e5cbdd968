/**
 * The device's technique cache (Source/GfxTechnique.cpp): `GfxLoadTechnique`
 * keys techniques by the hash of their JSON path, decides whether the
 * compiled file next to it is still current, compiles when it is not, and
 * remembers the checksum it loaded; `GfxReloadAllTechniques` rebuilds, in
 * place, every cached technique whose JSON text changed.
 *
 * Files are a map from path to bytes and a technique handle is its index in
 * the device's list of technique objects. `CreateTechniqueBlob` is a
 * parameter (`make`), required to keep its promise (`Faithful`); the
 * compiler's own `CreateTechniqueBlob`, for any JSON parser and shader
 * compiler, keeps it (`CompilerIsFaithful`).
 */
module TechniqueCache {
  import opened Machine
  import opened Wrappers
  import Vk
  import Hashing
  import GfxStream
  import Json
  import GfxString
  import HT = GfxHashTable
  import TB = TechniqueBlob
  import TF = TechniqueFile
  import TC = TechniqueCompiler
  import T = Technique
  import BlobPath
  import opened AssetFiles

  /** `m_TechniqueEntries` is constructed with 1024 slots. */
  const CACHE_CAPACITY: nat := 1024

  /** `GfxDevice_T::TechniqueEntry`: the technique, the JSON path it came from and the checksum it was built from. */
  datatype Entry = Entry(technique: nat, filepath: GfxString.CText, checksum: U64)

  type Parser = seq<Byte> -> Option<Json.Value>

  /** `CreateTechniqueBlob` of a JSON text: the compiled file, or nothing. */
  type BlobMaker = seq<Byte> -> seq<Byte>

  /** A compiled file, when there is one, reads back and starts with the hash of the JSON text. */
  ghost predicate Faithful(make: BlobMaker) {
    forall text :: |make(text)| > 0 ==> TF.Deserialise(make(text)).Some? && GfxStream.LeadingChecksum(make(text)) == Some(Hashing.Hash(text))
  }

  /** The compiler's blob maker for a parser and a shader compiler. */
  function MakerOf(parse: Parser, compile: TC.Compiler): BlobMaker {
    text => TC.CreateTechniqueBlob(text, parse(text), compile)
  }

  /** The compiler keeps the promise the cache relies on. */
  lemma CompilerIsFaithful(parse: Parser, compile: TC.Compiler)
    ensures Faithful(MakerOf(parse, compile))
  {
    forall text | |MakerOf(parse, compile)(text)| > 0
      ensures TF.Deserialise(MakerOf(parse, compile)(text)).Some?
      ensures GfxStream.LeadingChecksum(MakerOf(parse, compile)(text)) == Some(Hashing.Hash(text))
    {
      TC.CreatedBlobReadsBack(text, parse(text), compile);
    }
  }

  /** The state the cache functions touch: the cache, the technique objects and the files. */
  datatype Device = Device(cache: HT.HashTable<Entry>, objects: seq<T.TechniqueState>, files: Files)
  {
    /** Every cached entry names an existing technique, and every technique has its binding table. */
    predicate Valid() {
      cache.Valid() && cache.Capacity() == CACHE_CAPACITY
      && (forall j :: 0 <= j < |cache.hashes| && cache.hashes[j] != HT.EMPTY ==> cache.entries[j].technique < |objects|)
      && (forall k :: 0 <= k < |objects| ==> objects[k].Valid())
    }
  }

  /** What `GfxLoadTechnique` returns, and why it returns NULL. */
  datatype Load =
    | Loaded(handle: nat)
    /** Neither the JSON nor the compiled file could be read. */
    | Missing
    /** The JSON does not compile: the source waits for a key press and re-reads it. */
    | AwaitingEdit
    /**
     * The file to load from is not one `GfxCreateTechnique` can build. An
     * empty file or trailing bytes fail its assertions; a read past the end,
     * or a record whose counts or attribute bindings exceed its fixed arrays,
     * makes it read or write out of bounds. The model reports all of these
     * here instead of following the overrun.
     */
    | Unloadable
    /** The cache has no empty slot and not the path's hash: `HashTable` probes forever. */
    | EndlessProbe
    /** The corrected load refuses a new path when the cache has no empty slot. */
    | CacheFull

  /** The bytes the technique is created from: a fresh compile of the JSON, or the compiled file as it is. */
  function SourceBlob(json: Option<seq<Byte>>, blob: Option<seq<Byte>>, make: BlobMaker): (data: seq<Byte>)
    requires json.Some? || blob.Some?
    ensures NeedsNewBlob(json, blob) ==> data == make(json.value)
    ensures !NeedsNewBlob(json, blob) ==> blob.Some? && data == blob.value
  {
    if NeedsNewBlob(json, blob) then make(json.value) else blob.value
  }

  /**
   * `GfxLoadTechnique` for a path whose hash is not cached yet. The final
   * `Put` probes the cache too, so with no empty slot left a technique that
   * was built is never cached: the call does not return.
   */
  function LoadNew(d: Device, path: GfxString.CText, make: BlobMaker, swapchainFormat: U32): (r: (Device, Load))
    requires d.Valid()
    ensures var json := ReadFile(d.files, path);
            var blob := ReadFile(d.files, BlobPath.BlobPathOf(path));
            (r.1 == Missing <==> json.None? && blob.None?)
            && (r.1 == AwaitingEdit <==> NeedsNewBlob(json, blob) && |make(json.value)| == 0)
            && (r.1.Loaded? || r.1 == EndlessProbe <==>
                  (json.Some? || blob.Some?) && !(NeedsNewBlob(json, blob) && |make(json.value)| == 0)
                  && T.CreateTechnique(SourceBlob(json, blob, make), None, swapchainFormat).Some?)
    ensures HT.CanProbe(d.cache, Hashing.NameHash(path)) ==> r.1 != EndlessProbe
    ensures !HT.CanProbe(d.cache, Hashing.NameHash(path)) ==> !r.1.Loaded?
    ensures r.1 != CacheFull
    ensures !r.1.Loaded? ==> r.0.cache == d.cache && r.0.objects == d.objects
    ensures r.1.Loaded? ==>
              var json := ReadFile(d.files, path);
              var blob := ReadFile(d.files, BlobPath.BlobPathOf(path));
              var data := SourceBlob(json, blob, make);
              r.0.Valid() && r.1.handle == |d.objects|
              && r.0.objects == d.objects + [T.CreateTechnique(data, None, swapchainFormat).value]
              && r.0.files == (if NeedsNewBlob(json, blob) then d.files[BlobPath.BlobPathOf(path) := data] else d.files)
  {
    var blobPath := BlobPath.BlobPathOf(path);
    var json := ReadFile(d.files, path);
    var blob := ReadFile(d.files, blobPath);
    if json.None? && blob.None? then (d, Missing)
    else
      var regenerate := NeedsNewBlob(json, blob);
      var data := SourceBlob(json, blob, make);
      if regenerate && |data| == 0 then (d, AwaitingEdit)
      else
        var files := if regenerate then d.files[blobPath := data] else d.files;
        match T.CreateTechnique(data, None, swapchainFormat)
        case None => (d.(files := files), Unloadable)
        case Some(tech) =>
          if !HT.CanProbe(d.cache, Hashing.NameHash(path)) then (d.(files := files), EndlessProbe)
          else
          TF.ReadChecksumLeads(data);
          var handle := |d.objects|;
          var entry := Entry(handle, path, GfxStream.LeadingChecksum(data).value);
          var cache := HT.Put(d.cache, Hashing.NameHash(path), entry);
          PutKeepsValid(d, Hashing.NameHash(path), entry, tech, cache);
          (Device(cache, d.objects + [tech], files), Loaded(handle))
  }

  /**
   * `GfxLoadTechnique`: the cached technique when the path's hash is known,
   * otherwise a new load. The lookup is `HashTable::Find` as written, which
   * never returns on a cache with no empty slot and not the path's hash.
   */
  function LoadTechnique(d: Device, path: GfxString.CText, make: BlobMaker, swapchainFormat: U32): (r: (Device, Load))
    requires d.Valid()
    ensures !HT.CanProbe(d.cache, Hashing.NameHash(path)) ==> r == (d, EndlessProbe)
    ensures HT.CanProbe(d.cache, Hashing.NameHash(path)) && HT.Find(d.cache, Hashing.NameHash(path)).Some? ==>
              r == (d, Loaded(HT.Find(d.cache, Hashing.NameHash(path)).value.technique))
    ensures HT.CanProbe(d.cache, Hashing.NameHash(path)) && HT.Find(d.cache, Hashing.NameHash(path)).None? ==>
              r == LoadNew(d, path, make, swapchainFormat)
  {
    if !HT.CanProbe(d.cache, Hashing.NameHash(path)) then (d, EndlessProbe)
    else
      match HT.Find(d.cache, Hashing.NameHash(path))
      case Some(entry) => (d, Loaded(entry.technique))
      case None => LoadNew(d, path, make, swapchainFormat)
  }

  /**
   * Once every one of the 1024 slots holds another path's hash, loading a
   * new path never returns: `Find` probes all the way round the table.
   */
  lemma FullCacheHangs(d: Device, path: GfxString.CText, make: BlobMaker, swapchainFormat: U32)
    requires d.Valid() && HT.EmptySlots(d.cache) == 0
    requires forall j :: 0 <= j < d.cache.Capacity() ==> d.cache.hashes[j] != Hashing.NameHash(path)
    ensures LoadTechnique(d, path, make, swapchainFormat) == (d, EndlessProbe)
  {
    HT.FullTableNeverStops(d.cache, Hashing.NameHash(path));
  }

  /** A load that caches a new path's hash takes one of the cache's empty slots. */
  lemma LoadNewTakesSlot(d: Device, path: GfxString.CText, make: BlobMaker, swapchainFormat: U32)
    requires d.Valid() && LoadNew(d, path, make, swapchainFormat).1.Loaded? && Hashing.NameHash(path) != HT.EMPTY
    requires forall j :: 0 <= j < d.cache.Capacity() ==> d.cache.hashes[j] != Hashing.NameHash(path)
    ensures HT.EmptySlots(LoadNew(d, path, make, swapchainFormat).0.cache) + 1 == HT.EmptySlots(d.cache)
  {
    if HT.EmptySlots(d.cache) == 0 {
      HT.FullTableNeverStops(d.cache, Hashing.NameHash(path));
    }
    var data := SourceBlob(ReadFile(d.files, path), ReadFile(d.files, BlobPath.BlobPathOf(path)), make);
    TF.ReadChecksumLeads(data);
    HT.NewHashTakesSlot(d.cache, Hashing.NameHash(path), Entry(|d.objects|, path, GfxStream.LeadingChecksum(data).value));
  }

  /**
   * `GfxLoadTechnique` as evidently intended: a new path that the cache has
   * no room for is refused instead of probing forever.
   */
  function LoadTechniqueChecked(d: Device, path: GfxString.CText, make: BlobMaker, swapchainFormat: U32): (r: (Device, Load))
    requires d.Valid()
    ensures r.1 != EndlessProbe
    ensures r.1 == CacheFull <==> !HT.CanProbe(d.cache, Hashing.NameHash(path))
    ensures r.1 == CacheFull ==> r.0 == d
    ensures HT.CanProbe(d.cache, Hashing.NameHash(path)) ==> r == LoadTechnique(d, path, make, swapchainFormat)
  {
    if !HT.CanProbe(d.cache, Hashing.NameHash(path)) then (d, CacheFull)
    else LoadTechnique(d, path, make, swapchainFormat)
  }

  /** Caching a new technique under a hash keeps the device valid. */
  lemma PutKeepsValid(d: Device, h: U64, entry: Entry, tech: T.TechniqueState, cache: HT.HashTable<Entry>)
    requires d.Valid() && HT.CanProbe(d.cache, h) && entry.technique == |d.objects| && tech.Valid()
    requires cache == HT.Put(d.cache, h, entry)
    ensures Device(cache, d.objects + [tech], d.files).Valid()
  {
    var i := HT.ProbeIndex(d.cache, h);
    assert forall j :: 0 <= j < CACHE_CAPACITY && j != i ==> cache.hashes[j] == d.cache.hashes[j] && cache.entries[j] == d.cache.entries[j];
  }

  /** A successful load is remembered: loading the same path again returns the same handle and changes nothing. */
  lemma LoadedIsCached(d: Device, path: GfxString.CText, make: BlobMaker, swapchainFormat: U32)
    requires d.Valid() && HT.CanProbe(d.cache, Hashing.NameHash(path)) && Hashing.NameHash(path) != HT.EMPTY
    requires LoadNew(d, path, make, swapchainFormat).1.Loaded?
    ensures var r := LoadNew(d, path, make, swapchainFormat);
            HT.CanProbe(r.0.cache, Hashing.NameHash(path))
            && LoadTechnique(r.0, path, make, swapchainFormat) == r
  {
    var h := Hashing.NameHash(path);
    var r := LoadNew(d, path, make, swapchainFormat);
    var data := SourceBlob(ReadFile(d.files, path), ReadFile(d.files, BlobPath.BlobPathOf(path)), make);
    TF.ReadChecksumLeads(data);
    HT.FindAfterPut(d.cache, h, Entry(|d.objects|, path, GfxStream.LeadingChecksum(data).value));
  }

  /** Loading a new path keeps every technique already cached under another hash. */
  lemma LoadKeepsOthers(d: Device, path: GfxString.CText, other: U64, make: BlobMaker, swapchainFormat: U32)
    requires d.Valid() && HT.CanProbe(d.cache, Hashing.NameHash(path)) && HT.CanProbe(d.cache, other)
    requires other != Hashing.NameHash(path) && HT.Find(d.cache, other).Some?
    ensures var r := LoadNew(d, path, make, swapchainFormat);
            HT.CanProbe(r.0.cache, other) && HT.Find(r.0.cache, other) == HT.Find(d.cache, other)
            && r.0.objects[HT.Find(d.cache, other).value.technique] == d.objects[HT.Find(d.cache, other).value.technique]
  {
    var r := LoadNew(d, path, make, swapchainFormat);
    FoundIsObject(d, other);
    if r.1.Loaded? {
      var data := SourceBlob(ReadFile(d.files, path), ReadFile(d.files, BlobPath.BlobPathOf(path)), make);
      TF.ReadChecksumLeads(data);
      HT.PutKeepsOthers(d.cache, other, Hashing.NameHash(path), Entry(|d.objects|, path, GfxStream.LeadingChecksum(data).value));
    }
  }

  /** A cached entry names an existing technique. */
  lemma FoundIsObject(d: Device, h: U64)
    requires d.Valid() && HT.CanProbe(d.cache, h) && HT.Find(d.cache, h).Some?
    ensures HT.Find(d.cache, h).value.technique < |d.objects|
  {
    var e := HT.Find(d.cache, h).value;
    var j :| 0 <= j < d.cache.Capacity() && d.cache.hashes[j] == h && d.cache.entries[j] == e;
  }

  /**
   * With a faithful compiler, a technique loaded while its JSON was readable
   * is cached with the hash of that JSON text, whether it was compiled anew
   * or read from a compiled file whose checksum already matched.
   */
  lemma LoadedChecksumIsJsonHash(d: Device, path: GfxString.CText, make: BlobMaker, swapchainFormat: U32)
    requires d.Valid() && HT.CanProbe(d.cache, Hashing.NameHash(path)) && Faithful(make)
    requires LoadNew(d, path, make, swapchainFormat).1.Loaded? && path in d.files
    ensures var r := LoadNew(d, path, make, swapchainFormat);
            r.0.cache.entries[HT.ProbeIndex(d.cache, Hashing.NameHash(path))].checksum == Hashing.Hash(d.files[path])
  {
    var json := ReadFile(d.files, path);
    var blob := ReadFile(d.files, BlobPath.BlobPathOf(path));
    var data := SourceBlob(json, blob, make);
    TF.ReadChecksumLeads(data);
  }

  /**
   * The JSON text `GfxReloadAllTechniques` reads for slot `i`: nothing for an
   * empty slot, otherwise the file at the entry's path as `String("%s")`
   * formats it.
   */
  function SlotJson(d: Device, i: nat): (r: Option<seq<Byte>>)
    requires d.Valid() && i < CACHE_CAPACITY
    ensures r.Some? <==> d.cache.hashes[i] != HT.EMPTY && BlobPath.Truncated(d.cache.entries[i].filepath) in d.files
  {
    match HT.Get(d.cache, i)
    case None => None
    case Some(e) => ReadFile(d.files, BlobPath.Truncated(e.filepath))
  }

  /** Slot `i` is left alone by a reload: empty, unreadable, unchanged since it was built, or not compiling. */
  predicate Current(d: Device, i: nat, make: BlobMaker)
    requires d.Valid() && i < CACHE_CAPACITY
  {
    var json := SlotJson(d, i);
    json.None? || Hashing.Hash(json.value) == d.cache.entries[i].checksum || |make(json.value)| == 0
  }

  /** Reloading keeps every slot's hash, handle and path, and the number of techniques: handles stay valid. */
  ghost predicate SameHandles(a: Device, b: Device) {
    a.Valid() && b.Valid() && a.cache.hashes == b.cache.hashes && |a.objects| == |b.objects|
    && forall j :: 0 <= j < CACHE_CAPACITY ==>
         a.cache.entries[j].technique == b.cache.entries[j].technique && a.cache.entries[j].filepath == b.cache.entries[j].filepath
  }

  /**
   * One iteration of `GfxReloadAllTechniques`: a slot that is not current is
   * recompiled, its compiled file rewritten, its technique rebuilt in place
   * and its checksum updated. NULL stands for a new file that
   * `GfxCreateTechnique` cannot build (see `Unloadable`).
   */
  function ReloadSlot(d: Device, i: nat, make: BlobMaker, swapchainFormat: U32): (r: Option<Device>)
    requires d.Valid() && i < CACHE_CAPACITY
    ensures Current(d, i, make) ==> r == Some(d)
    ensures r.Some? ==> SameHandles(d, r.value)
    ensures r.Some? ==> forall j :: 0 <= j < CACHE_CAPACITY && j != i ==> r.value.cache.entries[j] == d.cache.entries[j]
    ensures r.Some? && !Current(d, i, make) ==>
              var e := d.cache.entries[i];
              r.value.cache.entries[i].checksum == Hashing.Hash(SlotJson(d, i).value)
              && r.value.files == d.files[BlobPath.BlobPathOf(e.filepath) := make(SlotJson(d, i).value)]
              && r.value.objects == d.objects[e.technique := r.value.objects[e.technique]]
              && T.CreateTechnique(make(SlotJson(d, i).value), Some(d.objects[e.technique]), swapchainFormat) == Some(r.value.objects[e.technique])
  {
    match SlotJson(d, i)
    case None => Some(d)
    case Some(json) =>
      var e := d.cache.entries[i];
      var data := make(json);
      if Hashing.Hash(json) == e.checksum || |data| == 0 then Some(d)
      else
        var files := d.files[BlobPath.BlobPathOf(e.filepath) := data];
        match T.CreateTechnique(data, Some(d.objects[e.technique]), swapchainFormat)
        case None => None
        case Some(tech) => Some(Rebuilt(d.(files := files), i, Hashing.Hash(json), tech))
  }

  /** Slot `i` after its technique was rebuilt in place from a JSON text of the given checksum. */
  function Rebuilt(d: Device, i: nat, checksum: U64, tech: T.TechniqueState): (r: Device)
    requires d.Valid() && i < CACHE_CAPACITY && d.cache.hashes[i] != HT.EMPTY && tech.Valid()
    ensures SameHandles(d, r) && r.files == d.files
    ensures forall j :: 0 <= j < CACHE_CAPACITY && j != i ==> r.cache.entries[j] == d.cache.entries[j]
    ensures r.cache.entries[i].checksum == checksum
    ensures r.objects == d.objects[d.cache.entries[i].technique := tech]
  {
    var e := d.cache.entries[i];
    var cache := d.cache.(entries := d.cache.entries[i := e.(checksum := checksum)]);
    Device(cache, d.objects[e.technique := tech], d.files)
  }

  /** With a faithful compiler, a reload right after a load leaves the loaded slot alone. */
  lemma LoadedIsCurrent(d: Device, path: GfxString.CText, make: BlobMaker, swapchainFormat: U32)
    requires d.Valid() && HT.CanProbe(d.cache, Hashing.NameHash(path)) && Hashing.NameHash(path) != HT.EMPTY && Faithful(make)
    requires LoadNew(d, path, make, swapchainFormat).1.Loaded? && path in d.files && |path| + 10 <= BlobPath.FORMAT_LIMIT
    ensures Current(LoadNew(d, path, make, swapchainFormat).0, HT.ProbeIndex(d.cache, Hashing.NameHash(path)), make)
  {
    var r := LoadNew(d, path, make, swapchainFormat);
    var i := HT.ProbeIndex(d.cache, Hashing.NameHash(path));
    LoadedChecksumIsJsonHash(d, path, make, swapchainFormat);
    LoadedEntry(d, path, make, swapchainFormat);
    LoadKeepsJson(d, path, make, swapchainFormat);
    assert SlotJson(r.0, i) == Some(d.files[path]);
  }

  /** Loading writes at most the compiled file, which is not the JSON file. */
  lemma LoadKeepsJson(d: Device, path: GfxString.CText, make: BlobMaker, swapchainFormat: U32)
    requires d.Valid() && HT.CanProbe(d.cache, Hashing.NameHash(path))
    requires path in d.files && |path| + 10 <= BlobPath.FORMAT_LIMIT
    ensures var r := LoadNew(d, path, make, swapchainFormat);
            path in r.0.files && r.0.files[path] == d.files[path]
  {
    BlobPath.BlobPathDiffers(path);
  }

  /** The slot a load fills holds the loaded path under its hash. */
  lemma LoadedEntry(d: Device, path: GfxString.CText, make: BlobMaker, swapchainFormat: U32)
    requires d.Valid() && HT.CanProbe(d.cache, Hashing.NameHash(path)) && Hashing.NameHash(path) != HT.EMPTY
    requires LoadNew(d, path, make, swapchainFormat).1.Loaded?
    ensures var r := LoadNew(d, path, make, swapchainFormat);
            var i := HT.ProbeIndex(d.cache, Hashing.NameHash(path));
            r.0.cache.hashes[i] == Hashing.NameHash(path) && r.0.cache.entries[i].filepath == path
  {
    var data := SourceBlob(ReadFile(d.files, path), ReadFile(d.files, BlobPath.BlobPathOf(path)), make);
    TF.ReadChecksumLeads(data);
  }

  /**
   * A technique rebuilt in place by a reload is what a first load of the
   * new file would create: same bind point, binding count, pipeline state
   * and binding lookups.
   */
  lemma ReloadedLikeFresh(d: Device, i: nat, make: BlobMaker, swapchainFormat: U32)
    requires d.Valid() && i < CACHE_CAPACITY && !Current(d, i, make) && ReloadSlot(d, i, make, swapchainFormat).Some?
    ensures var tech := ReloadSlot(d, i, make, swapchainFormat).value.objects[d.cache.entries[i].technique];
            var created := T.CreateTechnique(make(SlotJson(d, i).value), None, swapchainFormat);
            created.Some? && created.value.bindPoint == tech.bindPoint && created.value.bindingCount == tech.bindingCount
            && created.value.graphics == tech.graphics && HT.SameKeys(tech.table, created.value.table)
  {
    T.ReloadIsFresh(make(SlotJson(d, i).value), d.objects[d.cache.entries[i].technique], swapchainFormat);
  }

  /** The loop of `GfxReloadAllTechniques` from slot `i` on; NULL when a rebuild cannot be built. */
  function ReloadFrom(d: Device, i: nat, make: BlobMaker, swapchainFormat: U32): (r: Option<Device>)
    requires d.Valid() && i <= CACHE_CAPACITY
    ensures r.Some? ==> SameHandles(d, r.value)
    decreases CACHE_CAPACITY - i
  {
    if i == CACHE_CAPACITY then Some(d)
    else
      match ReloadSlot(d, i, make, swapchainFormat)
      case None => None
      case Some(next) => ReloadFrom(next, i + 1, make, swapchainFormat)
  }

  /** `GfxReloadAllTechniques`. */
  function ReloadAll(d: Device, make: BlobMaker, swapchainFormat: U32): (r: Option<Device>)
    requires d.Valid()
    ensures r.Some? ==> SameHandles(d, r.value)
  {
    ReloadFrom(d, 0, make, swapchainFormat)
  }

  /**
   * Handles survive a reload: every hash that could be looked up before is
   * found, or not found, exactly as before, with the same technique handle.
   */
  lemma ReloadKeepsHandles(d: Device, make: BlobMaker, swapchainFormat: U32, h: U64)
    requires d.Valid() && HT.CanProbe(d.cache, h) && ReloadAll(d, make, swapchainFormat).Some?
    ensures var r := ReloadAll(d, make, swapchainFormat).value;
            HT.CanProbe(r.cache, h) && HT.Find(r.cache, h).Some? == HT.Find(d.cache, h).Some?
            && (HT.Find(d.cache, h).Some? ==> HT.Find(r.cache, h).value.technique == HT.Find(d.cache, h).value.technique)
  {
    var r := ReloadAll(d, make, swapchainFormat).value;
    HT.SameHashesSameSlot(d.cache, r.cache, h);
  }

  /** No entry's JSON path is any entry's compiled path, so writing compiled files never changes a JSON text. */
  ghost predicate Separate(d: Device)
    requires d.Valid()
  {
    forall i, j :: 0 <= i < CACHE_CAPACITY && 0 <= j < CACHE_CAPACITY && d.cache.hashes[i] != HT.EMPTY && d.cache.hashes[j] != HT.EMPTY ==>
      BlobPath.Truncated(d.cache.entries[i].filepath) != BlobPath.BlobPathOf(d.cache.entries[j].filepath)
  }

  /** Reloading slot `i` makes it current and keeps every other slot that was current. */
  lemma SlotSettles(d: Device, i: nat, make: BlobMaker, swapchainFormat: U32)
    requires d.Valid() && i < CACHE_CAPACITY && Separate(d) && ReloadSlot(d, i, make, swapchainFormat).Some?
    ensures var next := ReloadSlot(d, i, make, swapchainFormat).value;
            Separate(next) && Current(next, i, make)
            && forall j :: 0 <= j < CACHE_CAPACITY && Current(d, j, make) ==> Current(next, j, make)
  {
    var next := ReloadSlot(d, i, make, swapchainFormat).value;
    SeparateKept(d, next);
    if !Current(d, i, make) {
      var json := SlotJson(d, i).value;
      JsonKept(d, next, i, make(json));
      assert SlotJson(next, i) == Some(json);
      forall j | 0 <= j < CACHE_CAPACITY && Current(d, j, make)
        ensures Current(next, j, make)
      {
        assert SlotJson(next, j) == SlotJson(d, j);
        if j != i {
          assert next.cache.entries[j] == d.cache.entries[j];
        }
      }
    }
  }

  /** Keeping every slot's hash and path keeps the JSON and compiled paths apart. */
  lemma SeparateKept(d: Device, next: Device)
    requires SameHandles(d, next) && Separate(d)
    ensures Separate(next)
  {
  }

  /** Writing slot `i`'s compiled file changes no slot's JSON text. */
  lemma JsonKept(d: Device, next: Device, i: nat, data: seq<Byte>)
    requires SameHandles(d, next) && Separate(d) && i < CACHE_CAPACITY && d.cache.hashes[i] != HT.EMPTY
    requires next.files == d.files[BlobPath.BlobPathOf(d.cache.entries[i].filepath) := data]
    ensures forall j :: 0 <= j < CACHE_CAPACITY ==> SlotJson(next, j) == SlotJson(d, j)
  {
    forall j | 0 <= j < CACHE_CAPACITY
      ensures SlotJson(next, j) == SlotJson(d, j)
    {
      if d.cache.hashes[j] != HT.EMPTY {
        assert BlobPath.Truncated(d.cache.entries[j].filepath) != BlobPath.BlobPathOf(d.cache.entries[i].filepath);
      }
    }
  }

  /** From slot `i` on, a reload that succeeds leaves every slot current, given the slots before `i` are. */
  lemma {:induction false} ReloadSettles(d: Device, i: nat, make: BlobMaker, swapchainFormat: U32)
    requires d.Valid() && i <= CACHE_CAPACITY && Separate(d)
    requires forall j :: 0 <= j < i ==> Current(d, j, make)
    requires ReloadFrom(d, i, make, swapchainFormat).Some?
    ensures forall j :: 0 <= j < CACHE_CAPACITY ==> Current(ReloadFrom(d, i, make, swapchainFormat).value, j, make)
    decreases CACHE_CAPACITY - i
  {
    if i < CACHE_CAPACITY {
      var next := ReloadSlot(d, i, make, swapchainFormat).value;
      SlotSettles(d, i, make, swapchainFormat);
      ReloadSettles(next, i + 1, make, swapchainFormat);
    }
  }

  /** A device whose slots from `i` on are all current is left as it is. */
  lemma {:induction false} CurrentIsFixed(d: Device, i: nat, make: BlobMaker, swapchainFormat: U32)
    requires d.Valid() && i <= CACHE_CAPACITY
    requires forall j :: i <= j < CACHE_CAPACITY ==> Current(d, j, make)
    ensures ReloadFrom(d, i, make, swapchainFormat) == Some(d)
    decreases CACHE_CAPACITY - i
  {
    if i < CACHE_CAPACITY {
      CurrentIsFixed(d, i + 1, make, swapchainFormat);
    }
  }

  /** Reloading twice is reloading once: the second pass finds every slot current. */
  lemma ReloadIdempotent(d: Device, make: BlobMaker, swapchainFormat: U32)
    requires d.Valid() && Separate(d) && ReloadAll(d, make, swapchainFormat).Some?
    ensures var r := ReloadAll(d, make, swapchainFormat).value;
            ReloadAll(r, make, swapchainFormat) == Some(r)
  {
    var r := ReloadAll(d, make, swapchainFormat).value;
    ReloadSettles(d, 0, make, swapchainFormat);
    CurrentIsFixed(r, 0, make, swapchainFormat);
  }

  // ---------------------------------------------------------------------
  // What the compiler checks and what the loader needs

  /** The vertex attributes a graphics record counts, or none. */
  function CountedAttributes(blob: TB.Blob): (attrs: seq<TB.VertexAttribute>)
    requires blob.Shaped()
    ensures |attrs| <= TB.MAX_VERTEX_ATTRIBUTES
  {
    if blob.graphics.None? then []
    else
      var g := blob.graphics.value;
      if g.attributeCount as nat <= |g.attributes| then g.attributes[..g.attributeCount] else g.attributes
  }

  /**
   * The compiler's checks give the loader everything it needs except one
   * thing: a record that passed them loads exactly when every counted
   * attribute's binding is below the attribute count.
   */
  lemma CheckedLoadable(blob: TB.Blob)
    requires blob.Shaped() && TC.BlobChecked(blob)
    ensures T.Loadable(blob) <==> T.BindingsInRange(CountedAttributes(blob))
  {
  }

  /** The file `CreateTechniqueBlob` writes loads exactly when its attribute bindings are in range. */
  lemma CompiledBlobLoads(text: seq<Byte>, parsed: Option<Json.Value>, compile: TC.Compiler, previous: Option<T.TechniqueState>, swapchainFormat: U32)
    requires TC.Compile(text, parsed, compile).Some? && (previous.Some? ==> previous.value.Valid())
    ensures var blob := TC.Compile(text, parsed, compile).value.blob;
            T.CreateTechnique(TC.CreateTechniqueBlob(text, parsed, compile), previous, swapchainFormat).Some?
            <==> T.BindingsInRange(CountedAttributes(blob))
  {
    TC.CreatedBlobReadsBack(text, parsed, compile);
    var c := TC.Compile(text, parsed, compile).value;
    CheckedFileLoads(TC.CreateTechniqueBlob(text, parsed, compile), c, previous, swapchainFormat);
  }

  /** A file that reads back as checked contents loads exactly when its attribute bindings are in range. */
  lemma CheckedFileLoads(data: seq<Byte>, c: TF.Contents, previous: Option<T.TechniqueState>, swapchainFormat: U32)
    requires TF.Deserialise(data) == Some(c) && c.blob.Shaped() && TC.BlobChecked(c.blob)
    requires previous.Some? ==> previous.value.Valid()
    ensures T.CreateTechnique(data, previous, swapchainFormat).Some? <==> T.BindingsInRange(CountedAttributes(c.blob))
  {
    CheckedLoadable(c.blob);
  }

  /** One attribute on binding 1: complete, so the compiler keeps it, and past the one-element bindings array. */
  const LONE_ATTRIBUTE: TB.VertexAttribute := TB.VertexAttribute(1, Vk.FORMAT_R8_UNORM, 0, Vk.VERTEX_INPUT_RATE_VERTEX)

  /** A graphics record that passes every check of the compiler, with `LONE_ATTRIBUTE` as its only attribute. */
  const LONE_RECORD: TB.Blob :=
    TB.Blob(Vk.PIPELINE_BIND_POINT_GRAPHICS, 0, TB.DEFAULT_BLOB.bindings,
            Some(TC.GRAPHICS_START.g.(attributeCount := 1, attributes := TC.GRAPHICS_START.g.attributes[0 := LONE_ATTRIBUTE])))

  /**
   * As written, `GfxCreateTechnique` writes `vertex_bindings[1]` of a
   * one-element array for this record; the corrected loader refuses it,
   * and the compiler's checks let it through.
   */
  lemma LoneAttributeOverruns()
    ensures LONE_RECORD.Shaped() && TC.BlobChecked(LONE_RECORD)
    ensures !T.BindingsInRange(CountedAttributes(LONE_RECORD)) && !T.Loadable(LONE_RECORD)
    ensures T.VertexInputOf(CountedAttributes(LONE_RECORD)).None?
  {
    var start: TC.CheckedBuild := TC.GRAPHICS_START;
    assert TC.GraphicsChecked(start.g);
    var g := LONE_RECORD.graphics.value;
    assert g.attributes[..g.attributeCount] == [LONE_ATTRIBUTE];
    assert CountedAttributes(LONE_RECORD) == [LONE_ATTRIBUTE];
    assert [LONE_ATTRIBUTE][0].binding as nat == 1;
  }
}
