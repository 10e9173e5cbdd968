/**
 * HashTable<T> of Source/GfxUtil.h: a fixed-capacity open-addressing table
 * keyed by a 64-bit hash, with linear probing. A slot whose hash is all ones
 * (`~0`) is empty; the constructor and `Clear` fill every hash with 0xff bytes.
 *
 * `Put` and `Find` start at `hash % capacity` and step forward (wrapping)
 * until the slot holds `hash` or is empty. When no such slot exists the C++
 * loops forever; here that situation is excluded by `CanProbe`, and callers
 * that can reach it report it as an error instead.
 */
module GfxHashTable {
  import opened Machine
  import opened Wrappers
  import Arith
  import GfxArray

  /** The marker of an empty slot, `~0`. */
  const EMPTY: U64 := U64_MAX

  datatype HashTable<T> = HashTable(hashes: seq<U64>, entries: seq<T>)
  {
    predicate Valid() {
      |hashes| == |entries| && |hashes| > 0
    }

    function Capacity(): nat {
      |hashes|
    }
  }

  /** A fresh table (constructor) of `capacity` empty slots; entries are uninitialised. */
  function Create<T>(capacity: nat, junk: T): (t: HashTable<T>)
    requires capacity > 0
    ensures t.Valid() && t.Capacity() == capacity
    ensures forall j :: 0 <= j < capacity ==> t.hashes[j] == EMPTY
  {
    HashTable(GfxArray.Fill<U64>(capacity, EMPTY), GfxArray.Fill(capacity, junk))
  }

  /** `Clear()`: every slot empty again, capacity unchanged. */
  function Clear<T>(t: HashTable<T>): (r: HashTable<T>)
    requires t.Valid()
    ensures r.Valid() && r.Capacity() == t.Capacity()
    ensures forall j :: 0 <= j < r.Capacity() ==> r.hashes[j] == EMPTY
  {
    HashTable(GfxArray.Fill<U64>(|t.hashes|, EMPTY), t.entries)
  }

  /** The slot `d` steps after `start`, wrapping at the capacity. */
  function SlotAfter<T>(t: HashTable<T>, start: nat, d: nat): (j: nat)
    requires t.Valid()
    ensures j < t.Capacity()
  {
    (start + d) % |t.hashes|
  }

  /** The probe for `h` stops at slot `j`: it holds `h` or is empty. */
  predicate StopsAt<T>(t: HashTable<T>, h: U64, j: nat)
    requires t.Valid() && j < t.Capacity()
  {
    t.hashes[j] == h || t.hashes[j] == EMPTY
  }

  predicate StopsAfter<T>(t: HashTable<T>, h: U64, start: nat, d: nat)
    requires t.Valid()
  {
    StopsAt(t, h, SlotAfter(t, start, d))
  }

  /** The probe loop for `h` terminates: some slot holds `h` or is empty. */
  predicate CanProbe<T>(t: HashTable<T>, h: U64)
    requires t.Valid()
  {
    exists j :: 0 <= j < t.Capacity() && StopsAt(t, h, j)
  }

  /** The first stopping slot at distance `k` or more from `start`. */
  function ProbeFrom<T>(t: HashTable<T>, h: U64, start: nat, k: nat): (r: nat)
    requires t.Valid() && start < t.Capacity() && k <= t.Capacity()
    requires exists d :: k <= d < t.Capacity() && StopsAfter(t, h, start, d)
    ensures r < t.Capacity() && StopsAt(t, h, r)
    ensures exists d :: k <= d < t.Capacity() && r == SlotAfter(t, start, d) &&
                        forall e :: k <= e < d ==> !StopsAfter(t, h, start, e)
    decreases t.Capacity() - k
  {
    if StopsAfter(t, h, start, k) then SlotAfter(t, start, k)
    else ProbeFrom(t, h, start, k + 1)
  }

  lemma CanProbeFromHome<T>(t: HashTable<T>, h: U64)
    requires t.Valid() && CanProbe(t, h)
    ensures exists d :: 0 <= d < t.Capacity() && StopsAfter(t, h, h % t.Capacity(), d)
  {
    var n := t.Capacity();
    var j :| 0 <= j < n && StopsAt(t, h, j);
    var start := h % n;
    var d := (j - start) % n;
    Arith.WalkTo(start, j, n);
    assert SlotAfter(t, start, d) == j;
    assert StopsAfter(t, h, start, d);
  }

  /** The slot the probe loop of `Put` and `Find` ends on. */
  function ProbeIndex<T>(t: HashTable<T>, h: U64): (i: nat)
    requires t.Valid() && CanProbe(t, h)
    ensures i < t.Capacity() && StopsAt(t, h, i)
  {
    CanProbeFromHome(t, h);
    ProbeFrom(t, h, h % t.Capacity(), 0)
  }

  /** `Put(hash, entry)`: store at the probe's slot, overwriting an entry of the same hash. */
  function Put<T>(t: HashTable<T>, h: U64, e: T): (r: HashTable<T>)
    requires t.Valid() && CanProbe(t, h)
    ensures r.Valid() && r.Capacity() == t.Capacity()
    ensures r.hashes[ProbeIndex(t, h)] == h && r.entries[ProbeIndex(t, h)] == e
    ensures forall j :: 0 <= j < t.Capacity() && j != ProbeIndex(t, h) ==>
              r.hashes[j] == t.hashes[j] && r.entries[j] == t.entries[j]
  {
    var i := ProbeIndex(t, h);
    HashTable(t.hashes[i := h], t.entries[i := e])
  }

  /** `Find(hash)`: the entry of the probe's slot, or NULL when that slot is empty. */
  function Find<T>(t: HashTable<T>, h: U64): (r: Option<T>)
    requires t.Valid() && CanProbe(t, h)
    ensures r.Some? ==> exists j :: 0 <= j < t.Capacity() && t.hashes[j] == h && t.entries[j] == r.value
    ensures h == EMPTY ==> r.None?
  {
    var i := ProbeIndex(t, h);
    if t.hashes[i] != EMPTY then Some(t.entries[i]) else None
  }

  /** `Get(index)`: the entry of slot `index` when it is occupied. */
  function Get<T>(t: HashTable<T>, index: nat): (r: Option<T>)
    requires t.Valid() && index < t.Capacity()
    ensures r.Some? <==> t.hashes[index] != EMPTY
    ensures r.Some? ==> r.value == t.entries[index]
  {
    if t.hashes[index] != EMPTY then Some(t.entries[index]) else None
  }

  /** Two different distances below the capacity reach different slots. */
  lemma SlotsDistinct<T>(t: HashTable<T>, start: nat, d: nat, e: nat)
    requires t.Valid() && e < d < t.Capacity()
    ensures SlotAfter(t, start, e) != SlotAfter(t, start, d)
  {
    Arith.CloseValuesDiffer(start + d, start + e, t.Capacity());
  }

  /** The probe ends on the first stopping slot: whichever slot that is, `ProbeFrom` returns it. */
  lemma {:induction false} ProbeFromFirst<T>(t: HashTable<T>, h: U64, start: nat, k: nat, d: nat)
    requires t.Valid() && start < t.Capacity() && k <= d < t.Capacity()
    requires StopsAfter(t, h, start, d)
    requires forall e :: k <= e < d ==> !StopsAfter(t, h, start, e)
    ensures ProbeFrom(t, h, start, k) == SlotAfter(t, start, d)
    decreases d - k
  {
    if k < d {
      ProbeFromFirst(t, h, start, k + 1, d);
    }
  }

  /** The distance from the home slot at which the probe for `h` stops. */
  lemma ProbeDistance<T>(t: HashTable<T>, h: U64) returns (d: nat)
    requires t.Valid() && CanProbe(t, h)
    ensures d < t.Capacity() && ProbeIndex(t, h) == SlotAfter(t, h % t.Capacity(), d)
    ensures forall e :: 0 <= e < d ==> !StopsAfter(t, h, h % t.Capacity(), e)
  {
    CanProbeFromHome(t, h);
    var r := ProbeFrom(t, h, h % t.Capacity(), 0);
    d :| 0 <= d < t.Capacity() && r == SlotAfter(t, h % t.Capacity(), d) &&
         forall e :: 0 <= e < d ==> !StopsAfter(t, h, h % t.Capacity(), e);
  }

  /** After `Put(h, e)`, `Find(h)` returns `e`, unless `h` is the empty marker itself. */
  lemma {:induction false} FindAfterPut<T>(t: HashTable<T>, h: U64, e: T)
    requires t.Valid() && CanProbe(t, h) && h != EMPTY
    ensures CanProbe(Put(t, h, e), h)
    ensures Find(Put(t, h, e), h) == Some(e)
  {
    var r := Put(t, h, e);
    var i := ProbeIndex(t, h);
    var start := h % t.Capacity();
    var d := ProbeDistance(t, h);
    assert StopsAt(r, h, i);
    assert StopsAfter(r, h, start, d);
    forall x | 0 <= x < d
      ensures !StopsAfter(r, h, start, x)
    {
      SlotsDistinct(t, start, d, x);
      assert !StopsAfter(t, h, start, x);
    }
    ProbeFromFirst(r, h, start, 0, d);
  }

  /** `Put(~0, e)` writes the empty marker, so the entry can never be found. */
  lemma PutEmptyMarkerIsLost<T>(t: HashTable<T>, e: T)
    requires t.Valid() && CanProbe(t, EMPTY)
    ensures CanProbe(Put(t, EMPTY, e), EMPTY)
    ensures Find(Put(t, EMPTY, e), EMPTY) == None
  {
    var i := ProbeIndex(t, EMPTY);
    assert StopsAt(Put(t, EMPTY, e), EMPTY, i);
  }

  /**
   * `Put(h2, e)` leaves every hash that was already findable with the same
   * entry: the slot it writes is either empty (and so after the found slot)
   * or already holds `h2`.
   */
  lemma {:induction false} PutKeepsOthers<T>(t: HashTable<T>, h: U64, h2: U64, e: T)
    requires t.Valid() && CanProbe(t, h) && CanProbe(t, h2) && h != h2
    requires Find(t, h).Some?
    ensures CanProbe(Put(t, h2, e), h)
    ensures Find(Put(t, h2, e), h) == Find(t, h)
  {
    var r := Put(t, h2, e);
    var i := ProbeIndex(t, h2);
    var j := ProbeIndex(t, h);
    var start := h % t.Capacity();
    var d := ProbeDistance(t, h);
    assert t.hashes[j] == h;
    assert i != j;
    assert r.hashes[j] == h && r.entries[j] == t.entries[j];
    assert StopsAfter(r, h, start, d);
    forall x | 0 <= x < d
      ensures !StopsAfter(r, h, start, x)
    {
      assert !StopsAfter(t, h, start, x);
    }
    ProbeFromFirst(r, h, start, 0, d);
  }

  /** A second `Put` of the same hash overwrites the first one's slot instead of taking another. */
  lemma PutSameHashOverwrites<T>(t: HashTable<T>, h: U64, e1: T, e2: T)
    requires t.Valid() && CanProbe(t, h) && h != EMPTY
    ensures CanProbe(Put(t, h, e1), h)
    ensures ProbeIndex(Put(t, h, e1), h) == ProbeIndex(t, h)
    ensures Put(Put(t, h, e1), h, e2) == Put(t, h, e2)
  {
    FindAfterPut(t, h, e1);
    var r := Put(t, h, e1);
    var start := h % t.Capacity();
    var d := ProbeDistance(t, h);
    forall x | 0 <= x < d
      ensures !StopsAfter(r, h, start, x)
    {
      SlotsDistinct(t, start, d, x);
      assert !StopsAfter(t, h, start, x);
    }
    ProbeFromFirst(r, h, start, 0, d);
  }

  /** The number of empty slots. */
  function EmptySlots<T>(t: HashTable<T>): nat {
    CountEmpty(t.hashes)
  }

  function CountEmpty(hs: seq<U64>): (n: nat)
    ensures n <= |hs|
  {
    if |hs| == 0 then 0 else (if hs[0] == EMPTY then 1 else 0) + CountEmpty(hs[1..])
  }

  /** A positive count has an empty slot behind it. */
  lemma {:induction false} CountedSlotExists(hs: seq<U64>) returns (j: nat)
    requires CountEmpty(hs) > 0
    ensures j < |hs| && hs[j] == EMPTY
  {
    if hs[0] != EMPTY {
      var k := CountedSlotExists(hs[1..]);
      j := k + 1;
    } else {
      j := 0;
    }
  }

  /** Overwriting one hash changes the count by whether the old and the new hash are the marker. */
  lemma {:induction false} CountAfterUpdate(hs: seq<U64>, i: nat, v: U64)
    requires i < |hs|
    ensures CountEmpty(hs[i := v]) + (if hs[i] == EMPTY then 1 else 0) == CountEmpty(hs) + (if v == EMPTY then 1 else 0)
  {
    if i > 0 {
      assert hs[i := v][1..] == hs[1..][i - 1 := v];
      CountAfterUpdate(hs[1..], i - 1, v);
    } else {
      assert hs[i := v][1..] == hs[1..];
    }
  }

  /** With an empty slot left, every probe terminates. */
  lemma EmptySlotLetsProbe<T>(t: HashTable<T>, h: U64)
    requires t.Valid() && EmptySlots(t) > 0
    ensures CanProbe(t, h)
  {
    var j := CountedSlotExists(t.hashes);
    assert StopsAt(t, h, j);
  }

  /** `Put` uses up at most one empty slot, and none when the hash is already present. */
  lemma PutUsesAtMostOneSlot<T>(t: HashTable<T>, h: U64, e: T)
    requires t.Valid() && CanProbe(t, h)
    ensures EmptySlots(Put(t, h, e)) + 1 >= EmptySlots(t)
    ensures Find(t, h).Some? ==> EmptySlots(Put(t, h, e)) == EmptySlots(t)
    ensures Find(t, h).None? && h != EMPTY ==> EmptySlots(Put(t, h, e)) + 1 == EmptySlots(t)
  {
    var i := ProbeIndex(t, h);
    assert Put(t, h, e).hashes == t.hashes[i := h];
    CountAfterUpdate(t.hashes, i, h);
  }

  /** Putting a hash no slot holds into a table with an empty slot uses up exactly one empty slot. */
  lemma NewHashTakesSlot<T>(t: HashTable<T>, h: U64, e: T)
    requires t.Valid() && EmptySlots(t) > 0 && h != EMPTY
    requires forall j :: 0 <= j < t.Capacity() ==> t.hashes[j] != h
    ensures CanProbe(t, h) && EmptySlots(Put(t, h, e)) + 1 == EmptySlots(t)
  {
    EmptySlotLetsProbe(t, h);
    PutUsesAtMostOneSlot(t, h, e);
  }

  /** A zero count means no slot is empty. */
  lemma {:induction false} UncountedNoneEmpty(hs: seq<U64>, j: nat)
    requires CountEmpty(hs) == 0 && j < |hs|
    ensures hs[j] != EMPTY
  {
    if j > 0 {
      UncountedNoneEmpty(hs[1..], j - 1);
    }
  }

  /**
   * In a table without an empty slot, the probe loop of `Put` and `Find`
   * for a hash no slot holds never stops.
   */
  lemma FullTableNeverStops<T>(t: HashTable<T>, h: U64)
    requires t.Valid() && EmptySlots(t) == 0
    requires forall j :: 0 <= j < t.Capacity() ==> t.hashes[j] != h
    ensures !CanProbe(t, h)
  {
    forall j | 0 <= j < t.Capacity()
      ensures !StopsAt(t, h, j)
    {
      UncountedNoneEmpty(t.hashes, j);
    }
  }

  /**
   * `Find` with the probe bounded by the capacity: on a table where the
   * probe would never stop, the hash is in no slot and the answer is NULL.
   */
  function FindOrMiss<T>(t: HashTable<T>, h: U64): (r: Option<T>)
    requires t.Valid()
    ensures CanProbe(t, h) ==> r == Find(t, h)
    ensures r.Some? ==> exists j :: 0 <= j < t.Capacity() && t.hashes[j] == h && t.entries[j] == r.value
    ensures (forall j :: 0 <= j < t.Capacity() ==> t.hashes[j] != h) ==> r.None?
  {
    if CanProbe(t, h) then Find(t, h) else None
  }

  /** A table fresh from the constructor or `Clear` finds nothing. */
  lemma EmptyTableFindsNothing<T>(t: HashTable<T>, h: U64)
    requires t.Valid() && forall j :: 0 <= j < t.Capacity() ==> t.hashes[j] == EMPTY
    ensures CanProbe(t, h)
    ensures Find(t, h) == None
  {
    assert StopsAt(t, h, 0);
  }

  /** The number of empty slots of a fresh table is its capacity. */
  lemma CreateIsAllEmpty<T>(capacity: nat, junk: T)
    requires capacity > 0
    ensures EmptySlots(Create(capacity, junk)) == capacity
  {
    var hs := Create(capacity, junk).hashes;
    FillCount(capacity);
    assert hs == GfxArray.Fill<U64>(capacity, EMPTY);
  }

  lemma {:induction false} FillCount(n: nat)
    ensures CountEmpty(GfxArray.Fill<U64>(n, EMPTY)) == n
  {
    if n > 0 {
      FillCount(n - 1);
      assert GfxArray.Fill<U64>(n, EMPTY)[1..] == GfxArray.Fill<U64>(n - 1, EMPTY);
    }
  }

  /** A table emptied by `Clear` has every slot free. */
  lemma ClearIsAllEmpty<T>(t: HashTable<T>)
    requires t.Valid()
    ensures EmptySlots(Clear(t)) == t.Capacity()
  {
    FillCount(|t.hashes|);
  }

  /** What each slot shows to a lookup: its entry when occupied, nothing when empty. */
  function Occupied<T>(t: HashTable<T>): (o: seq<Option<T>>)
    requires t.Valid()
    ensures |o| == t.Capacity()
  {
    seq(|t.hashes|, j requires 0 <= j < |t.hashes| => if t.hashes[j] != EMPTY then Some(t.entries[j]) else None)
  }

  /**
   * Two tables with the same hashes whose entries agree in every occupied
   * slot: they differ only in the leftovers of empty slots, which no lookup
   * reads.
   */
  ghost predicate SameKeys<T>(a: HashTable<T>, b: HashTable<T>) {
    a.Valid() && b.Valid() && a.hashes == b.hashes && Occupied(a) == Occupied(b)
  }

  /** The probe reads the hashes only. */
  lemma {:induction false} ProbeFromSeesHashes<T>(a: HashTable<T>, b: HashTable<T>, h: U64, start: nat, k: nat)
    requires a.Valid() && b.Valid() && a.hashes == b.hashes
    requires start < a.Capacity() && k <= a.Capacity()
    requires exists d :: k <= d < a.Capacity() && StopsAfter(a, h, start, d)
    ensures exists d :: k <= d < b.Capacity() && StopsAfter(b, h, start, d)
    ensures ProbeFrom(a, h, start, k) == ProbeFrom(b, h, start, k)
    decreases a.Capacity() - k
  {
    var d :| k <= d < a.Capacity() && StopsAfter(a, h, start, d);
    assert SlotAfter(a, start, d) == SlotAfter(b, start, d);
    assert StopsAfter(b, h, start, d);
    assert SlotAfter(a, start, k) == SlotAfter(b, start, k);
    if !StopsAfter(a, h, start, k) {
      assert k + 1 <= d;
      ProbeFromSeesHashes(a, b, h, start, k + 1);
    }
  }

  /** Tables with the same hashes probe to the same slot. */
  lemma SameHashesSameSlot<T>(a: HashTable<T>, b: HashTable<T>, h: U64)
    requires a.Valid() && b.Valid() && a.hashes == b.hashes && CanProbe(a, h)
    ensures CanProbe(b, h) && ProbeIndex(a, h) == ProbeIndex(b, h)
  {
    var j :| 0 <= j < a.Capacity() && StopsAt(a, h, j);
    assert StopsAt(b, h, j);
    CanProbeFromHome(a, h);
    ProbeFromSeesHashes(a, b, h, h % a.Capacity(), 0);
  }

  /** `Put` and `Find` behave alike on tables with the same keys, and `Put` keeps them alike. */
  lemma SameKeysAgree<T>(a: HashTable<T>, b: HashTable<T>, h: U64, e: T)
    requires SameKeys(a, b) && CanProbe(a, h)
    ensures CanProbe(b, h)
    ensures Find(a, h) == Find(b, h)
    ensures SameKeys(Put(a, h, e), Put(b, h, e))
  {
    SameHashesSameSlot(a, b, h);
    var i := ProbeIndex(a, h);
    assert Find(a, h) == Occupied(a)[i] && Find(b, h) == Occupied(b)[i];
    OccupiedAfterPut(a, h, e);
    OccupiedAfterPut(b, h, e);
  }

  /** `Put` changes what one slot shows, the probe's. */
  lemma OccupiedAfterPut<T>(t: HashTable<T>, h: U64, e: T)
    requires t.Valid() && CanProbe(t, h)
    ensures Occupied(Put(t, h, e)) == Occupied(t)[ProbeIndex(t, h) := if h != EMPTY then Some(e) else None]
  {
  }
}
