/**
 * Array<T> of Source/GfxUtil.h: a growable buffer of `capacity` slots whose
 * first `count` slots are the live elements. Slots past `count` keep whatever
 * they held (realloc does not clear them), which matters because `Resize` can
 * bring stale slots back into view.
 */
module GfxArray {

  /** `slots` is the allocated storage, so its length is the capacity. */
  datatype Array<T> = Array(slots: seq<T>, count: nat)
  {
    predicate Valid() {
      count <= |slots|
    }

    function Capacity(): nat {
      |slots|
    }

    /** The live elements `[0, count)`. */
    function Items(): seq<T>
      requires Valid()
    {
      slots[..count]
    }
  }

  /** `n` copies of `x`, standing for storage whose contents the program never wrote. */
  function Fill<T>(n: nat, x: T): (r: seq<T>)
    ensures |r| == n
    ensures forall i :: 0 <= i < n ==> r[i] == x
  {
    if n == 0 then [] else [x] + Fill(n - 1, x)
  }

  /** `Array(count)`: `count` uninitialised elements and exactly that much capacity. */
  function New<T>(count: nat, junk: T): (a: Array<T>)
    ensures a.Valid()
    ensures a.count == count && a.Capacity() == count
  {
    Array(Fill(count, junk), count)
  }

  /** `Reserve(capacity)`: realloc the storage; live elements survive. */
  function Reserve<T>(a: Array<T>, capacity: nat, junk: T): (r: Array<T>)
    requires a.Valid() && a.count <= capacity
    ensures r.Valid()
    ensures r.Capacity() == capacity
    ensures r.Items() == a.Items()
  {
    if capacity <= |a.slots| then Array(a.slots[..capacity], a.count)
    else Array(a.slots + Fill(capacity - |a.slots|, junk), a.count)
  }

  /**
   * `Resize(count)`: set the count, growing the storage to exactly `count`
   * slots when it does not fit. Elements kept from before are unchanged.
   */
  function Resize<T>(a: Array<T>, count: nat, junk: T): (r: Array<T>)
    requires a.Valid()
    ensures r.Valid()
    ensures r.count == count
    ensures r.Capacity() == if count > a.Capacity() then count else a.Capacity()
    ensures count <= a.count ==> r.Items() == a.Items()[..count]
    ensures count >= a.count ==> r.Items()[..a.count] == a.Items()
    ensures count <= a.Capacity() ==> r.Items() == a.slots[..count]
  {
    if count > |a.slots| then Array(Reserve(a, count, junk).slots, count)
    else Array(a.slots, count)
  }

  /** `Grow(count)`: `Resize` by `count` more elements. */
  function Grow<T>(a: Array<T>, n: nat, junk: T): (r: Array<T>)
    requires a.Valid()
    ensures r.Valid()
    ensures r.count == a.count + n
    ensures r.Items()[..a.count] == a.Items()
  {
    Resize(a, a.count + n, junk)
  }

  /** The capacity `Push` reserves when the array is full: 1 for an empty buffer, else double. */
  function GrownCapacity(capacity: nat): nat {
    if capacity == 0 then 1 else capacity * 2
  }

  /** `Push(element)`: append, doubling the capacity when the array is full. */
  function Push<T>(a: Array<T>, e: T, junk: T): (r: Array<T>)
    requires a.Valid()
    ensures r.Valid()
    ensures r.Items() == a.Items() + [e]
    ensures a.count < a.Capacity() ==> r.Capacity() == a.Capacity()
    ensures a.count == a.Capacity() ==> r.Capacity() == GrownCapacity(a.Capacity())
  {
    var b := if a.count + 1 > |a.slots| then Reserve(a, GrownCapacity(|a.slots|), junk) else a;
    assert b.Items() == a.Items();
    Array(b.slots[b.count := e], b.count + 1)
  }

  /** `EraseSwap(index)`: move the last element into `index` and drop the last slot. */
  function EraseSwap<T>(a: Array<T>, index: nat): (r: Array<T>)
    requires a.Valid() && index < a.count
    ensures r.Valid()
    ensures r.Capacity() == a.Capacity()
    ensures r.count == a.count - 1
    ensures index < r.count ==> r.Items()[index] == a.Items()[a.count - 1]
    ensures forall i :: 0 <= i < r.count && i != index ==> r.Items()[i] == a.Items()[i]
  {
    Array(a.slots[index := a.slots[a.count - 1]], a.count - 1)
  }

  /** `EraseSwap` removes exactly the element at `index`: the rest is a permutation of what remains. */
  lemma EraseSwapRemovesOne<T>(a: Array<T>, index: nat)
    requires a.Valid() && index < a.count
    ensures multiset(EraseSwap(a, index).Items()) + multiset{a.Items()[index]} == multiset(a.Items())
  {
    var last := a.count - 1;
    var items := a.Items();
    var r := EraseSwap(a, index).Items();
    assert items == items[..last] + [items[last]];
    if index < last {
      assert items[..last] == items[..index] + [items[index]] + items[index + 1..last];
      assert r == items[..index] + [items[last]] + items[index + 1..last];
    } else {
      assert r == items[..last];
    }
  }

  /** `Clear()`: no live elements; the storage is kept. */
  function Clear<T>(a: Array<T>): (r: Array<T>)
    requires a.Valid()
    ensures r.Valid()
    ensures r.Items() == []
    ensures r.Capacity() == a.Capacity()
  {
    Array(a.slots, 0)
  }

  predicate IsPowerOfTwo(n: nat) {
    n == 1 || (n > 1 && n % 2 == 0 && IsPowerOfTwo(n / 2))
  }

  /**
   * The shape an array has when it only ever grew by `Push` from no storage:
   * the capacity is a power of two and less than twice the count.
   */
  predicate GrownByPush<T>(a: Array<T>) {
    a.Valid() &&
    ((a.count == 0 && a.Capacity() == 0) ||
     (IsPowerOfTwo(a.Capacity()) && a.count <= a.Capacity() < 2 * a.count))
  }

  /** `Push` keeps the doubling policy's bound: at most half of the storage is ever unused. */
  lemma {:induction false} PushKeepsDoublingBound<T>(a: Array<T>, e: T, junk: T)
    requires GrownByPush(a)
    ensures GrownByPush(Push(a, e, junk))
  {
    var c := a.Capacity();
    if a.count == c && c > 0 {
      assert (c * 2) / 2 == c;
      assert IsPowerOfTwo(c * 2);
    }
  }
}
