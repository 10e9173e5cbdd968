/**
 * The deferred command queue of Source/Gfx.cpp: `QueueCmd` appends a
 * function and a copy of its parameter bytes, recording where those bytes
 * start; `GfxBeginFrame` calls every queued function in order on its bytes
 * and empties the three arrays.
 */
module DeferredQueue {
  import opened Machine

  /**
   * The three device arrays: queued functions, the concatenated parameter
   * bytes, and the offset where each function's bytes start.
   */
  datatype Queue<F> = Queue(funcs: seq<F>, data: seq<Byte>, offsets: seq<nat>)
  {
    /** Offsets start at 0, never decrease and stay inside the data; no bytes without a function. */
    predicate Valid() {
      |funcs| == |offsets| &&
      (if |offsets| > 0 then offsets[0] == 0 else data == []) &&
      (forall i, j :: 0 <= i <= j < |offsets| ==> offsets[i] <= offsets[j]) &&
      (forall i :: 0 <= i < |offsets| ==> offsets[i] <= |data|)
    }

    function Count(): nat {
      |funcs|
    }
  }

  /** A queued call: the function and the parameter bytes it was queued with. */
  datatype Command<F> = Command(func: F, params: seq<Byte>)

  function Empty<F>(): (q: Queue<F>)
    ensures q.Valid() && q.Count() == 0 && q.data == []
  {
    Queue([], [], [])
  }

  /** Where the bytes of command `i` end: at the next command's start, or at the end of the data. */
  function EndOf<F>(q: Queue<F>, i: nat): (e: nat)
    requires q.Valid() && i < q.Count()
    ensures q.offsets[i] <= e <= |q.data|
  {
    if i + 1 < |q.offsets| then q.offsets[i + 1] else |q.data|
  }

  /** The commands waiting in the queue, in the order they were queued: the queue's meaning. */
  function Pending<F>(q: Queue<F>): (cs: seq<Command<F>>)
    requires q.Valid()
    ensures |cs| == q.Count()
  {
    seq(q.Count(), i requires 0 <= i < q.Count() => Command(q.funcs[i], q.data[q.offsets[i]..EndOf(q, i)]))
  }

  /**
   * `QueueCmd`: push the function, grow the data by the parameter bytes and
   * copy them in, and push their starting offset (the data size before the
   * call). The offsets are `uint32_t`, so the queued bytes stay under 4 GiB.
   */
  function QueueCmd<F>(q: Queue<F>, func: F, params: seq<Byte>): (r: Queue<F>)
    requires q.Valid() && |q.data| + |params| < TWO_32
    ensures r.Valid() && r.Count() == q.Count() + 1
    ensures r.offsets[q.Count()] == |q.data|
    ensures r.data == q.data + params
  {
    Queue(q.funcs + [func], q.data + params, q.offsets + [|q.data|])
  }

  /** Queueing a call adds exactly that call after the ones already waiting. */
  lemma QueueCmdAppends<F>(q: Queue<F>, func: F, params: seq<Byte>)
    requires q.Valid() && |q.data| + |params| < TWO_32
    ensures Pending(QueueCmd(q, func, params)) == Pending(q) + [Command(func, params)]
  {
    var r := QueueCmd(q, func, params);
    var n := q.Count();
    forall i | 0 <= i < n
      ensures Pending(r)[i] == Pending(q)[i]
    {
      assert EndOf(r, i) == EndOf(q, i);
      assert r.data[r.offsets[i]..EndOf(r, i)] == q.data[q.offsets[i]..EndOf(q, i)];
    }
    assert r.data[r.offsets[n]..EndOf(r, n)] == params;
  }

  /** The queue built by queueing `cs` one after the other onto an empty queue. */
  function QueueAll<F>(cs: seq<Command<F>>): (q: Queue<F>)
    requires TotalSize(cs) < TWO_32
    ensures q.Valid() && |q.data| == TotalSize(cs)
    decreases |cs|
  {
    if cs == [] then Empty()
    else
      var last := cs[|cs| - 1];
      var init := cs[..|cs| - 1];
      assert TotalSize(cs) == TotalSize(init) + |last.params|;
      QueueCmd(QueueAll(init), last.func, last.params)
  }

  function TotalSize<F>(cs: seq<Command<F>>): nat
    decreases |cs|
  {
    if cs == [] then 0 else TotalSize(cs[..|cs| - 1]) + |cs[|cs| - 1].params|
  }

  /** What is pending after queueing a list of calls is that list, bytes included. */
  lemma {:induction false} QueueAllPending<F>(cs: seq<Command<F>>)
    requires TotalSize(cs) < TWO_32
    ensures Pending(QueueAll(cs)) == cs
    decreases |cs|
  {
    if cs != [] {
      var last := cs[|cs| - 1];
      var init := cs[..|cs| - 1];
      QueueAllPending(init);
      QueueCmdAppends(QueueAll(init), last.func, last.params);
      assert init + [last] == cs;
    }
  }

  /**
   * The drain in `GfxBeginFrame`: call each queued function, in queue order,
   * on the bytes starting at its offset, then clear all three arrays.
   * `calls` is the sequence of calls made.
   */
  method Drain<F>(q: Queue<F>) returns (calls: seq<Command<F>>, r: Queue<F>)
    requires q.Valid()
    ensures calls == Pending(q)
    ensures r.Valid() && r.Count() == 0 && r.data == []
  {
    calls := [];
    var i := 0;
    while i < |q.funcs|
      invariant 0 <= i <= |q.funcs|
      invariant calls == Pending(q)[..i]
    {
      var end := if i + 1 < |q.offsets| then q.offsets[i + 1] else |q.data|;
      calls := calls + [Command(q.funcs[i], q.data[q.offsets[i]..end])];
      i := i + 1;
    }
    r := Queue([], [], []);
  }
}
