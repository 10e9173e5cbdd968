/**
 * The debug list of render setups each technique keeps in Source/Gfx.cpp
 * (`GfxCreateRenderSetup` appends, `GfxDestroyRenderSetup` unlinks) so that
 * a reload can rebuild every framebuffer. Setups are ids into an arena:
 * `nodes` maps each setup on the list to its `m_Prev` and `m_Next` links,
 * and NULL is `None`.
 */
module RenderSetupList {
  import opened Wrappers

  datatype Node = Node(prev: Option<nat>, next: Option<nat>)

  /** A technique's `m_RenderSetupHead`, `m_RenderSetupTail` and the links of its setups. */
  datatype List = List(nodes: map<nat, Node>, head: Option<nat>, tail: Option<nat>)

  /** No setup appears twice. */
  predicate Distinct(xs: seq<nat>) {
    forall i, j :: 0 <= i < j < |xs| ==> xs[i] != xs[j]
  }

  /** `Some` of the element before position `i`, or NULL at the front. */
  function Before(xs: seq<nat>, i: nat): Option<nat>
    requires i < |xs|
  {
    if i == 0 then None else Some(xs[i - 1])
  }

  /** `Some` of the element after position `i`, or NULL at the back. */
  function After(xs: seq<nat>, i: nat): Option<nat>
    requires i < |xs|
  {
    if i == |xs| - 1 then None else Some(xs[i + 1])
  }

  /** Setup `i` of `xs` is linked to its neighbours in `xs`. */
  predicate Linked(l: List, xs: seq<nat>, i: nat)
    requires i < |xs|
  {
    xs[i] in l.nodes && l.nodes[xs[i]] == Node(Before(xs, i), After(xs, i))
  }

  /**
   * The links spell out the setups `xs` in order: head and tail are the
   * ends (NULL when empty), each setup links to its neighbours, the front's
   * `m_Prev` and the back's `m_Next` are NULL, and no other setup has links.
   */
  predicate Represents(l: List, xs: seq<nat>) {
    Distinct(xs)
    && l.head == (if |xs| == 0 then None else Some(xs[0]))
    && l.tail == (if |xs| == 0 then None else Some(xs[|xs| - 1]))
    && (forall x :: x in l.nodes ==> x in xs)
    && (forall i :: 0 <= i < |xs| ==> Linked(l, xs, i))
  }

  /** A technique fresh from `GfxCreateTechnique` without an old one: NULL head and tail. */
  const EMPTY: List := List(map[], None, None)

  lemma EmptyRepresentsNothing()
    ensures Represents(EMPTY, [])
  {
  }

  /** The debug part of `GfxCreateRenderSetup`: link a new setup in at the tail. */
  function Append(l: List, id: nat): (r: List)
    requires id !in l.nodes
    ensures r.tail == Some(id) && r.nodes.Keys == l.nodes.Keys + {id}
    ensures r.nodes[id] == Node(l.tail, None)
    ensures l.tail.None? ==> r.head == Some(id)
    ensures l.tail.Some? ==> r.head == l.head
  {
    match l.tail
    case Some(t) =>
      var nodes := if t in l.nodes then l.nodes[t := l.nodes[t].(next := Some(id))] else l.nodes;
      List(nodes[id := Node(Some(t), None)], l.head, Some(id))
    case None =>
      List(l.nodes[id := Node(None, None)], Some(id), Some(id))
  }

  /** Appending to the list of `xs` gives the list of `xs` followed by the new setup. */
  lemma AppendAtTail(l: List, xs: seq<nat>, id: nat)
    requires Represents(l, xs) && id !in l.nodes
    ensures Represents(Append(l, id), xs + [id])
  {
    var r := Append(l, id);
    var ys := xs + [id];
    assert Distinct(ys) by {
      forall a, b | 0 <= a < b < |ys|
        ensures ys[a] != ys[b]
      {
        if b < |xs| {
          assert ys[a] == xs[a] && ys[b] == xs[b];
        } else {
          assert Linked(l, xs, a);
        }
      }
    }
    forall i | 0 <= i < |ys|
      ensures Linked(r, ys, i)
    {
      if i < |xs| {
        assert Linked(l, xs, i);
        assert ys[i] == xs[i] && Before(ys, i) == Before(xs, i);
        if i + 1 < |xs| {
          assert xs[i + 1] != xs[i] by { assert Linked(l, xs, i + 1); }
        }
      }
    }
    forall x | x in r.nodes
      ensures x in ys
    {
      if x != id {
        assert x in l.nodes;
        var k :| 0 <= k < |xs| && xs[k] == x;
        assert ys[k] == x;
      }
    }
  }

  /**
   * The debug part of `GfxDestroyRenderSetup`: move the head or tail off
   * the setup if it is there, then link its neighbours to each other.
   */
  function Unlink(l: List, id: nat): (r: List)
    requires id in l.nodes
    ensures id !in r.nodes && r.nodes.Keys == l.nodes.Keys - {id}
    ensures l.head == Some(id) ==> r.head == l.nodes[id].next
    ensures l.head != Some(id) ==> r.head == l.head
    ensures l.tail == Some(id) ==> r.tail == l.nodes[id].prev
    ensures l.tail != Some(id) ==> r.tail == l.tail
  {
    var n := l.nodes[id];
    var head := if l.head == Some(id) then n.next else l.head;
    var tail := if l.tail == Some(id) then n.prev else l.tail;
    var nodes := l.nodes;
    var nodes := if n.next.Some? && n.next.value in nodes then nodes[n.next.value := nodes[n.next.value].(prev := n.prev)] else nodes;
    var nodes := if n.prev.Some? && n.prev.value in nodes then nodes[n.prev.value := nodes[n.prev.value].(next := n.next)] else nodes;
    List(nodes - {id}, head, tail)
  }

  /** `xs` without its element `i`. */
  function Without(xs: seq<nat>, i: nat): (ys: seq<nat>)
    requires i < |xs|
    ensures |ys| == |xs| - 1
    ensures forall k :: 0 <= k < i ==> ys[k] == xs[k]
    ensures forall k :: i <= k < |ys| ==> ys[k] == xs[k + 1]
  {
    xs[..i] + xs[i + 1..]
  }

  /** Unlinking setup `i` of `xs` leaves the list of the others, in their order. */
  lemma UnlinkKeepsOrder(l: List, xs: seq<nat>, i: nat)
    requires Represents(l, xs) && i < |xs|
    ensures xs[i] in l.nodes
    ensures Represents(Unlink(l, xs[i]), Without(xs, i))
  {
    assert Linked(l, xs, i);
    var r := Unlink(l, xs[i]);
    var ys := Without(xs, i);
    WithoutDistinct(xs, i);
    UnlinkedKeys(l, xs, i);
    forall k | 0 <= k < |ys|
      ensures Linked(r, ys, k)
    {
      UnlinkedNeighbour(l, xs, i, if k < i then k else k + 1);
    }
    UnlinkedEnds(l, xs, i);
  }

  /** Dropping one element keeps the rest distinct. */
  lemma WithoutDistinct(xs: seq<nat>, i: nat)
    requires Distinct(xs) && i < |xs|
    ensures Distinct(Without(xs, i))
  {
    var ys := Without(xs, i);
    forall a, b | 0 <= a < b < |ys|
      ensures ys[a] != ys[b]
    {
      var a' := if a < i then a else a + 1;
      var b' := if b < i then b else b + 1;
      assert ys[a] == xs[a'] && ys[b] == xs[b'];
    }
  }

  /** Every setup still linked after unlinking setup `i` is one of the others. */
  lemma UnlinkedKeys(l: List, xs: seq<nat>, i: nat)
    requires Represents(l, xs) && i < |xs|
    ensures xs[i] in l.nodes
    ensures forall x :: x in Unlink(l, xs[i]).nodes ==> x in Without(xs, i)
  {
    assert Linked(l, xs, i);
    var id := xs[i];
    var r := Unlink(l, id);
    var ys := Without(xs, i);
    forall x | x in r.nodes
      ensures x in ys
    {
      assert x in l.nodes && x != id;
      var k :| 0 <= k < |xs| && xs[k] == x;
      var k' := if k < i then k else k - 1;
      assert ys[k'] == x;
    }
  }

  /** Unlinking moves the head and tail to the remaining ends. */
  lemma UnlinkedEnds(l: List, xs: seq<nat>, i: nat)
    requires Represents(l, xs) && i < |xs|
    ensures xs[i] in l.nodes
    ensures var r := Unlink(l, xs[i]);
            var ys := Without(xs, i);
            r.head == (if |ys| == 0 then None else Some(ys[0])) && r.tail == (if |ys| == 0 then None else Some(ys[|ys| - 1]))
  {
    assert Linked(l, xs, i);
    if i > 0 {
      assert Linked(l, xs, 0);
    }
    if i < |xs| - 1 {
      assert Linked(l, xs, |xs| - 1);
    }
  }

  /** How unlinking setup `i` changes the links of setup `k`. */
  lemma UnlinkedNeighbour(l: List, xs: seq<nat>, i: nat, k: nat)
    requires Represents(l, xs) && i < |xs| && k < |xs| && k != i
    ensures xs[i] in l.nodes
    ensures Linked(Unlink(l, xs[i]), Without(xs, i), if k < i then k else k - 1)
  {
    assert Linked(l, xs, i);
    assert Linked(l, xs, k);
    var ys := Without(xs, i);
    var k' := if k < i then k else k - 1;
    if k == i - 1 && i + 1 < |xs| {
      assert Linked(l, xs, i + 1);
      assert xs[i + 1] != xs[k];
    } else if k == i + 1 && i > 0 {
      assert Linked(l, xs, i - 1);
      assert xs[i - 1] != xs[k];
    } else {
      if i > 0 {
        assert Linked(l, xs, i - 1);
        assert xs[i - 1] != xs[k] || k == i - 1;
      }
      if i + 1 < |xs| {
        assert Linked(l, xs, i + 1);
        assert xs[i + 1] != xs[k] || k == i + 1;
      }
    }
    assert ys[k'] == xs[k];
  }

  /** The walk of the reload loop: follow `m_Next` from `cur`, for at most `fuel` setups. */
  function WalkFrom(l: List, cur: Option<nat>, fuel: nat): seq<nat>
    decreases fuel
  {
    if fuel == 0 || cur.None? || cur.value !in l.nodes then []
    else [cur.value] + WalkFrom(l, l.nodes[cur.value].next, fuel - 1)
  }

  /** The loop in `GfxCreateTechnique` that rebuilds every framebuffer, from the head. */
  function Walk(l: List): seq<nat> {
    WalkFrom(l, l.head, |l.nodes|)
  }

  /** From setup `i` on, following `m_Next` visits the rest of `xs` in order. */
  lemma {:induction false} WalkFromVisitsRest(l: List, xs: seq<nat>, i: nat, fuel: nat)
    requires Represents(l, xs) && i < |xs| && fuel >= |xs| - i
    ensures WalkFrom(l, Some(xs[i]), fuel) == xs[i..]
    decreases |xs| - i
  {
    assert Linked(l, xs, i);
    if i + 1 < |xs| {
      WalkFromVisitsRest(l, xs, i + 1, fuel - 1);
      assert xs[i..] == [xs[i]] + xs[i + 1..];
    }
  }

  /** The number of linked setups is the length of the list. */
  lemma NodeCount(l: List, xs: seq<nat>)
    requires Represents(l, xs)
    ensures |l.nodes| == |xs|
  {
    forall i | 0 <= i < |xs|
      ensures xs[i] in l.nodes
    {
      assert Linked(l, xs, i);
    }
    DistinctCard(xs);
    assert l.nodes.Keys == Elements(xs);
  }

  /** The setups of `xs`, as a set. */
  function Elements(xs: seq<nat>): (s: set<nat>)
    ensures forall x :: x in s <==> x in xs
  {
    if |xs| == 0 then {} else {xs[0]} + Elements(xs[1..])
  }

  lemma {:induction false} DistinctCard(xs: seq<nat>)
    requires Distinct(xs)
    ensures |Elements(xs)| == |xs|
  {
    if |xs| > 0 {
      var rest := xs[1..];
      assert Distinct(rest) by {
        forall a, b | 0 <= a < b < |rest|
          ensures rest[a] != rest[b]
        {
          assert rest[a] == xs[a + 1] && rest[b] == xs[b + 1];
        }
      }
      DistinctCard(rest);
      assert xs[0] !in Elements(rest) by {
        forall k | 0 <= k < |rest|
          ensures rest[k] != xs[0]
        {
          assert rest[k] == xs[k + 1];
        }
      }
    }
  }

  /** Walking the list from its head visits every setup once, in creation order less the destroyed ones. */
  lemma WalkVisitsAll(l: List, xs: seq<nat>)
    requires Represents(l, xs)
    ensures Walk(l) == xs
  {
    NodeCount(l, xs);
    if |xs| > 0 {
      WalkFromVisitsRest(l, xs, 0, |l.nodes|);
    }
  }
}
