/**
 * QObjectPool (qobjectpool.h, qobjectpool.cpp): an arena of nodes whose free
 * ones are threaded into a singly linked list through each node's `next`
 * index. `lastFreeNode` is the head of that list; its type is `size_t`, so
 * the end marker -1 becomes SIZE_MAX when a link is read into it and SIZE_MAX
 * becomes -1 again when it is stored into a link. The node payloads are not
 * part of this model; a node's `id` is always its index.
 */
module ObjectPool {
  import Seqs
  import opened Options

  /** size_t(-1). */
  const SIZE_MAX: int := 0xFFFF_FFFF_FFFF_FFFF

  /** int -> size_t conversion of a link (two's complement). */
  function ToSize(link: int): (r: nat)
    requires -0x8000_0000 <= link < 0x8000_0000
    ensures link == -1 <==> r == SIZE_MAX
    ensures 0 <= link ==> r == link
  {
    if link < 0 then link + SIZE_MAX + 1 else link
  }

  /** size_t -> int conversion when the head is stored into a link. */
  function ToLink(head: nat): (r: int)
    requires head <= SIZE_MAX
    ensures head == SIZE_MAX <==> r == -1
    ensures head < 0x8000_0000 ==> r == head
  {
    if head > 0x7FFF_FFFF_FFFF_FFFF then head - SIZE_MAX - 1 else head
  }

  /** The consecutive indices lo, lo + 1, ..., hi - 1. */
  function Range(lo: nat, hi: nat): (r: seq<nat>)
    ensures |r| == if lo <= hi then hi - lo else 0
    ensures forall k :: 0 <= k < |r| ==> r[k] == lo + k
  {
    if lo >= hi then [] else seq(hi - lo, k requires 0 <= k => lo + k)
  }

  /** The pool sizes stay within int range. */
  const MAX_POOL: nat := 0x4000_0000

  class Pool {
    var next: array<int>
    var lastFreeNode: nat
    /** The free list, head first. */
    ghost var free: seq<nat>

    ghost predicate Valid()
      reads this, next
    {
      1 <= next.Length <= MAX_POOL &&
      (free == [] ==> lastFreeNode == SIZE_MAX) &&
      (free != [] ==> lastFreeNode == free[0]) &&
      (forall k :: 0 <= k < |free| ==> free[k] < next.Length) &&
      (forall k :: 0 <= k < |free| - 1 ==> next[free[k]] == free[k + 1]) &&
      (free != [] ==> next[free[|free| - 1]] == -1) &&
      Seqs.Distinct(free)
    }

    /** QObjectPool(): two nodes, chained 0 -> 1 -> end, head 0. */
    constructor ()
      ensures Valid() && fresh(next)
      ensures next.Length == 2 && free == [0, 1]
    {
      var size := 2;
      var nodes := new int[size];
      for i := 0 to size - 1
        invariant forall k :: 0 <= k < i ==> nodes[k] == k + 1
      {
        nodes[i] := i + 1;
      }
      nodes[size - 1] := -1;
      next := nodes;
      lastFreeNode := 0;
      free := [0, 1];
    }

    /**
     * QObjectPool(size_t) as intended: `initialSize` nodes all free, in index
     * order (see SizedAsWritten for the constructor as written).
     */
    constructor Sized(initialSize: nat)
      requires 1 <= initialSize <= MAX_POOL
      ensures Valid() && fresh(next)
      ensures next.Length == initialSize && free == Range(0, initialSize)
    {
      next := new int[initialSize];
      lastFreeNode := SIZE_MAX;
      free := [];
      new;
      FreeAll();
    }

    /**
     * QObjectPool::Resize as intended: the old nodes keep their links, the new
     * nodes size .. newSize - 1 are chained in order and end the list; an
     * empty list gets the first new node as its head.
     */
    method Resize(newSize: nat)
      requires Valid() && free == [] && next.Length < newSize <= MAX_POOL
      modifies this
      ensures Valid() && fresh(next)
      ensures next.Length == newSize && next[..old(next.Length)] == old(next[..])
      ensures free == Range(old(next.Length), newSize)
    {
      var nodes := next;
      var size := nodes.Length;
      var newNodes := new int[newSize];
      for i := 0 to size
        modifies newNodes
        invariant forall k :: 0 <= k < i ==> newNodes[k] == nodes[k]
      {
        newNodes[i] := nodes[i];
      }
      for i := size to newSize
        modifies newNodes
        invariant forall k :: 0 <= k < size ==> newNodes[k] == nodes[k]
        invariant forall k :: size <= k < i ==> newNodes[k] == k + 1
      {
        newNodes[i] := i + 1;
      }
      newNodes[newSize - 1] := -1;
      if lastFreeNode == SIZE_MAX {
        lastFreeNode := size;
      }
      next := newNodes;
      free := Range(size, newSize);
      assert next[..size] == old(next[..]);
    }

    /** QObjectPool::Create: pops the head of the free list, doubling the pool first when the list is empty. */
    method Create() returns (id: nat)
      requires Valid() && 2 * next.Length <= MAX_POOL
      modifies this, next
      ensures Valid()
      ensures old(free) != [] ==> id == old(free)[0] && free == old(free)[1..] && next == old(next) &&
                                  next[..] == old(next[..])
      ensures old(free) == [] ==> id == old(next.Length) && next.Length == 2 * old(next.Length) &&
                                  next[..old(next.Length)] == old(next[..]) &&
                                  free == Range(old(next.Length) + 1, 2 * old(next.Length))
      ensures id < next.Length && id !in free
    {
      if lastFreeNode == SIZE_MAX {
        Resize(next.Length * 2);
      }
      id := lastFreeNode;
      ghost var f := free;
      assert f[0] == id;
      assert |f| == 1 ==> next[id] == -1;
      assert |f| > 1 ==> next[id] == f[1] < next.Length;
      lastFreeNode := ToSize(next[lastFreeNode]);
      free := free[1..];
      assert id !in free by {
        forall k | 0 <= k < |free|
          ensures free[k] != id
        {
          assert free[k] == f[k + 1];
        }
      }
    }

    /** QObjectPool::Free: pushes a node that is not free onto the head of the free list. */
    method Free(nodeID: nat)
      requires Valid() && nodeID < next.Length && nodeID !in free
      modifies this, next
      ensures Valid() && next == old(next)
      ensures free == [nodeID] + old(free) && lastFreeNode == nodeID
      ensures forall k :: 0 <= k < next.Length && k != nodeID ==> next[k] == old(next[k])
    {
      next[nodeID] := ToLink(lastFreeNode);
      lastFreeNode := nodeID;
      free := [nodeID] + free;
    }

    /** QObjectPool::FreeAll: every node free again, chained 0 -> 1 -> ... -> size - 1 -> end, head 0. */
    method FreeAll()
      requires 1 <= next.Length <= MAX_POOL
      modifies this, next
      ensures Valid() && next == old(next)
      ensures free == Range(0, next.Length) && lastFreeNode == 0
      ensures forall k :: 0 <= k < next.Length - 1 ==> next[k] == k + 1
    {
      var nodes := next;
      var size := nodes.Length;
      for i := 0 to size - 1
        modifies nodes
        invariant forall k :: 0 <= k < i ==> nodes[k] == k + 1
      {
        nodes[i] := i + 1;
      }
      nodes[size - 1] := -1;
      lastFreeNode := 0;
      free := Range(0, size);
    }
  }

  // ------------------------------------------------------------------ the code as written

  /** The links and head of a pool, as values. */
  datatype Links = Links(next: seq<int>, head: nat)

  /** The state the default constructor builds (the same in both versions). */
  function FreshLinks(): Links
  {
    Links([1, -1], 0)
  }

  /**
   * Resize as written: the fill loop starts at size - 1, so the last old node
   * is overwritten too, and the last new node links to newSize instead of
   * ending the list.
   */
  function ResizeAsWritten(s: Links, newSize: nat): (r: Links)
    requires 1 <= |s.next| < newSize
    ensures |r.next| == newSize && r.next[newSize - 1] == newSize
  {
    var size := |s.next|;
    Links(s.next[..size - 1] + seq(newSize - size + 1, k => size - 1 + k + 1),
          if s.head == SIZE_MAX then size else s.head)
  }

  /** Create as written; None when it reads a link outside the nodes array. */
  function CreateAsWritten(s: Links): Option<(Links, nat)>
    requires 1 <= |s.next| && -0x8000_0000 <= 2 * |s.next| < 0x8000_0000
    requires forall k :: 0 <= k < |s.next| ==> -1 <= s.next[k] <= 2 * |s.next|
  {
    var t := if s.head == SIZE_MAX then ResizeAsWritten(s, 2 * |s.next|) else s;
    if t.head < |t.next| then Some((Links(t.next, ToSize(t.next[t.head])), t.head)) else None
  }

  /**
   * From a fresh pool, the first four Create calls return 0, 1, 2, 3 (the
   * third one growing the pool to four nodes), and the fifth reads node 4 of a
   * four-node array.
   */
  lemma ResizeAsWrittenOverruns()
    ensures var s0 := FreshLinks();
      var c1 := CreateAsWritten(s0);
      c1.Some? && c1.value.1 == 0 &&
      var c2 := CreateAsWritten(c1.value.0);
      c2.Some? && c2.value.1 == 1 &&
      var c3 := CreateAsWritten(c2.value.0);
      c3.Some? && c3.value.1 == 2 && |c3.value.0.next| == 4 &&
      var c4 := CreateAsWritten(c3.value.0);
      c4.Some? && c4.value.1 == 3 && c4.value.0.head == 4 &&
      CreateAsWritten(c4.value.0).None?
  {
    var s0 := FreshLinks();
    var s1 := Links([1, -1], 1);
    assert CreateAsWritten(s0) == Some((s1, 0));
    var s2 := Links([1, -1], SIZE_MAX);
    assert CreateAsWritten(s1) == Some((s2, 1));
    var grown := ResizeAsWritten(s2, 4);
    assert grown.next == [1, 2, 3, 4] && grown.head == 2;
    var s3 := Links([1, 2, 3, 4], 3);
    assert CreateAsWritten(s2) == Some((s3, 2));
    var s4 := Links([1, 2, 3, 4], 4);
    assert CreateAsWritten(s3) == Some((s4, 3));
  }

  /**
   * QObjectPool(size_t) as written: it allocates `initialSize` nodes with
   * indeterminate links (`garbage`) and then builds a temporary pool instead of
   * chaining them, so the head keeps its initial value -1 (SIZE_MAX).
   */
  function SizedAsWritten(garbage: seq<int>): Links
  {
    Links(garbage, SIZE_MAX)
  }

  /**
   * Although no node has been handed out, the pool built by SizedAsWritten
   * reports an empty free list, and its first Create skips all the
   * initial nodes and returns node `initialSize`.
   */
  lemma SizedAsWrittenSkipsInitialNodes(garbage: seq<int>)
    requires 1 <= |garbage| && 2 * |garbage| < 0x8000_0000
    requires forall k :: 0 <= k < |garbage| ==> -1 <= garbage[k] <= 2 * |garbage|
    ensures SizedAsWritten(garbage).head == SIZE_MAX
    ensures var c := CreateAsWritten(SizedAsWritten(garbage));
      c.Some? && c.value.1 == |garbage|
  {
    var s := SizedAsWritten(garbage);
    var t := ResizeAsWritten(s, 2 * |garbage|);
    assert t.head == |garbage|;
  }
}
