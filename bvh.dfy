/**
 * QBroadPhase (qbroadphase.cpp): a bounding-volume hierarchy rebuilt from
 * scratch each step. Leaves hold the bodies with their fattened boxes; the
 * tree is built greedily by merging, again and again, the two nodes whose
 * combined box has the least area. Node ids come from a counter reset with
 * the tree. The node objects are values here: a node's children are the
 * nodes it was merged from.
 */
module BVH {
  import opened AABBs
  import opened Options
  import Seqs

  /** A body as the broad phase sees it: identity, current box and fattened box. */
  datatype Item = Item(key: nat, aabb: AABB, fatted: AABB)

  datatype Node =
    | Leaf(id: nat, aabb: AABB, obj: Item)
    | Branch(id: nat, aabb: AABB, left: Node, right: Node)

  function Size(n: Node): nat
  {
    match n
    case Leaf(_, _, _) => 1
    case Branch(_, _, l, r) => 1 + Size(l) + Size(r)
  }

  /** The bodies at the leaves of a tree. */
  function Leaves(n: Node): multiset<Item>
  {
    match n
    case Leaf(_, _, obj) => multiset{obj}
    case Branch(_, _, l, r) => Leaves(l) + Leaves(r)
  }

  /** The ids of all nodes of a tree. */
  function Ids(n: Node): multiset<nat>
  {
    match n
    case Leaf(id, _, _) => multiset{id}
    case Branch(id, _, l, r) => multiset{id} + Ids(l) + Ids(r)
  }

  /** A leaf's box is its body's fattened box and every inner box contains its children's boxes. */
  predicate WellFormed(n: Node)
  {
    match n
    case Leaf(_, aabb, obj) => aabb == obj.fatted
    case Branch(_, aabb, l, r) =>
      IsContain(aabb, l.aabb) && IsContain(aabb, r.aabb) && WellFormed(l) && WellFormed(r)
  }

  function ForestLeaves(s: seq<Node>): multiset<Item>
  {
    if s == [] then multiset{} else Leaves(s[0]) + ForestLeaves(s[1..])
  }

  function ForestIds(s: seq<Node>): multiset<nat>
  {
    if s == [] then multiset{} else Ids(s[0]) + ForestIds(s[1..])
  }

  lemma {:induction false} ForestAppend(s: seq<Node>, t: seq<Node>)
    ensures ForestLeaves(s + t) == ForestLeaves(s) + ForestLeaves(t)
    ensures ForestIds(s + t) == ForestIds(s) + ForestIds(t)
  {
    if s == [] {
      assert s + t == t;
    } else {
      assert (s + t)[1..] == s[1..] + t;
      ForestAppend(s[1..], t);
    }
  }

  /** Erasing node i takes exactly its leaves and ids out of the forest. */
  lemma ForestRemoveAt(s: seq<Node>, i: nat)
    requires i < |s|
    ensures ForestLeaves(s) == Leaves(s[i]) + ForestLeaves(Seqs.RemoveAt(s, i))
    ensures ForestIds(s) == Ids(s[i]) + ForestIds(Seqs.RemoveAt(s, i))
  {
    var front, back := s[..i], s[i + 1..];
    assert s == front + s[i..];
    assert s[i..][1..] == back;
    ForestAppend(front, s[i..]);
    ForestAppend(front, back);
    assert Seqs.RemoveAt(s, i) == front + back;
  }

  /** A forest of one tree has that tree's leaves and ids. */
  lemma SingleTree(s: seq<Node>)
    requires |s| == 1
    ensures ForestLeaves(s) == Leaves(s[0]) && ForestIds(s) == Ids(s[0])
  {
    assert s[1..] == [];
  }

  /** No id occurs twice in the forest, and every id is below `bound`. */
  ghost predicate IdsFresh(s: seq<Node>, bound: nat)
  {
    (forall x :: ForestIds(s)[x] <= 1) && (forall x :: x in ForestIds(s) ==> x < bound)
  }

  /** The area of the box that merging nodes i and j would get. */
  function MergedArea(nodes: seq<Node>, i: nat, j: nat): real
    requires i < |nodes| && j < |nodes|
  {
    GetArea(Combine(nodes[i].aabb, nodes[j].aabb))
  }

  /** (p, q) comes before (i, j) in the order the search visits pairs. */
  predicate VisitedBefore(p: nat, q: nat, i: nat, j: nat)
  {
    p < i || (p == i && q < j)
  }

  /**
   * The pair search of one merge iteration of ReCreateTree: the pair with the
   * least merged area, the first one met on ties. The initial best value,
   * infinity, is modelled by `found` being false.
   */
  method BestPair(nodes: seq<Node>) returns (bestIndexA: int, bestIndexB: int)
    requires |nodes| >= 2
    ensures 0 <= bestIndexA < bestIndexB < |nodes|
    ensures forall p, q :: 0 <= p < q < |nodes| ==>
      MergedArea(nodes, bestIndexA, bestIndexB) <= MergedArea(nodes, p, q)
    ensures forall p, q :: 0 <= p < q < |nodes| && VisitedBefore(p, q, bestIndexA, bestIndexB) ==>
      MergedArea(nodes, bestIndexA, bestIndexB) < MergedArea(nodes, p, q)
  {
    bestIndexA, bestIndexB := -1, -1;
    var found := false;
    var bestSAH := 0.0;
    var n := |nodes|;
    for i := 0 to n
      invariant found <==> i >= 1
      invariant found ==> 0 <= bestIndexA < bestIndexB < n && bestIndexA < i &&
                          bestSAH == MergedArea(nodes, bestIndexA, bestIndexB)
      invariant found ==> forall p, q :: 0 <= p < q < n && p < i ==> bestSAH <= MergedArea(nodes, p, q)
      invariant found ==> forall p, q :: 0 <= p < q < n && p < i && VisitedBefore(p, q, bestIndexA, bestIndexB) ==>
                            bestSAH < MergedArea(nodes, p, q)
    {
      for j := i + 1 to n
        invariant found <==> (i >= 1 || j > i + 1)
        invariant found ==> 0 <= bestIndexA < bestIndexB < n && VisitedBefore(bestIndexA, bestIndexB, i, j) &&
                            bestSAH == MergedArea(nodes, bestIndexA, bestIndexB)
        invariant found ==> forall p, q :: 0 <= p < q < n && VisitedBefore(p, q, i, j) ==>
                              bestSAH <= MergedArea(nodes, p, q)
        invariant found ==> forall p, q :: (0 <= p < q < n && VisitedBefore(p, q, i, j) &&
                              VisitedBefore(p, q, bestIndexA, bestIndexB)) ==> bestSAH < MergedArea(nodes, p, q)
      {
        var mergedAABB := Combine(nodes[i].aabb, nodes[j].aabb);
        var sah := GetArea(mergedAABB);
        if !found || sah < bestSAH {
          bestSAH := sah;
          bestIndexA := i;
          bestIndexB := j;
          found := true;
        }
      }
    }
  }

  /** The (idA, idB) key GetPairsBetweenNodes records: the Cantor pairing of the two ids. */
  function CantorKey(idA: nat, idB: nat): nat
  {
    (idA + idB) * (idA + idB + 1) / 2 + idB
  }

  /** The triangular number 0 + 1 + ... + s. */
  function Triangle(s: nat): nat
  {
    if s == 0 then 0 else s + Triangle(s - 1)
  }

  lemma {:induction false} TriangleFormula(s: nat)
    ensures s * (s + 1) / 2 == Triangle(s)
  {
    if s > 0 {
      TriangleFormula(s - 1);
      assert s * (s + 1) == (s - 1) * s + 2 * s;
    }
  }

  lemma {:induction false} TriangleGrows(s: nat, t: nat)
    requires s < t
    ensures Triangle(s) + s < Triangle(t)
  {
    if t > s + 1 {
      TriangleGrows(s, t - 1);
    }
  }

  /** The key is injective: distinct ordered id pairs never share a key. */
  lemma CantorKeyInjective(a: nat, b: nat, c: nat, d: nat)
    requires CantorKey(a, b) == CantorKey(c, d)
    ensures a == c && b == d
  {
    TriangleFormula(a + b);
    TriangleFormula(c + d);
    if a + b < c + d {
      TriangleGrows(a + b, c + d);
    } else if c + d < a + b {
      TriangleGrows(c + d, a + b);
    }
  }

  class BroadPhase {
    var nodes: seq<Node>
    var lastID: nat
    var root: Option<Node>

    constructor ()
      ensures nodes == [] && lastID == 0 && root == None
    {
      nodes := [];
      lastID := 0;
      root := None;
    }

    /** QBroadPhase::GetNewNodeID: the counter's value, then the counter advances. */
    method GetNewNodeID() returns (res: nat)
      modifies this
      ensures res == old(lastID) && lastID == old(lastID) + 1
      ensures nodes == old(nodes) && root == old(root)
    {
      res := lastID;
      lastID := lastID + 1;
    }

    /** QBroadPhase::ClearTree: no nodes, and ids start again from 0 (the root field is left as it was). */
    method ClearTree()
      modifies this
      ensures nodes == [] && lastID == 0 && root == old(root)
    {
      nodes := [];
      lastID := 0;
    }

    /**
     * QBroadPhase::ReCreateTree: one leaf per body, then merges until one node
     * is left. Every body is a leaf of the result exactly as often as it is in
     * the list, boxes nest, ids are distinct, and n bodies use ids 0 .. 2n - 2.
     */
    method ReCreateTree(objectList: seq<Item>)
      modifies this
      ensures objectList == [] ==> nodes == [] && lastID == 0 && root == old(root)
      ensures objectList != [] ==>
        |nodes| == 1 && root == Some(nodes[0]) && Leaves(nodes[0]) == multiset(objectList) &&
        WellFormed(nodes[0]) && lastID == 2 * |objectList| - 1 && IdsFresh(nodes, lastID)
    {
      ClearTree();
      if |objectList| == 0 {
        return;
      }
      AddLeaves(objectList);
      while |nodes| > 1
        invariant |nodes| >= 1 && lastID + |nodes| == 2 * |objectList|
        invariant ForestLeaves(nodes) == multiset(objectList)
        invariant forall i :: 0 <= i < |nodes| ==> WellFormed(nodes[i])
        invariant IdsFresh(nodes, lastID)
        decreases |nodes|
      {
        var _, _ := MergeBestPair(multiset(objectList));
      }
      root := Some(nodes[0]);
      SingleTree(nodes);
    }

    /** The first loop of ReCreateTree: a leaf, with the next node id, for each body in order. */
    method AddLeaves(objectList: seq<Item>)
      requires nodes == [] && lastID == 0
      modifies this
      ensures |nodes| == |objectList| == lastID && root == old(root)
      ensures ForestLeaves(nodes) == multiset(objectList)
      ensures forall i :: 0 <= i < |nodes| ==> WellFormed(nodes[i])
      ensures IdsFresh(nodes, lastID)
    {
      for k := 0 to |objectList|
        invariant |nodes| == k && lastID == k && root == old(root)
        invariant ForestLeaves(nodes) == multiset(objectList[..k])
        invariant forall i :: 0 <= i < |nodes| ==> WellFormed(nodes[i])
        invariant IdsFresh(nodes, lastID)
      {
        AddLeaf(objectList, k);
      }
      assert objectList[..|objectList|] == objectList;
    }

    /** One iteration of the first loop of ReCreateTree: the leaf of body k, with the next node id. */
    method AddLeaf(objectList: seq<Item>, k: nat)
      requires k < |objectList| && |nodes| == k && lastID == k
      requires ForestLeaves(nodes) == multiset(objectList[..k]) && IdsFresh(nodes, lastID)
      requires forall i :: 0 <= i < |nodes| ==> WellFormed(nodes[i])
      modifies this
      ensures nodes == old(nodes) + [Leaf(k, objectList[k].fatted, objectList[k])]
      ensures lastID == k + 1 && root == old(root)
      ensures ForestLeaves(nodes) == multiset(objectList[..k + 1]) && IdsFresh(nodes, lastID)
      ensures forall i :: 0 <= i < |nodes| ==> WellFormed(nodes[i])
    {
      var body := objectList[k];
      var id := GetNewNodeID();
      var newNode := Leaf(id, body.fatted, body);
      AppendLeafKeepsForest(nodes, objectList, k, id);
      nodes := nodes + [newNode];
    }

    /**
     * One iteration of the merge loop of ReCreateTree: the best pair (see
     * BestPair) is replaced by a new inner node, with the next id, appended at the end.
     */
    method MergeBestPair(ghost items: multiset<Item>) returns (bestIndexA: int, bestIndexB: int)
      requires |nodes| >= 2 && IdsFresh(nodes, lastID) && ForestLeaves(nodes) == items
      requires forall i :: 0 <= i < |nodes| ==> WellFormed(nodes[i])
      modifies this
      ensures 0 <= bestIndexA < bestIndexB < |old(nodes)|
      ensures nodes == Merged(old(nodes), bestIndexA, bestIndexB, old(lastID))
      ensures lastID == old(lastID) + 1 && root == old(root) && |nodes| == |old(nodes)| - 1
      ensures ForestLeaves(nodes) == items && IdsFresh(nodes, lastID)
      ensures forall i :: 0 <= i < |nodes| ==> WellFormed(nodes[i])
    {
      bestIndexA, bestIndexB := BestPair(nodes);
      var id := GetNewNodeID();
      // bestIndexA < bestIndexB always holds, so the source's other erase order is never taken
      MergeKeepsForest(nodes, bestIndexA, bestIndexB, id);
      nodes := Merged(nodes, bestIndexA, bestIndexB, id);
    }

    /**
     * QBroadPhase::Query: the bodies of the current tree whose own box collides
     * with `aabb`; without a tree QueryInNode reports an invalid node and adds nothing.
     */
    method Query(aabb: AABB) returns (list: seq<Item>)
      ensures root.None? ==> list == []
      ensures root.Some? ==> list == QueryInNode(root.value, aabb)
    {
      if root.None? {
        return [];
      }
      list := QueryInNode(root.value, aabb);
    }

    /** QBroadPhase::GetPairs: the leaf pairs reported for the current tree. */
    method GetPairs() returns (pairCollection: seq<(Item, Item)>)
      ensures root.None? || root.value.Leaf? ==> pairCollection == []
      ensures forall k :: 0 <= k < |pairCollection| ==>
        IsCollidingWith(pairCollection[k].0.aabb, pairCollection[k].1.aabb) &&
        pairCollection[k].0 in Leaves(root.value) && pairCollection[k].1 in Leaves(root.value)
    {
      if root.None? || root.value.Leaf? {
        return [];
      }
      var checkedHashes := {};
      pairCollection, checkedHashes := GetPairsBetweenNodes(root.value.left, root.value.right, [], checkedHashes);
    }
  }

  /** Appending the leaf of body k keeps the forest invariants of the leaf-building loop. */
  lemma AppendLeafKeepsForest(nodes: seq<Node>, objectList: seq<Item>, k: nat, id: nat)
    requires k < |objectList| && id == k
    requires ForestLeaves(nodes) == multiset(objectList[..k]) && IdsFresh(nodes, id)
    requires forall i :: 0 <= i < |nodes| ==> WellFormed(nodes[i])
    ensures var r := nodes + [Leaf(id, objectList[k].fatted, objectList[k])];
      ForestLeaves(r) == multiset(objectList[..k + 1]) && IdsFresh(r, id + 1) &&
      forall i :: 0 <= i < |r| ==> WellFormed(r[i])
  {
    var newNode := Leaf(id, objectList[k].fatted, objectList[k]);
    var r := nodes + [newNode];
    AppendNode(nodes, newNode);
    Seqs.TakeOneMore(objectList, k);
    assert Leaves(newNode) == multiset{objectList[k]} && Ids(newNode) == multiset{id};
    AddFreshId(ForestIds(nodes), ForestIds(r), id);
    forall i | 0 <= i < |r|
      ensures WellFormed(r[i])
    {
      if i < |nodes| {
        assert r[i] == nodes[i];
      }
    }
  }

  /** Appending one node adds its leaves and ids to the forest. */
  lemma AppendNode(nodes: seq<Node>, n: Node)
    ensures ForestLeaves(nodes + [n]) == ForestLeaves(nodes) + Leaves(n)
    ensures ForestIds(nodes + [n]) == ForestIds(nodes) + Ids(n)
  {
    ForestAppend(nodes, [n]);
    assert [n][1..] == [];
  }

  /** Adding an id above all present ids keeps every id unique and below the next bound. */
  lemma AddFreshId(before: multiset<nat>, after: multiset<nat>, id: nat)
    requires after == before + multiset{id}
    requires (forall x :: before[x] <= 1) && (forall x :: x in before ==> x < id)
    ensures (forall x :: after[x] <= 1) && (forall x :: x in after ==> x < id + 1)
  {
    assert before[id] == 0;
    forall x
      ensures after[x] <= 1
    {
      assert after[x] == before[x] + (if x == id then 1 else 0);
    }
  }

  /** Nodes a and b (a < b) erased and the node merged from them, with id `id`, appended. */
  function Merged(nodes: seq<Node>, a: nat, b: nat, id: nat): seq<Node>
    requires a < b < |nodes|
  {
    Seqs.RemoveAt(Seqs.RemoveAt(nodes, b), a) + [Branch(id, Combine(nodes[a].aabb, nodes[b].aabb), nodes[a], nodes[b])]
  }

  /** One merge step keeps the forest's leaves, nesting and fresh ids. */
  lemma MergeKeepsForest(nodes: seq<Node>, a: nat, b: nat, id: nat)
    requires a < b < |nodes| && IdsFresh(nodes, id)
    requires forall i :: 0 <= i < |nodes| ==> WellFormed(nodes[i])
    ensures var r := Merged(nodes, a, b, id);
      ForestLeaves(r) == ForestLeaves(nodes) &&
      (forall i :: 0 <= i < |r| ==> WellFormed(r[i])) &&
      IdsFresh(r, id + 1) && |r| == |nodes| - 1
  {
    var merged := Branch(id, Combine(nodes[a].aabb, nodes[b].aabb), nodes[a], nodes[b]);
    var r := Merged(nodes, a, b, id);
    MergeForests(nodes, a, b, merged);
    AddFreshId(ForestIds(nodes), ForestIds(r), id);
    MergeWellFormed(nodes, a, b, merged);
  }

  /** The leaves and ids after a merge: the same leaves, and one more id. */
  lemma MergeForests(nodes: seq<Node>, a: nat, b: nat, merged: Node)
    requires a < b < |nodes| && merged.Branch? && merged.left == nodes[a] && merged.right == nodes[b]
    ensures var r := Seqs.RemoveAt(Seqs.RemoveAt(nodes, b), a) + [merged];
      ForestLeaves(r) == ForestLeaves(nodes) && ForestIds(r) == ForestIds(nodes) + multiset{merged.id}
  {
    var mid := Seqs.RemoveAt(nodes, b);
    var rest := Seqs.RemoveAt(mid, a);
    ForestRemoveAt(nodes, b);
    ForestRemoveAt(mid, a);
    assert mid[a] == nodes[a];
    ForestAppend(rest, [merged]);
    SingleTree([merged]);
    MergeCounts(ForestLeaves(nodes), ForestLeaves(mid), ForestLeaves(rest), Leaves(nodes[a]), Leaves(nodes[b]));
    MergeCounts(ForestIds(nodes), ForestIds(mid), ForestIds(rest), Ids(nodes[a]), Ids(nodes[b]));
  }

  /** The multiset bookkeeping of a merge: taking out two parts and putting back their union changes nothing. */
  lemma MergeCounts<T>(all: multiset<T>, mid: multiset<T>, rest: multiset<T>, x: multiset<T>, y: multiset<T>)
    requires all == y + mid && mid == x + rest
    ensures rest + (x + y) == all
  {
  }

  /** The nodes surviving a merge were nodes before it. */
  lemma MergeWellFormed(nodes: seq<Node>, a: nat, b: nat, merged: Node)
    requires a < b < |nodes| && WellFormed(merged)
    requires forall i :: 0 <= i < |nodes| ==> WellFormed(nodes[i])
    ensures var r := Seqs.RemoveAt(Seqs.RemoveAt(nodes, b), a) + [merged];
      forall i :: 0 <= i < |r| ==> WellFormed(r[i])
  {
    var mid := Seqs.RemoveAt(nodes, b);
    assert forall i :: 0 <= i < |mid| ==> WellFormed(mid[i]);
    var rest := Seqs.RemoveAt(mid, a);
    assert forall i :: 0 <= i < |rest| ==> WellFormed(rest[i]);
  }

  /** QBroadPhase::QueryInNode: a leaf tests its body's own box; an inner node prunes on its box. */
  function QueryInNode(node: Node, aabb: AABB): (list: seq<Item>)
    ensures forall k :: 0 <= k < |list| ==> IsCollidingWith(list[k].aabb, aabb) && list[k] in Leaves(node)
  {
    match node
    case Leaf(_, _, obj) => if IsCollidingWith(obj.aabb, aabb) then [obj] else []
    case Branch(_, box, l, r) =>
      if !IsCollidingWith(box, aabb) then []
      else QueryInNode(l, aabb) + QueryInNode(r, aabb)
  }

  /** Every body's fattened box contains its current box. */
  ghost predicate FattedContains(n: Node)
  {
    forall obj :: obj in Leaves(n) ==> IsContain(obj.fatted, obj.aabb)
  }

  /**
   * In a well-formed tree whose fattened boxes contain the current ones, the
   * pruning loses nothing: every body whose box collides with the query box is reported.
   */
  lemma {:induction false} QueryIsComplete(node: Node, aabb: AABB, obj: Item)
    requires WellFormed(node) && FattedContains(node)
    requires obj in Leaves(node) && IsCollidingWith(obj.aabb, aabb)
    ensures obj in QueryInNode(node, aabb)
  {
    match node
    case Leaf(_, _, _) =>
    case Branch(_, box, l, r) =>
      assert IsCollidingWith(box, aabb) by {
        BoxContainsLeaf(node, obj);
        ContainKeepsColliding(box, obj.aabb, aabb);
      }
      if obj in Leaves(l) {
        QueryIsComplete(l, aabb, obj);
      } else {
        QueryIsComplete(r, aabb, obj);
      }
  }

  /** A well-formed node's box contains the current box of every body below it. */
  lemma {:induction false} BoxContainsLeaf(node: Node, obj: Item)
    requires WellFormed(node) && FattedContains(node) && obj in Leaves(node)
    ensures IsContain(node.aabb, obj.aabb)
  {
    match node
    case Leaf(_, _, _) =>
    case Branch(_, box, l, r) =>
      var child := if obj in Leaves(l) then l else r;
      BoxContainsLeaf(child, obj);
      ContainTransitive(box, child.aabb, obj.aabb);
  }

  /**
   * QBroadPhase::GetPairsBetweenNodes: each (nodeA, nodeB) key is handled once;
   * two leaves report their bodies when the bodies' boxes collide, otherwise
   * the search descends into the children. It reports no more pairs than the
   * number of keys it newly records.
   */
  method GetPairsBetweenNodes(nodeA: Node, nodeB: Node, pairCollection: seq<(Item, Item)>, checkedPairList: set<nat>)
    returns (pairs: seq<(Item, Item)>, checked: set<nat>)
    ensures |pairCollection| <= |pairs| && pairs[..|pairCollection|] == pairCollection
    ensures checkedPairList <= checked && CantorKey(nodeA.id, nodeB.id) in checked
    ensures CantorKey(nodeA.id, nodeB.id) in checkedPairList ==> pairs == pairCollection && checked == checkedPairList
    ensures |pairs| - |pairCollection| <= |checked - checkedPairList|
    ensures forall k :: |pairCollection| <= k < |pairs| ==>
      IsCollidingWith(pairs[k].0.aabb, pairs[k].1.aabb) &&
      pairs[k].0 in Leaves(nodeA) + Leaves(nodeB) && pairs[k].1 in Leaves(nodeA) + Leaves(nodeB)
    decreases Size(nodeA) + Size(nodeB)
  {
    var pairHash := CantorKey(nodeA.id, nodeB.id);
    if pairHash in checkedPairList {
      return pairCollection, checkedPairList;
    }
    checked := checkedPairList + {pairHash};
    pairs := pairCollection;
    if nodeA.Leaf? && nodeB.Leaf? {
      if IsCollidingWith(nodeA.obj.aabb, nodeB.obj.aabb) {
        pairs := pairs + [(nodeA.obj, nodeB.obj)];
      }
    } else if nodeA.Branch? && nodeB.Branch? {
      pairs, checked := BranchAndBranch(nodeA, nodeB, pairs, checked, checkedPairList, pairCollection);
    } else if nodeA.Leaf? && nodeB.Branch? {
      pairs, checked := LeafAndBranch(nodeA, nodeB, pairs, checked, checkedPairList, pairCollection);
    } else {
      pairs, checked := BranchAndLeaf(nodeA, nodeB, pairs, checked, checkedPairList, pairCollection);
    }
  }

  /** The case of two branches: both nodes' own children first, then the four crossings when the boxes collide. */
  method BranchAndBranch(nodeA: Node, nodeB: Node, pairs0: seq<(Item, Item)>, checked0: set<nat>,
                         checkedStart: set<nat>, pairsStart: seq<(Item, Item)>)
    returns (pairs: seq<(Item, Item)>, checked: set<nat>)
    requires nodeA.Branch? && nodeB.Branch?
    requires pairs0 == pairsStart && checkedStart < checked0
    ensures |pairsStart| <= |pairs| && pairs[..|pairsStart|] == pairsStart
    ensures checkedStart <= checked && checked0 <= checked
    ensures |pairs| - |pairsStart| < |checked - checkedStart|
    ensures forall k :: |pairsStart| <= k < |pairs| ==>
      IsCollidingWith(pairs[k].0.aabb, pairs[k].1.aabb) &&
      pairs[k].0 in Leaves(nodeA) + Leaves(nodeB) && pairs[k].1 in Leaves(nodeA) + Leaves(nodeB)
    decreases Size(nodeA) + Size(nodeB), 1
  {
    pairs, checked := Descend(nodeA.left, nodeA.right, nodeA, nodeB, pairs0, checked0, checkedStart, pairsStart);
    pairs, checked := Descend(nodeB.left, nodeB.right, nodeA, nodeB, pairs, checked, checkedStart, pairsStart);
    if IsCollidingWith(nodeA.aabb, nodeB.aabb) {
      pairs, checked := Descend(nodeA.left, nodeB.left, nodeA, nodeB, pairs, checked, checkedStart, pairsStart);
      pairs, checked := Descend(nodeA.right, nodeB.right, nodeA, nodeB, pairs, checked, checkedStart, pairsStart);
      pairs, checked := Descend(nodeA.left, nodeB.right, nodeA, nodeB, pairs, checked, checkedStart, pairsStart);
      pairs, checked := Descend(nodeA.right, nodeB.left, nodeA, nodeB, pairs, checked, checkedStart, pairsStart);
    }
  }

  /** A leaf against a branch: the branch's own children first, then the leaf against each child when the boxes collide. */
  method LeafAndBranch(nodeA: Node, nodeB: Node, pairs0: seq<(Item, Item)>, checked0: set<nat>,
                       checkedStart: set<nat>, pairsStart: seq<(Item, Item)>)
    returns (pairs: seq<(Item, Item)>, checked: set<nat>)
    requires nodeA.Leaf? && nodeB.Branch?
    requires pairs0 == pairsStart && checkedStart < checked0
    ensures |pairsStart| <= |pairs| && pairs[..|pairsStart|] == pairsStart
    ensures checkedStart <= checked && checked0 <= checked
    ensures |pairs| - |pairsStart| < |checked - checkedStart|
    ensures forall k :: |pairsStart| <= k < |pairs| ==>
      IsCollidingWith(pairs[k].0.aabb, pairs[k].1.aabb) &&
      pairs[k].0 in Leaves(nodeA) + Leaves(nodeB) && pairs[k].1 in Leaves(nodeA) + Leaves(nodeB)
    decreases Size(nodeA) + Size(nodeB), 1
  {
    pairs, checked := Descend(nodeB.left, nodeB.right, nodeA, nodeB, pairs0, checked0, checkedStart, pairsStart);
    if IsCollidingWith(nodeA.aabb, nodeB.aabb) {
      pairs, checked := Descend(nodeA, nodeB.left, nodeA, nodeB, pairs, checked, checkedStart, pairsStart);
      pairs, checked := Descend(nodeA, nodeB.right, nodeA, nodeB, pairs, checked, checkedStart, pairsStart);
    }
  }

  /** A branch against a leaf: the branch's own children first, then the leaf against each child when the boxes collide. */
  method BranchAndLeaf(nodeA: Node, nodeB: Node, pairs0: seq<(Item, Item)>, checked0: set<nat>,
                       checkedStart: set<nat>, pairsStart: seq<(Item, Item)>)
    returns (pairs: seq<(Item, Item)>, checked: set<nat>)
    requires nodeA.Branch? && nodeB.Leaf?
    requires pairs0 == pairsStart && checkedStart < checked0
    ensures |pairsStart| <= |pairs| && pairs[..|pairsStart|] == pairsStart
    ensures checkedStart <= checked && checked0 <= checked
    ensures |pairs| - |pairsStart| < |checked - checkedStart|
    ensures forall k :: |pairsStart| <= k < |pairs| ==>
      IsCollidingWith(pairs[k].0.aabb, pairs[k].1.aabb) &&
      pairs[k].0 in Leaves(nodeA) + Leaves(nodeB) && pairs[k].1 in Leaves(nodeA) + Leaves(nodeB)
    decreases Size(nodeA) + Size(nodeB), 1
  {
    pairs, checked := Descend(nodeA.left, nodeA.right, nodeA, nodeB, pairs0, checked0, checkedStart, pairsStart);
    if IsCollidingWith(nodeB.aabb, nodeA.aabb) {
      pairs, checked := Descend(nodeB, nodeA.left, nodeA, nodeB, pairs, checked, checkedStart, pairsStart);
      pairs, checked := Descend(nodeB, nodeA.right, nodeA, nodeB, pairs, checked, checkedStart, pairsStart);
    }
  }

  /**
   * One recursive call of GetPairsBetweenNodes on two nodes below (nodeA,
   * nodeB), carrying the facts about the accumulated pairs and keys since the call on (nodeA, nodeB) began.
   */
  method Descend(x: Node, y: Node, nodeA: Node, nodeB: Node, pairs0: seq<(Item, Item)>, checked0: set<nat>,
                 checkedStart: set<nat>, pairsStart: seq<(Item, Item)>)
    returns (pairs: seq<(Item, Item)>, checked: set<nat>)
    requires Size(x) + Size(y) < Size(nodeA) + Size(nodeB)
    requires Leaves(x) + Leaves(y) <= Leaves(nodeA) + Leaves(nodeB)
    requires |pairsStart| <= |pairs0| && pairs0[..|pairsStart|] == pairsStart
    requires checkedStart <= checked0
    requires |pairs0| - |pairsStart| < |checked0 - checkedStart|
    requires forall k :: |pairsStart| <= k < |pairs0| ==>
      IsCollidingWith(pairs0[k].0.aabb, pairs0[k].1.aabb) &&
      pairs0[k].0 in Leaves(nodeA) + Leaves(nodeB) && pairs0[k].1 in Leaves(nodeA) + Leaves(nodeB)
    ensures |pairsStart| <= |pairs| && pairs[..|pairsStart|] == pairsStart
    ensures checkedStart <= checked && checked0 <= checked
    ensures |pairs| - |pairsStart| < |checked - checkedStart|
    ensures forall k :: |pairsStart| <= k < |pairs| ==>
      IsCollidingWith(pairs[k].0.aabb, pairs[k].1.aabb) &&
      pairs[k].0 in Leaves(nodeA) + Leaves(nodeB) && pairs[k].1 in Leaves(nodeA) + Leaves(nodeB)
    decreases Size(nodeA) + Size(nodeB), 0
  {
    pairs, checked := GetPairsBetweenNodes(x, y, pairs0, checked0);
    assert pairs[..|pairsStart|] == pairs0[..|pairs0|][..|pairsStart|];
    assert forall k :: |pairs0| <= k < |pairs| ==> pairs[k].0 in Leaves(x) + Leaves(y) && pairs[k].1 in Leaves(x) + Leaves(y);
    assert forall k :: |pairsStart| <= k < |pairs0| ==> pairs[k] == pairs0[k];
    CardinalitySplit(checkedStart, checked0, checked);
  }

  /** Counting new keys across two nested supersets. */
  lemma CardinalitySplit(a: set<nat>, b: set<nat>, c: set<nat>)
    requires a <= b <= c
    ensures |c - a| == |c - b| + |b - a|
  {
    assert c - a == (c - b) + (b - a);
    assert (c - b) * (b - a) == {};
  }
}
