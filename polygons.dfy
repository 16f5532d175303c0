/**
 * The polygon area QMesh::GetPolygonArea computes (qmesh.cpp): a shoelace sum
 * of trapezoids under each edge (i, (i+1) mod n), made positive at the end.
 * Here the sum is stated on the list of vertex positions; the loop over
 * particles that computes it lives with the mesh in the engine module.
 */
module Polygons {
  import opened Vectors

  /** The signed trapezoid under the edge p -> q: (p.y + q.y) * (q.x - p.x) * 0.5. */
  function Term(p: Vec, q: Vec): real
  {
    (p.y + q.y) * (q.x - p.x) * 0.5
  }

  /** The accumulator after the first k edges of the loop, the k-th edge wrapping to vertex 0. */
  function PrefixSum(ps: seq<Vec>, k: nat): real
    requires k <= |ps|
  {
    if k == 0 then 0.0 else PrefixSum(ps, k - 1) + Term(ps[k - 1], ps[k % |ps|])
  }

  /** The area GetPolygonArea returns for vertex positions `ps`. */
  function PolygonArea(ps: seq<Vec>): (r: real)
    ensures 0.0 <= r
    ensures ps == [] ==> r == 0.0
  {
    Abs(PrefixSum(ps, |ps|))
  }

  /** The sum along the open chain ps[0] -> ps[1] -> ... -> ps[|ps|-1]. */
  function ChainSum(ps: seq<Vec>): real
  {
    if |ps| < 2 then 0.0 else Term(ps[0], ps[1]) + ChainSum(ps[1..])
  }

  /** The same shoelace sum written as the open chain plus the closing edge. */
  function ClosedSum(ps: seq<Vec>): real
  {
    if ps == [] then 0.0 else ChainSum(ps) + Term(ps[|ps| - 1], ps[0])
  }

  function Reverse(ps: seq<Vec>): (r: seq<Vec>)
    ensures |r| == |ps|
    ensures forall i :: 0 <= i < |ps| ==> r[i] == ps[|ps| - 1 - i]
  {
    if ps == [] then [] else Reverse(ps[1..]) + [ps[0]]
  }

  /** Reversing an edge negates its trapezoid. */
  lemma TermAntisymmetric(p: Vec, q: Vec)
    ensures Term(q, p) == -Term(p, q)
  {
  }

  /** Joining two chains adds the edge between them. */
  lemma {:induction false} ChainSumAppend(a: seq<Vec>, b: seq<Vec>)
    requires a != [] && b != []
    ensures ChainSum(a + b) == ChainSum(a) + Term(a[|a| - 1], b[0]) + ChainSum(b)
  {
    if |a| == 1 {
      assert (a + b)[1..] == b;
    } else {
      assert (a + b)[1..] == a[1..] + b;
      ChainSumAppend(a[1..], b);
    }
  }

  /** An edge that does not wrap ends at the next vertex. */
  lemma InnerEdge(ps: seq<Vec>, k: nat)
    requires 0 < k < |ps|
    ensures PrefixSum(ps, k) == PrefixSum(ps, k - 1) + Term(ps[k - 1], ps[k])
  {
    var n := |ps|;
    assert k % n == k;
  }

  /** The loop's prefix over the first k < n edges is the chain over the first k+1 vertices. */
  lemma {:induction false} PrefixIsChain(ps: seq<Vec>, k: nat)
    requires k < |ps|
    ensures PrefixSum(ps, k) == ChainSum(ps[..k + 1])
  {
    if k > 0 {
      var front := ps[..k];
      PrefixIsChain(ps, k - 1);
      InnerEdge(ps, k);
      assert front[|front| - 1] == ps[k - 1];
      assert ps[..k + 1] == front + [ps[k]];
      ChainSumAppend(front, [ps[k]]);
      assert ChainSum([ps[k]]) == 0.0;
    }
  }

  /** The value the source's loop accumulates equals the closed-chain sum. */
  lemma PrefixIsClosed(ps: seq<Vec>)
    ensures PrefixSum(ps, |ps|) == ClosedSum(ps)
  {
    if ps != [] {
      var n := |ps|;
      PrefixIsChain(ps, n - 1);
      assert ps[..n] == ps;
    }
  }

  /** Starting the vertex list at any vertex gives the same signed sum. */
  lemma ClosedSumRotation(ps: seq<Vec>, k: nat)
    requires k <= |ps|
    ensures ClosedSum(ps[k..] + ps[..k]) == ClosedSum(ps)
  {
    if 0 < k < |ps| {
      var a, b := ps[..k], ps[k..];
      assert ps == a + b;
      ChainSumAppend(a, b);
      ChainSumAppend(b, a);
    } else if k == 0 {
      assert ps[k..] + ps[..k] == ps;
    } else {
      assert ps[k..] + ps[..k] == ps;
    }
  }

  /** Walking the polygon backwards negates the signed sum of its open chain. */
  lemma {:induction false} ChainSumReverse(ps: seq<Vec>)
    ensures ChainSum(Reverse(ps)) == -ChainSum(ps)
  {
    if |ps| >= 2 {
      ChainSumReverse(ps[1..]);
      ChainSumAppend(Reverse(ps[1..]), [ps[0]]);
      TermAntisymmetric(ps[0], ps[1]);
    } else if |ps| == 1 {
      assert Reverse(ps) == ps;
    }
  }

  /** GetPolygonArea is at least zero and does not depend on the starting vertex. */
  lemma AreaRotationInvariant(ps: seq<Vec>, k: nat)
    requires k <= |ps|
    ensures PolygonArea(ps[k..] + ps[..k]) == PolygonArea(ps)
  {
    PrefixIsClosed(ps);
    PrefixIsClosed(ps[k..] + ps[..k]);
    ClosedSumRotation(ps, k);
  }

  /** GetPolygonArea does not depend on the winding direction. */
  lemma AreaReversalInvariant(ps: seq<Vec>)
    ensures PolygonArea(Reverse(ps)) == PolygonArea(ps)
  {
    PrefixIsClosed(ps);
    PrefixIsClosed(Reverse(ps));
    if ps != [] {
      ChainSumReverse(ps);
      TermAntisymmetric(ps[0], ps[|ps| - 1]);
      assert ClosedSum(Reverse(ps)) == -ClosedSum(ps);
    }
  }
}
