/**
 * QCollision (qcollision.h, qcollision.cpp): the narrow-phase primitives.
 * A polygon is the sequence of its particles; each particle is seen through a
 * `Vertex`, its identity (the particle pointer) and its global position.
 * Contacts name their particles by that identity.
 */
module Collision {
  import opened Vectors
  import opened Options
  import Reals

  /** QWorld::MAX_WORLD_SIZE, the start value of the running minima. */
  const MAX_WORLD_SIZE: real := 99999.0

  datatype Vertex = Vertex(key: nat, pos: Vec)

  /** QCollision::Contact. */
  datatype Contact = Contact(particle: nat, position: Vec, normal: Vec, penetration: real,
                             referenceParticles: seq<nat>, solved: bool)

  /** The Contact constructor: stores its arguments, not yet solved. */
  function NewContact(particle: nat, position: Vec, normal: Vec, penetration: real,
                      referenceParticles: seq<nat>): (c: Contact)
    ensures !c.solved
    ensures c.particle == particle && c.position == position && c.normal == normal
    ensures c.penetration == penetration && c.referenceParticles == referenceParticles
  {
    Contact(particle, position, normal, penetration, referenceParticles, false)
  }

  // ---------------------------------------------------------------- projections

  /** QCollision::Project: an interval on an axis and the vertices attaining its ends. */
  datatype Project = Project(min: real, minIndex: int, max: real, maxIndex: int)

  /** Project::Overlap: negative while the intervals overlap, the gap between them otherwise. */
  function Overlap(a: Project, other: Project): real
  {
    if other.min < a.min then a.min - other.max else other.min - a.max
  }

  /**
   * A nonnegative Overlap means the open intervals are disjoint, and for
   * intervals of positive length a negative one means they intersect.
   */
  lemma OverlapMeaning(a: Project, b: Project)
    ensures Overlap(a, b) >= 0.0 ==> !(a.min < b.max && b.min < a.max)
    ensures a.min < a.max && b.min < b.max ==> (Overlap(a, b) < 0.0 <==> a.min < b.max && b.min < a.max)
  {
  }

  /** Overlap is symmetric unless the two minima coincide. */
  lemma OverlapSymmetric(a: Project, b: Project)
    requires a.min != b.min
    ensures Overlap(a, b) == Overlap(b, a)
  {
  }

  /** With equal minima the answer depends on the order of the arguments. */
  lemma OverlapEqualMinima()
    ensures Overlap(Project(0.0, 0, 1.0, 0), Project(0.0, 0, 2.0, 0)) == -1.0
    ensures Overlap(Project(0.0, 0, 2.0, 0), Project(0.0, 0, 1.0, 0)) == -2.0
  {
  }

  function Distance(poly: seq<Vertex>, normal: Vec, i: nat): real
    requires i < |poly|
  {
    Dot(poly[i].pos, normal)
  }

  /** The interval ProjectToAxis has built after visiting the first `n` vertices. */
  function Projection(normal: Vec, poly: seq<Vertex>, n: nat): Project
    requires n <= |poly|
  {
    if n == 0 then Project(MAX_WORLD_SIZE, 0, -MAX_WORLD_SIZE, 0)
    else
      var pr := Projection(normal, poly, n - 1);
      var dist := Distance(poly, normal, n - 1);
      Project(if dist < pr.min then dist else pr.min, if dist < pr.min then n - 1 else pr.minIndex,
              if dist > pr.max then dist else pr.max, if dist > pr.max then n - 1 else pr.maxIndex)
  }

  /** QCollision::ProjectToAxis. */
  method ProjectToAxis(normal: Vec, poly: seq<Vertex>) returns (p: Project)
    ensures p == Projection(normal, poly, |poly|)
  {
    var minDist, maxDist := MAX_WORLD_SIZE, -MAX_WORLD_SIZE;
    var minPointIndex, maxPointIndex := 0, 0;
    for i := 0 to |poly|
      invariant Project(minDist, minPointIndex, maxDist, maxPointIndex) == Projection(normal, poly, i)
    {
      var dist := Dot(poly[i].pos, normal);
      if dist < minDist {
        minDist := dist;
        minPointIndex := i;
      }
      if dist > maxDist {
        maxDist := dist;
        maxPointIndex := i;
      }
    }
    p := Project(minDist, minPointIndex, maxDist, maxPointIndex);
  }

  /** Every vertex projection lies strictly inside (-MAX_WORLD_SIZE, MAX_WORLD_SIZE). */
  predicate InWorld(poly: seq<Vertex>, normal: Vec, n: nat)
    requires n <= |poly|
  {
    forall i :: 0 <= i < n ==> -MAX_WORLD_SIZE < Distance(poly, normal, i) < MAX_WORLD_SIZE
  }

  /**
   * The projection bounds every vertex; for a nonempty polygon min <= max and
   * the indices are in range; the first vertex attaining the minimum and the
   * first attaining the maximum are the ones recorded (inside the world bounds).
   */
  lemma {:induction false} ProjectionBounds(normal: Vec, poly: seq<Vertex>, n: nat)
    requires n <= |poly|
    ensures var p := Projection(normal, poly, n);
      (forall i :: 0 <= i < n ==> p.min <= Distance(poly, normal, i) <= p.max) &&
      (n == 0 ==> p == Project(MAX_WORLD_SIZE, 0, -MAX_WORLD_SIZE, 0)) &&
      (n > 0 ==> 0 <= p.minIndex < n && 0 <= p.maxIndex < n && p.min <= p.max) &&
      (forall i :: 0 <= i < p.minIndex ==> p.min < Distance(poly, normal, i)) &&
      (forall i :: 0 <= i < p.maxIndex ==> Distance(poly, normal, i) < p.max) &&
      (n > 0 && InWorld(poly, normal, n) ==>
         p.min == Distance(poly, normal, p.minIndex) && p.max == Distance(poly, normal, p.maxIndex))
  {
    if n > 0 {
      ProjectionBounds(normal, poly, n - 1);
    }
  }

  // ---------------------------------------------------------------- segments and points

  /** The parameters t (along the first segment) and u (along the second) of the crossing point. */
  function CrossingParameters(d1A: Vec, d1B: Vec, d2A: Vec, d2B: Vec): (real, real)
    requires Dot(Sub(d1B, d1A), Perpendicular(Sub(d2B, d2A))) != 0.0
  {
    var v1 := Sub(d1B, d1A);
    var v2 := Sub(d2B, d2A);
    var vb1 := Sub(d2A, d1A);
    (Dot(vb1, Perpendicular(v2)) / Dot(v1, Perpendicular(v2)),
     -Dot(vb1, Perpendicular(v1)) / Dot(v2, Perpendicular(v1)))
  }

  /**
   * QCollision::LineIntersectionLine; None stands for the NaN vector. For
   * parallel segments the float divisions give an infinite or NaN parameter and
   * the result is NaN on every path, which None models.
   */
  function LineIntersectionLine(d1A: Vec, d1B: Vec, d2A: Vec, d2B: Vec): (r: Option<Vec>)
    ensures Dot(Sub(d1B, d1A), Perpendicular(Sub(d2B, d2A))) == 0.0 ==> r.None?
    ensures Dot(Sub(d1B, d1A), Perpendicular(Sub(d2B, d2A))) != 0.0 ==>
      var (t, u) := CrossingParameters(d1A, d1B, d2A, d2B);
      (r.Some? <==> 0.0 < t <= 1.0 && 0.0 <= u <= 1.0) &&
      (r.Some? ==> r.value == Add(d1A, Scale(Sub(d1B, d1A), t)))
  {
    var v1 := Sub(d1B, d1A);
    var v2 := Sub(d2B, d2A);
    var v2Normal := Perpendicular(v2);
    var vb1 := Sub(d2A, d1A);
    var den := Dot(v1, v2Normal);
    if den == 0.0 then None
    else
      var t := Dot(vb1, v2Normal) / den;
      if t < 0.0 || t > 1.0 || t == 0.0 then None
      else
        var v1Normal := Perpendicular(v1);
        assert Dot(v2, v1Normal) == -den;
        var u := -Dot(vb1, v1Normal) / Dot(v2, v1Normal);
        if u < 0.0 || u > 1.0 then None
        else Some(Add(d1A, Scale(v1, t)))
  }

  /** The point LineIntersectionLine returns lies on the first segment and on the line of the second. */
  lemma IntersectionOnBothLines(d1A: Vec, d1B: Vec, d2A: Vec, d2B: Vec)
    requires LineIntersectionLine(d1A, d1B, d2A, d2B).Some?
    ensures var p := LineIntersectionLine(d1A, d1B, d2A, d2B).value;
      (exists t: real :: 0.0 < t <= 1.0 && p == Add(d1A, Scale(Sub(d1B, d1A), t))) &&
      Dot(Sub(p, d2A), Perpendicular(Sub(d2B, d2A))) == 0.0
  {
    var v1 := Sub(d1B, d1A);
    var n2 := Perpendicular(Sub(d2B, d2A));
    var vb1 := Sub(d2A, d1A);
    var den := Dot(v1, n2);
    var num := Dot(vb1, n2);
    var t := num / den;
    var p := Add(d1A, Scale(v1, t));
    Reals.QuotientTimes(num, den, t);
    assert Dot(Sub(p, d2A), n2) == t * den - num by {
      assert Sub(p, d2A) == Sub(Scale(v1, t), vb1);
      assert Dot(Scale(v1, t), n2) == t * den;
    }
  }

  /** The edge from vertex i to its successor. */
  function Edge(poly: seq<Vertex>, i: nat): Vec
    requires i < |poly|
  {
    Sub(poly[(i + 1) % |poly|].pos, poly[i].pos)
  }

  /** The signed distance PointInPolygon computes for edge i, against the unit edge normal. */
  function PerpProjection(num: Numerics, point: Vec, poly: seq<Vertex>, i: nat): real
    requires i < |poly|
  {
    Dot(Sub(point, poly[i].pos), Perpendicular(Normalized(num, Edge(poly, i))))
  }

  /** QCollision::PointInPolygon: the point is on the non-positive side of every edge normal. */
  method PointInPolygon(num: Numerics, point: Vec, poly: seq<Vertex>) returns (inside: bool)
    ensures inside <==> forall i :: 0 <= i < |poly| ==> PerpProjection(num, point, poly, i) <= 0.0
  {
    var i := 0;
    while i < |poly|
      invariant 0 <= i <= |poly|
      invariant forall k :: 0 <= k < i ==> PerpProjection(num, point, poly, k) <= 0.0
    {
      var normal := Perpendicular(Normalized(num, Sub(poly[(i + 1) % |poly|].pos, poly[i].pos)));
      var perpProj := Dot(Sub(point, poly[i].pos), normal);
      if perpProj > 0.0 {
        assert PerpProjection(num, point, poly, i) > 0.0;
        return false;
      }
      i := i + 1;
    }
    return true;
  }

  /** The cross product of the vertex-to-point vector with the (unnormalized) edge. */
  function EdgeCross(point: Vec, poly: seq<Vertex>, i: nat): real
    requires i < |poly|
  {
    Dot(Sub(point, poly[i].pos), Perpendicular(Edge(poly, i)))
  }

  /** The normalization does not change the answer: the test is the sign of plain cross products. */
  lemma PointInPolygonByCross(num: Numerics, point: Vec, poly: seq<Vertex>)
    requires forall i :: 0 <= i < |poly| ==> LengthSquared(Edge(poly, i)) != 0.0
    ensures (forall i :: 0 <= i < |poly| ==> PerpProjection(num, point, poly, i) <= 0.0) <==>
            (forall i :: 0 <= i < |poly| ==> EdgeCross(point, poly, i) <= 0.0)
  {
    forall i | 0 <= i < |poly|
      ensures PerpProjection(num, point, poly, i) <= 0.0 <==> EdgeCross(point, poly, i) <= 0.0
    {
      var e := Edge(poly, i);
      var k := NormalizedFactor(num, e);
      var w := Sub(point, poly[i].pos);
      assert PerpProjection(num, point, poly, i) == k * EdgeCross(point, poly, i) by {
        assert Perpendicular(Scale(e, k)) == Scale(Perpendicular(e), k);
        DotLaws(Perpendicular(e), w, w, k);
      }
      Reals.PositiveScaleSign(k, EdgeCross(point, poly, i));
    }
  }

  /** Edge (i, j) of the crossing-number test crosses the horizontal ray to the right of the point. */
  predicate Crosses(point: Vec, a: Vec, b: Vec)
  {
    (point.y < a.y) != (point.y < b.y) &&
    point.x < (b.x - a.x) * (point.y - a.y) / (b.y - a.y) + a.x
  }

  /** How many of the edges (i, i - 1), i < n, cross the ray (vertex -1 being the last one). */
  function CrossingCount(point: Vec, poly: seq<Vertex>, n: nat): nat
    requires n <= |poly|
  {
    if n == 0 then 0
    else
      var j := if n - 1 == 0 then |poly| - 1 else n - 2;
      CrossingCount(point, poly, n - 1) + (if Crosses(point, poly[n - 1].pos, poly[j].pos) then 1 else 0)
  }

  /** QCollision::PointInPolygon2: crossing-number parity. */
  method PointInPolygon2(point: Vec, poly: seq<Vertex>) returns (c: bool)
    ensures c <==> CrossingCount(point, poly, |poly|) % 2 == 1
  {
    var nvert := |poly|;
    c := false;
    var i, j := 0, nvert - 1;
    while i < nvert
      invariant 0 <= i <= nvert
      invariant j == if i == 0 then nvert - 1 else i - 1
      invariant c <==> CrossingCount(point, poly, i) % 2 == 1
    {
      if Crosses(point, poly[i].pos, poly[j].pos) {
        c := !c;
      }
      j := i;
      i := i + 1;
    }
  }

  /** A point below every vertex crosses no edge, so it is outside. */
  lemma {:induction false} BelowPolygonIsOutside(point: Vec, poly: seq<Vertex>, n: nat)
    requires n <= |poly|
    requires forall k :: 0 <= k < |poly| ==> point.y < poly[k].pos.y
    ensures CrossingCount(point, poly, n) == 0
  {
    if n > 0 {
      BelowPolygonIsOutside(point, poly, n - 1);
    }
  }

  // ---------------------------------------------------------------- nearest and extreme vertices

  /** Whether FindNearestSideOfPolygon considers side i at all. */
  predicate SideConsidered(num: Numerics, point: Vec, poly: seq<Vertex>, i: nat,
                           checkSideRange: bool, checkNegativeDistance: bool)
    requires i < |poly|
  {
    var bridgeVec := Sub(point, poly[i].pos);
    var sideVec := Edge(poly, i);
    var proj := Dot(bridgeVec, Normalized(num, sideVec));
    (!checkSideRange || !(proj < 0.0 || proj > Length(num, sideVec))) &&
    (!checkNegativeDistance || EdgeCross(point, poly, i) <= 0.0)
  }

  /** QCollision::FindNearestSideOfPolygon: the side with the least |cross product| among those considered. */
  method FindNearestSideOfPolygon(num: Numerics, point: Vec, poly: seq<Vertex>,
                                  checkSideRange: bool, checkNegativeDistance: bool)
    returns (res: (int, int))
    ensures res == (-1, -1) || (0 <= res.0 < |poly| && res.1 == (res.0 + 1) % |poly|)
    ensures res != (-1, -1) ==>
      SideConsidered(num, point, poly, res.0, checkSideRange, checkNegativeDistance) &&
      Abs(EdgeCross(point, poly, res.0)) < MAX_WORLD_SIZE &&
      (forall j :: 0 <= j < |poly| && SideConsidered(num, point, poly, j, checkSideRange, checkNegativeDistance) ==>
         Abs(EdgeCross(point, poly, res.0)) <= Abs(EdgeCross(point, poly, j)))
    ensures res == (-1, -1) ==>
      forall j :: 0 <= j < |poly| && SideConsidered(num, point, poly, j, checkSideRange, checkNegativeDistance) ==>
        MAX_WORLD_SIZE <= Abs(EdgeCross(point, poly, j))
  {
    res := (-1, -1);
    var polygonSize := |poly|;
    var minDistance := MAX_WORLD_SIZE;
    for pi := 0 to polygonSize
      invariant res == (-1, -1) ==> minDistance == MAX_WORLD_SIZE
      invariant res != (-1, -1) ==>
        0 <= res.0 < pi && res.1 == (res.0 + 1) % polygonSize &&
        SideConsidered(num, point, poly, res.0, checkSideRange, checkNegativeDistance) &&
        minDistance == Abs(EdgeCross(point, poly, res.0)) && minDistance < MAX_WORLD_SIZE
      invariant forall j :: 0 <= j < pi && SideConsidered(num, point, poly, j, checkSideRange, checkNegativeDistance) ==>
        minDistance <= Abs(EdgeCross(point, poly, j))
    {
      var npi := (pi + 1) % polygonSize;
      var bridgeVec := Sub(point, poly[pi].pos);
      var sideVec := Sub(poly[npi].pos, poly[pi].pos);
      var sidePerp := Perpendicular(sideVec);
      if checkSideRange {
        var sideUnit := Normalized(num, sideVec);
        var proj := Dot(bridgeVec, sideUnit);
        if proj < 0.0 || proj > Length(num, sideVec) {
          continue;
        }
      }
      var dist := Dot(bridgeVec, sidePerp);
      if checkNegativeDistance && dist > 0.0 {
        continue;
      }
      if Abs(dist) < minDistance {
        res := (pi, npi);
        minDistance := Abs(dist);
      }
    }
  }

  /** Distance from the query particle to vertex i. */
  function VertexDistance(num: Numerics, particle: Vertex, poly: seq<Vertex>, i: nat): real
    requires i < |poly|
  {
    Length(num, Sub(particle.pos, poly[i].pos))
  }

  /** QCollision::FindNearestParticleOfPolygon: the nearest vertex that is not the query particle. */
  method FindNearestParticleOfPolygon(num: Numerics, particle: Vertex, poly: seq<Vertex>) returns (res: int)
    ensures 0 <= res && (|poly| > 0 ==> res < |poly|)
    ensures (exists i :: 0 <= i < |poly| && poly[i].key != particle.key &&
               VertexDistance(num, particle, poly, i) < MAX_WORLD_SIZE) ==>
      poly[res].key != particle.key &&
      forall j :: 0 <= j < |poly| && poly[j].key != particle.key ==>
        VertexDistance(num, particle, poly, res) <= VertexDistance(num, particle, poly, j)
    ensures (forall i :: 0 <= i < |poly| && poly[i].key != particle.key ==>
               MAX_WORLD_SIZE <= VertexDistance(num, particle, poly, i)) ==> res == 0
  {
    res := 0;
    var minDistance := MAX_WORLD_SIZE;
    var found := false;
    for i := 0 to |poly|
      invariant 0 <= res && (|poly| > 0 ==> res < |poly|)
      invariant !found ==> res == 0 && minDistance == MAX_WORLD_SIZE
      invariant found ==> res < i && poly[res].key != particle.key &&
                          minDistance == VertexDistance(num, particle, poly, res) && minDistance < MAX_WORLD_SIZE
      invariant forall j :: 0 <= j < i && poly[j].key != particle.key ==>
                  minDistance <= VertexDistance(num, particle, poly, j)
    {
      if poly[i].key == particle.key {
        continue;
      }
      var dist := Length(num, Sub(particle.pos, poly[i].pos));
      if dist < minDistance {
        minDistance := dist;
        res := i;
        found := true;
      }
    }
  }

  /** QCollision::FindExtremeParticleOfAxis: the first vertex with the greatest projection on the axis. */
  method FindExtremeParticleOfAxis(poly: seq<Vertex>, axisNormal: Vec) returns (res: int)
    ensures 0 <= res && (|poly| > 0 ==> res < |poly|)
    ensures (exists i :: 0 <= i < |poly| && -MAX_WORLD_SIZE < Distance(poly, axisNormal, i)) ==>
      (forall j :: 0 <= j < |poly| ==> Distance(poly, axisNormal, j) <= Distance(poly, axisNormal, res)) &&
      (forall j :: 0 <= j < res ==> Distance(poly, axisNormal, j) < Distance(poly, axisNormal, res))
    ensures (forall i :: 0 <= i < |poly| ==> Distance(poly, axisNormal, i) <= -MAX_WORLD_SIZE) ==> res == 0
  {
    res := 0;
    var maxDistance := -MAX_WORLD_SIZE;
    for i := 0 to |poly|
      invariant 0 <= res && (|poly| > 0 ==> res < |poly|)
      invariant maxDistance == -MAX_WORLD_SIZE ==> res == 0
      invariant maxDistance != -MAX_WORLD_SIZE ==>
        res < i && maxDistance == Distance(poly, axisNormal, res) && -MAX_WORLD_SIZE < maxDistance
      invariant forall j :: 0 <= j < i ==> Distance(poly, axisNormal, j) <= maxDistance
      invariant forall j :: 0 <= j < res ==> Distance(poly, axisNormal, j) < maxDistance
    {
      var proj := Dot(poly[i].pos, axisNormal);
      if proj > maxDistance {
        maxDistance := proj;
        res := i;
      }
    }
  }

  // ---------------------------------------------------------------- clipping

  /** The contact ClipContactParticles makes of incident vertex p against reference segment refSeg, if any. */
  function ClipCandidate(num: Numerics, refSeg: seq<Vertex>, p: Vertex): (r: Option<Contact>)
    requires |refSeg| == 2
    ensures r.Some? ==>
      var sv := Sub(refSeg[1].pos, refSeg[0].pos);
      var dist := Dot(Sub(p.pos, refSeg[0].pos), Perpendicular(Normalized(num, sv)));
      var proj := Dot(Sub(p.pos, refSeg[0].pos), Normalized(num, sv));
      dist <= 0.0 && 0.0 <= proj <= Length(num, sv) &&
      r.value == NewContact(p.key, p.pos, Perpendicular(Normalized(num, sv)), -dist, [refSeg[0].key, refSeg[1].key])
    ensures r.Some? ==> r.value.particle == p.key && 0.0 <= r.value.penetration && !r.value.solved
  {
    var sv := Sub(refSeg[1].pos, refSeg[0].pos);
    var len := Length(num, sv);
    var unit := Normalized(num, sv);
    var normal := Perpendicular(unit);
    var bv := Sub(p.pos, refSeg[0].pos);
    var dist := Dot(bv, normal);
    if dist <= 0.0 then
      var proj := Dot(bv, unit);
      if proj >= 0.0 && proj <= len then
        Some(NewContact(p.key, p.pos, normal, Abs(dist), [refSeg[0].key, refSeg[1].key]))
      else None
    else None
  }

  /** What one ClipContactParticles call appends: the candidates of both incident points, in order. */
  function Clipped(num: Numerics, refSeg: seq<Vertex>, incSeg: seq<Vertex>): (r: seq<Contact>)
    requires |refSeg| == 2 && |incSeg| == 2
    ensures |r| <= 2
    ensures forall c :: c in r ==>
      (c.particle == incSeg[0].key || c.particle == incSeg[1].key) && 0.0 <= c.penetration && !c.solved
  {
    var first, second := ClipCandidate(num, refSeg, incSeg[0]), ClipCandidate(num, refSeg, incSeg[1]);
    ToSeq(first) + ToSeq(second)
  }

  /** QCollision::ClipContactParticles: appends the contacts of the incident points that fall on the reference segment. */
  method ClipContactParticles(num: Numerics, refSeg: seq<Vertex>, incSeg: seq<Vertex>, contacts: seq<Contact>)
    returns (out: seq<Contact>)
    requires |refSeg| == 2 && |incSeg| == 2
    ensures out == contacts + Clipped(num, refSeg, incSeg)
  {
    var sv := Sub(refSeg[1].pos, refSeg[0].pos);
    var len := Length(num, sv);
    var unit := Normalized(num, sv);
    var normal := Perpendicular(unit);
    out := contacts;
    for i := 0 to 2
      invariant out == contacts + (if i == 0 then [] else ToSeq(ClipCandidate(num, refSeg, incSeg[0]))) +
                                  (if i <= 1 then [] else ToSeq(ClipCandidate(num, refSeg, incSeg[1])))
    {
      var p := incSeg[i];
      var bv := Sub(p.pos, refSeg[0].pos);
      var dist := Dot(bv, normal);
      if dist <= 0.0 {
        var proj := Dot(bv, unit);
        if proj >= 0.0 && proj <= len {
          out := out + [NewContact(p.key, p.pos, normal, Abs(dist), [refSeg[0].key, refSeg[1].key])];
        }
      }
    }
  }

  /**
   * The clipping step of PolygonAndPolygon as written: the second clip runs
   * only when the whole (shared) contact list is still empty.
   */
  function ClipPairAsWritten(contacts: seq<Contact>, first: seq<Contact>, second: seq<Contact>): seq<Contact>
  {
    var afterFirst := contacts + first;
    if |afterFirst| == 0 then afterFirst + second else afterFirst
  }

  /** The clipping step as intended: the second clip runs when the first one added nothing. */
  function ClipPair(contacts: seq<Contact>, first: seq<Contact>, second: seq<Contact>): (r: seq<Contact>)
    ensures r == contacts + (if first == [] then second else first)
  {
    var afterFirst := contacts + first;
    if first == [] then afterFirst + second else afterFirst
  }

  /** What the intended clipping adds does not depend on the contacts found earlier for other pairs. */
  lemma ClipPairIndependent(contacts: seq<Contact>, first: seq<Contact>, second: seq<Contact>)
    ensures ClipPair(contacts, first, second) == contacts + ClipPair([], first, second)
    ensures ClipPairAsWritten([], first, second) == ClipPair([], first, second)
  {
  }

  /** With a contact already in the list, the code as written drops the fallback contact. */
  lemma ClipPairAsWrittenDropsFallback(earlier: Contact, fallback: Contact)
    ensures ClipPairAsWritten([earlier], [], [fallback]) == [earlier]
    ensures ClipPair([earlier], [], [fallback]) == [earlier, fallback]
  {
  }

  // ---------------------------------------------------------------- polygon against polygon

  /** The unit normal of edge s of a polygon. */
  function EdgeNormal(num: Numerics, poly: seq<Vertex>, s: nat): Vec
    requires s < |poly|
  {
    Perpendicular(Normalized(num, Edge(poly, s)))
  }

  /** The Overlap PolygonAndPolygon computes for axis k: the edges of A first, then those of B. */
  function AxisOverlap(num: Numerics, polyA: seq<Vertex>, polyB: seq<Vertex>, k: nat): real
    requires k < |polyA| + |polyB|
  {
    var (refPoly, incPoly, s) := if k < |polyA| then (polyA, polyB, k) else (polyB, polyA, k - |polyA|);
    var normal := EdgeNormal(num, refPoly, s);
    Overlap(Projection(normal, refPoly, |refPoly|), Projection(normal, incPoly, |incPoly|))
  }

  /** The two candidate segments at a support point: (prev, here) or (here, next), whichever is less parallel to the normal. */
  function SupportSegment(poly: seq<Vertex>, support: int, refNormal: Vec): (r: seq<Vertex>)
    requires 0 <= support < |poly|
    ensures |r| == 2
  {
    var n := |poly|;
    var prev := ((support - 1) + n) % n;
    var next := (support + 1) % n;
    var option1 := Sub(poly[next].pos, poly[support].pos);
    var option2 := Sub(poly[support].pos, poly[prev].pos);
    if Abs(Dot(option2, refNormal)) < Abs(Dot(option1, refNormal)) then [poly[prev], poly[support]]
    else [poly[support], poly[next]]
  }

  /** How parallel to the normal the chosen segment is. */
  function SegmentParallelRate(seg: seq<Vertex>, refNormal: Vec): real
    requires |seg| == 2
  {
    Abs(Dot(Sub(seg[1].pos, seg[0].pos), refNormal))
  }

  /**
   * QCollision::PolygonAndPolygon: separating-axis test over every edge normal
   * of both polygons, then edge clipping at the support points. The clipping
   * fallback is the intended one (ClipPair); see ClipPairAsWritten.
   */
  method PolygonAndPolygon(num: Numerics, polyA: seq<Vertex>, polyB: seq<Vertex>, contacts: seq<Contact>)
    returns (out: seq<Contact>)
    requires |polyA| > 0 && |polyB| > 0
    ensures (exists k :: 0 <= k < |polyA| + |polyB| && AxisOverlap(num, polyA, polyB, k) >= 0.0) ==> out == contacts
    ensures !(exists k :: 0 <= k < |polyA| + |polyB| && AxisOverlap(num, polyA, polyB, k) >= 0.0) ==>
              exists refNormal :: IsReferenceNormal(num, polyA, polyB, refNormal) &&
                                  out == ClipAt(num, polyA, polyB, refNormal, contacts)
    ensures |contacts| <= |out| <= |contacts| + 2 && out[..|contacts|] == contacts
  {
    var separated, refNormal := ReferenceAxis(num, polyA, polyB);
    if separated {
      return contacts;
    }
    out := ClipAtSupports(num, polyA, polyB, refNormal, contacts);
  }

  /**
   * The axis loop of PolygonAndPolygon: reports a separating axis, or else the
   * edge normal of least penetration (the first one on ties).
   */
  method ReferenceAxis(num: Numerics, polyA: seq<Vertex>, polyB: seq<Vertex>) returns (separated: bool, refNormal: Vec)
    requires |polyA| > 0 && |polyB| > 0
    ensures separated <==> exists k :: 0 <= k < |polyA| + |polyB| && AxisOverlap(num, polyA, polyB, k) >= 0.0
    ensures !separated ==> IsReferenceNormal(num, polyA, polyB, refNormal)
  {
    var sizeA, sizeB := |polyA|, |polyB|;
    var totalPointCount := sizeA + sizeB;
    var refIsA := true;
    var minPenetration := MAX_WORLD_SIZE;
    refNormal := Zero();
    var s := 0;
    ghost var ovs, normals := Overlaps(num, polyA, polyB), Normals(num, polyA, polyB);
    ghost var best := -1;
    for p := 0 to totalPointCount
      invariant Scanning(ovs, normals, sizeA, p, refIsA, s, best, minPenetration, refNormal)
    {
      var hit;
      hit, refIsA, s, minPenetration, refNormal, best :=
        AxisTurn(num, polyA, polyB, p, refIsA, s, minPenetration, refNormal, ovs, normals, best);
      if hit {
        return true, refNormal;
      }
    }
    separated := false;
    TrackingEnd(num, polyA, polyB, best, minPenetration);
  }

  /**
   * The state of the axis loop before turn p, over the overlaps and normals
   * of every axis: which polygon gives the edges, the edge index, no
   * separating axis so far, and the running minimum with the normal of its
   * axis.
   */
  ghost predicate Scanning(ovs: seq<real>, normals: seq<Vec>, sizeA: nat, p: nat, refIsA: bool, s: nat,
                           best: int, minPen: real, refNormal: Vec)
  {
    p <= |ovs| == |normals| && sizeA <= |ovs| &&
    (refIsA <==> p <= sizeA) &&
    s == (if p <= sizeA then p else p - sizeA) &&
    (forall k :: 0 <= k < p ==> ovs[k] < 0.0) &&
    Tracking(ovs, p, best, minPen) &&
    (best == -1 ==> refNormal == Zero()) &&
    (0 <= best ==> refNormal == normals[best])
  }

  /** The normal of every axis, in axis order. */
  function Normals(num: Numerics, polyA: seq<Vertex>, polyB: seq<Vertex>): (r: seq<Vec>)
    ensures |r| == |polyA| + |polyB|
    ensures forall k :: 0 <= k < |r| ==> r[k] == AxisNormal(num, polyA, polyB, k)
  {
    seq(|polyA| + |polyB|, k requires 0 <= k < |polyA| + |polyB| => AxisNormal(num, polyA, polyB, k))
  }

  /**
   * One turn of the axis loop: switch to B's edges once A's are done, probe
   * the axis, stop on a separating one, else keep the smaller penetration.
   */
  method AxisTurn(num: Numerics, polyA: seq<Vertex>, polyB: seq<Vertex>, p: nat, refIsA: bool, s: nat,
                  minPen: real, refNormal: Vec, ghost ovs: seq<real>, ghost normals: seq<Vec>, ghost best: int)
    returns (hit: bool, refIsA': bool, s': nat, minPen': real, refNormal': Vec, ghost best': int)
    requires ovs == Overlaps(num, polyA, polyB) && normals == Normals(num, polyA, polyB)
    requires p < |polyA| + |polyB| && Scanning(ovs, normals, |polyA|, p, refIsA, s, best, minPen, refNormal)
    ensures hit <==> AxisOverlap(num, polyA, polyB, p) >= 0.0
    ensures !hit ==> Scanning(ovs, normals, |polyA|, p + 1, refIsA', s', best', minPen', refNormal')
  {
    refIsA', s', minPen', refNormal', best' := refIsA, s, minPen, refNormal, best;
    if p >= |polyA| && refIsA' {
      refIsA' := false;
      s' := 0;
    }
    var penetration, sNormal := ProbeAxis(num, polyA, polyB, p, refIsA', s');
    assert penetration == ovs[p] && sNormal == normals[p];
    if penetration >= 0.0 {
      return true, refIsA', s', minPen', refNormal', best';
    }
    hit := false;
    ScanningStep(ovs, normals, |polyA|, p, refIsA, s, best, minPen, refNormal);
    penetration := Abs(penetration);
    if penetration < minPen' {
      minPen' := penetration;
      refNormal' := sNormal;
      best' := p;
    }
    s' := s' + 1;
  }

  /** A turn of the axis loop over an axis that does not separate keeps Scanning, with the smaller penetration kept. */
  lemma ScanningStep(ovs: seq<real>, normals: seq<Vec>, sizeA: nat, p: nat, refIsA: bool, s: nat,
                     best: int, minPen: real, refNormal: Vec)
    requires p < |ovs| && Scanning(ovs, normals, sizeA, p, refIsA, s, best, minPen, refNormal) && ovs[p] < 0.0
    ensures var s' := (if p >= sizeA && refIsA then 0 else s) + 1;
            if Abs(ovs[p]) < minPen then Scanning(ovs, normals, sizeA, p + 1, p + 1 <= sizeA, s', p, Abs(ovs[p]), normals[p])
            else Scanning(ovs, normals, sizeA, p + 1, p + 1 <= sizeA, s', best, minPen, refNormal)
  {
    TrackingStep(ovs, p, best, minPen);
  }

  /** The overlap along every axis, in axis order. */
  function Overlaps(num: Numerics, polyA: seq<Vertex>, polyB: seq<Vertex>): (r: seq<real>)
    ensures |r| == |polyA| + |polyB|
    ensures forall k :: 0 <= k < |r| ==> r[k] == AxisOverlap(num, polyA, polyB, k)
  {
    seq(|polyA| + |polyB|, k requires 0 <= k < |polyA| + |polyB| => AxisOverlap(num, polyA, polyB, k))
  }

  /**
   * After the first p overlaps, the axis loop's running minimum penetration is
   * MAX_WORLD_SIZE with no best axis when none was below it, and otherwise
   * that of the first axis of least penetration so far.
   */
  ghost predicate Tracking(ovs: seq<real>, p: nat, best: int, minPen: real)
  {
    p <= |ovs| && -1 <= best < p &&
    (best == -1 ==> minPen == MAX_WORLD_SIZE && forall k :: 0 <= k < p ==> MAX_WORLD_SIZE <= Abs(ovs[k])) &&
    (best >= 0 ==> minPen == Abs(ovs[best]) < MAX_WORLD_SIZE &&
                   (forall j :: 0 <= j < best ==> minPen < Abs(ovs[j])) &&
                   (forall j :: best < j < p ==> minPen <= Abs(ovs[j])))
  }

  /** One turn of the minimum search: a strictly smaller penetration takes over, any other leaves the best axis. */
  lemma TrackingStep(ovs: seq<real>, p: nat, best: int, minPen: real)
    requires Tracking(ovs, p, best, minPen) && p < |ovs|
    ensures Abs(ovs[p]) < minPen ==> Tracking(ovs, p + 1, p, Abs(ovs[p]))
    ensures !(Abs(ovs[p]) < minPen) ==> Tracking(ovs, p + 1, best, minPen)
  {
  }

  /**
   * When the loop ends without a separating axis: no overlap is nonnegative,
   * and the kept normal is the reference normal.
   */
  lemma TrackingEnd(num: Numerics, polyA: seq<Vertex>, polyB: seq<Vertex>, best: int, minPen: real)
    requires Tracking(Overlaps(num, polyA, polyB), |polyA| + |polyB|, best, minPen)
    requires forall k :: 0 <= k < |polyA| + |polyB| ==> Overlaps(num, polyA, polyB)[k] < 0.0
    ensures !exists k :: 0 <= k < |polyA| + |polyB| && AxisOverlap(num, polyA, polyB, k) >= 0.0
    ensures best == -1 ==> IsReferenceNormal(num, polyA, polyB, Zero())
    ensures best >= 0 ==> IsReferenceNormal(num, polyA, polyB, AxisNormal(num, polyA, polyB, best))
  {
    var ovs := Overlaps(num, polyA, polyB);
    assert forall j :: 0 <= j < |ovs| ==> ovs[j] == AxisOverlap(num, polyA, polyB, j);
    if best >= 0 {
      assert LeastAxis(num, polyA, polyB, best);
    }
  }

  /** The normal of axis k, in the order of AxisOverlap: the edges of A first, then those of B. */
  function AxisNormal(num: Numerics, polyA: seq<Vertex>, polyB: seq<Vertex>, k: nat): Vec
    requires k < |polyA| + |polyB|
  {
    if k < |polyA| then EdgeNormal(num, polyA, k) else EdgeNormal(num, polyB, k - |polyA|)
  }

  /** Axis k penetrates least: below MAX_WORLD_SIZE, strictly less than every earlier axis, no more than every later one. */
  predicate LeastAxis(num: Numerics, polyA: seq<Vertex>, polyB: seq<Vertex>, k: nat)
    requires k < |polyA| + |polyB|
  {
    var pen := Abs(AxisOverlap(num, polyA, polyB, k));
    pen < MAX_WORLD_SIZE &&
    (forall j :: 0 <= j < k ==> pen < Abs(AxisOverlap(num, polyA, polyB, j))) &&
    (forall j :: k < j < |polyA| + |polyB| ==> pen <= Abs(AxisOverlap(num, polyA, polyB, j)))
  }

  /**
   * The normal the axis loop keeps when no axis separates: that of the first
   * axis of least penetration, or Zero() when no penetration is below
   * MAX_WORLD_SIZE.
   */
  ghost predicate IsReferenceNormal(num: Numerics, polyA: seq<Vertex>, polyB: seq<Vertex>, refNormal: Vec)
  {
    (refNormal == Zero() &&
     forall k :: 0 <= k < |polyA| + |polyB| ==> MAX_WORLD_SIZE <= Abs(AxisOverlap(num, polyA, polyB, k))) ||
    (exists k :: 0 <= k < |polyA| + |polyB| && LeastAxis(num, polyA, polyB, k) && refNormal == AxisNormal(num, polyA, polyB, k))
  }

  /** At most one axis penetrates least. */
  lemma LeastAxisUnique(num: Numerics, polyA: seq<Vertex>, polyB: seq<Vertex>, k1: nat, k2: nat)
    requires k1 < |polyA| + |polyB| && k2 < |polyA| + |polyB|
    requires LeastAxis(num, polyA, polyB, k1) && LeastAxis(num, polyA, polyB, k2)
    ensures k1 == k2
  {
  }

  /** The reference normal is determined by the two polygons. */
  lemma ReferenceNormalUnique(num: Numerics, polyA: seq<Vertex>, polyB: seq<Vertex>, n1: Vec, n2: Vec)
    requires IsReferenceNormal(num, polyA, polyB, n1) && IsReferenceNormal(num, polyA, polyB, n2)
    ensures n1 == n2
  {
    var n := |polyA| + |polyB|;
    if exists k :: 0 <= k < n && LeastAxis(num, polyA, polyB, k) && n1 == AxisNormal(num, polyA, polyB, k) {
      var k1 :| 0 <= k1 < n && LeastAxis(num, polyA, polyB, k1) && n1 == AxisNormal(num, polyA, polyB, k1);
      if exists k :: 0 <= k < n && LeastAxis(num, polyA, polyB, k) && n2 == AxisNormal(num, polyA, polyB, k) {
        var k2 :| 0 <= k2 < n && LeastAxis(num, polyA, polyB, k2) && n2 == AxisNormal(num, polyA, polyB, k2);
        LeastAxisUnique(num, polyA, polyB, k1, k2);
      }
    }
  }

  /** One turn of the axis loop: the edge normal `s` of the reference polygon and the overlap along it, which is axis p's. */
  method ProbeAxis(num: Numerics, polyA: seq<Vertex>, polyB: seq<Vertex>, p: nat, refIsA: bool, s: nat)
    returns (penetration: real, sNormal: Vec)
    requires p < |polyA| + |polyB| && (refIsA <==> p < |polyA|)
    requires s == if refIsA then p else p - |polyA|
    ensures penetration == AxisOverlap(num, polyA, polyB, p)
    ensures sNormal == EdgeNormal(num, if refIsA then polyA else polyB, s)
    ensures sNormal == AxisNormal(num, polyA, polyB, p)
  {
    var refPolygon := if refIsA then polyA else polyB;
    var incPolygon := if refIsA then polyB else polyA;
    sNormal := EdgeNormal(num, refPolygon, s);
    var refProject := ProjectToAxis(sNormal, refPolygon);
    var incProject := ProjectToAxis(sNormal, incPolygon);
    penetration := Overlap(refProject, incProject);
  }

  /**
   * The clipping half of PolygonAndPolygon: picks the support segments of both
   * polygons along refNormal and clips each against the other.
   */
  method ClipAtSupports(num: Numerics, polyA: seq<Vertex>, polyB: seq<Vertex>, refNormal: Vec, contacts: seq<Contact>)
    returns (out: seq<Contact>)
    requires |polyA| > 0 && |polyB| > 0
    ensures out == ClipAt(num, polyA, polyB, refNormal, contacts)
    ensures |contacts| <= |out| <= |contacts| + 2 && out[..|contacts|] == contacts
  {
    var refSeg, incSeg := SupportSegments(polyA, polyB, refNormal);
    var afterFirst := ClipContactParticles(num, refSeg, incSeg, contacts);
    out := afterFirst;
    if afterFirst == contacts {
      out := ClipContactParticles(num, incSeg, refSeg, afterFirst);
    }
  }

  /**
   * The segment choice of PolygonAndPolygon: the support points of both
   * polygons along refNormal, their support segments, and the less parallel
   * of the two as the reference.
   */
  method SupportSegments(polyA: seq<Vertex>, polyB: seq<Vertex>, refNormal: Vec) returns (refSeg: seq<Vertex>, incSeg: seq<Vertex>)
    requires |polyA| > 0 && |polyB| > 0
    ensures (refSeg, incSeg) == ClipSegments(polyA, polyB, refNormal)
  {
    var sizeA, sizeB := |polyA|, |polyB|;
    var supportProjectA := ProjectToAxis(refNormal, polyA);
    var supportProjectB := ProjectToAxis(refNormal, polyB);
    ProjectionBounds(refNormal, polyA, sizeA);
    ProjectionBounds(refNormal, polyB, sizeB);
    var supportPointAIndex := supportProjectA.maxIndex;
    var supportPointBIndex := supportProjectB.minIndex;
    if supportProjectB.min < supportProjectA.min {
      supportPointAIndex := supportProjectA.minIndex;
      supportPointBIndex := supportProjectB.maxIndex;
    }
    assert (supportPointAIndex, supportPointBIndex) == SupportIndices(polyA, polyB, refNormal);
    var segmentA := SupportSegment(polyA, supportPointAIndex, refNormal);
    var segmentB := SupportSegment(polyB, supportPointBIndex, refNormal);
    refSeg, incSeg := segmentA, segmentB;
    if SegmentParallelRate(segmentB, refNormal) < SegmentParallelRate(segmentA, refNormal) {
      refSeg, incSeg := segmentB, segmentA;
    }
  }

  /**
   * The support points along refNormal: A's farthest and B's nearest vertex,
   * or A's nearest and B's farthest when B reaches lower than A.
   */
  function SupportIndices(polyA: seq<Vertex>, polyB: seq<Vertex>, refNormal: Vec): (r: (nat, nat))
    requires |polyA| > 0 && |polyB| > 0
    ensures r.0 < |polyA| && r.1 < |polyB|
  {
    ProjectionBounds(refNormal, polyA, |polyA|);
    ProjectionBounds(refNormal, polyB, |polyB|);
    var pa, pb := Projection(refNormal, polyA, |polyA|), Projection(refNormal, polyB, |polyB|);
    if pb.min < pa.min then (pa.minIndex, pb.maxIndex) else (pa.maxIndex, pb.minIndex)
  }

  /**
   * The reference and incident segments, in that order: of the two support
   * segments the one less parallel to refNormal is the reference, A's on ties.
   */
  function ClipSegments(polyA: seq<Vertex>, polyB: seq<Vertex>, refNormal: Vec): (r: (seq<Vertex>, seq<Vertex>))
    requires |polyA| > 0 && |polyB| > 0
    ensures |r.0| == 2 && |r.1| == 2
    ensures SegmentParallelRate(r.0, refNormal) <= SegmentParallelRate(r.1, refNormal)
    ensures var (ia, ib) := SupportIndices(polyA, polyB, refNormal);
      var segA, segB := SupportSegment(polyA, ia, refNormal), SupportSegment(polyB, ib, refNormal);
      r == (segA, segB) || r == (segB, segA)
  {
    var (ia, ib) := SupportIndices(polyA, polyB, refNormal);
    var segA, segB := SupportSegment(polyA, ia, refNormal), SupportSegment(polyB, ib, refNormal);
    if SegmentParallelRate(segB, refNormal) < SegmentParallelRate(segA, refNormal) then (segB, segA) else (segA, segB)
  }

  /**
   * The contacts the clipping half of PolygonAndPolygon leaves: the incident
   * segment clipped against the reference one, and the reverse clip only when
   * the first adds nothing (ClipPair).
   */
  function ClipAt(num: Numerics, polyA: seq<Vertex>, polyB: seq<Vertex>, refNormal: Vec, contacts: seq<Contact>): (r: seq<Contact>)
    requires |polyA| > 0 && |polyB| > 0
    ensures var (refSeg, incSeg) := ClipSegments(polyA, polyB, refNormal);
      r == ClipPair(contacts, Clipped(num, refSeg, incSeg), Clipped(num, incSeg, refSeg))
    ensures |contacts| <= |r| <= |contacts| + 2 && r[..|contacts|] == contacts
  {
    var (refSeg, incSeg) := ClipSegments(polyA, polyB, refNormal);
    ClipPair(contacts, Clipped(num, refSeg, incSeg), Clipped(num, incSeg, refSeg))
  }

  // ---------------------------------------------------------------- circles

  /**
   * The per-pair step of QCollision::CircleAndCircle: a contact on pB with
   * reference pA when the centres are closer than the sum of the radii. A
   * nonzero specifiedRadius replaces both radii.
   */
  function CircleContact(num: Numerics, pA: Vertex, radiusA: real, prevA: Vec, pB: Vertex, radiusB: real, prevB: Vec,
                         specifiedRadius: real, velocitySensitive: bool): (r: Option<Contact>)
    ensures r.Some? ==> r.value.particle == pB.key && r.value.referenceParticles == [pA.key] && !r.value.solved
  {
    var rA := if specifiedRadius != 0.0 then specifiedRadius else radiusA;
    var rB := if specifiedRadius != 0.0 then specifiedRadius else radiusB;
    var totalRadius := rA + rB;
    var distVec := Sub(pB.pos, pA.pos);
    var positionalPenetrationSq := LengthSquared(distVec);
    if positionalPenetrationSq < totalRadius * totalRadius then
      var positionalPenetration := num.sqrt(positionalPenetrationSq);
      var normal := if velocitySensitive then Normalized(num, Sub(prevB, prevA)) else Normalized(num, distVec);
      var penetration := totalRadius - positionalPenetration;
      Some(NewContact(pB.key, Add(pA.pos, Scale(normal, rA)), normal, penetration, [pA.key]))
    else None
  }

  /**
   * A contact is emitted exactly when the squared distance is below the squared
   * total radius, and then (with an exact square root and nonnegative radii)
   * its penetration rA + rB - distance is positive.
   */
  lemma CircleContactPenetration(num: Numerics, pA: Vertex, radiusA: real, prevA: Vec, pB: Vertex, radiusB: real,
                                 prevB: Vec, velocitySensitive: bool)
    requires 0.0 <= radiusA + radiusB
    requires ExactSqrt(num, LengthSquared(Sub(pB.pos, pA.pos)))
    ensures var r := CircleContact(num, pA, radiusA, prevA, pB, radiusB, prevB, 0.0, velocitySensitive);
      (r.Some? <==> LengthSquared(Sub(pB.pos, pA.pos)) < (radiusA + radiusB) * (radiusA + radiusB)) &&
      (r.Some? ==> r.value.penetration == radiusA + radiusB - Length(num, Sub(pB.pos, pA.pos)) &&
                   0.0 < r.value.penetration)
  {
    var distSq := LengthSquared(Sub(pB.pos, pA.pos));
    var total := radiusA + radiusB;
    if distSq < total * total {
      var d := num.sqrt(distSq);
      Reals.SquareMonotone(d, total);
    }
  }
}
