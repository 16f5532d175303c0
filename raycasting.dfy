/**
 * The queries of QRaycast (qraycast.cpp) on a snapshot of the world: which
 * bodies a ray can reach (GetPotentialBodies), the hit of the ray on one
 * mesh's particles (RaycastToParticles) or closed polygons
 * (RaycastToPolygon), and the hits on every reachable body sorted by
 * distance (RaycastTo). The engine hands in each body's box, and for each
 * of its meshes either the particles as discs or the closed polygons as
 * global vertex positions; the body itself is an opaque handle of type B.
 */
module Raycasting {
  import opened Vectors
  import opened AABBs
  import opened Options
  import Collision

  /** QWorld::MAX_WORLD_SIZE, the "nothing found yet" distance of both hit searches. */
  const MAX_WORLD_SIZE: real := Collision.MAX_WORLD_SIZE

  /** What one mesh offers a ray, by its collision behaviour: discs (CIRCLES), polygons (POLYGONS), nothing (POLYLINE). */
  datatype Shape = CircleShape(discs: seq<Disc>) | PolygonShape(polygons: seq<seq<Vec>>) | NoShape

  /** A body as the raycast sees it. */
  datatype Target<B> = Target(body: B, aabb: AABB, meshes: seq<Shape>)

  /** QRaycast::Contact. */
  datatype Contact<B> = Contact(body: B, position: Vec, normal: Vec, distance: real)

  /** The ray with the unit vector and normal RaycastTo derives from it, and the containing-bodies option. */
  datatype Ray = Ray(position: Vec, vector: Vec, unit: Vec, normal: Vec, containing: bool)

  function MakeRay(num: Numerics, rayPosition: Vec, rayVector: Vec, enableContainingBodies: bool): (r: Ray)
    ensures r.position == rayPosition && r.vector == rayVector && r.containing == enableContainingBodies
    ensures r.normal == Perpendicular(r.unit)
  {
    var rayUnit := Normalized(num, rayVector);
    Ray(rayPosition, rayVector, rayUnit, Perpendicular(rayUnit), enableContainingBodies)
  }

  // ------------------------------------------------------------------ candidate bodies

  /**
   * The box test of GetPotentialBodies: on each axis the box must meet the
   * span from the ray's origin to its end, the comparison depending on the
   * sign of the ray on that axis.
   */
  predicate Reachable(aabb: AABB, rayPosition: Vec, rayVector: Vec)
  {
    var rayEnd := Add(rayPosition, rayVector);
    (if rayVector.x < 0.0 then !(aabb.minPos.x > rayPosition.x || aabb.maxPos.x < rayEnd.x)
     else !(aabb.maxPos.x < rayPosition.x || aabb.minPos.x > rayEnd.x)) &&
    (if rayVector.y < 0.0 then !(aabb.minPos.y > rayPosition.y || aabb.maxPos.y < rayEnd.y)
     else !(aabb.maxPos.y < rayPosition.y || aabb.minPos.y > rayEnd.y))
  }

  /** The box spanned by the ray's origin and end. */
  function SegmentBox(rayPosition: Vec, rayVector: Vec): (b: AABB)
    ensures Valid(b)
  {
    var e := Add(rayPosition, rayVector);
    Make(Vec(if e.x < rayPosition.x then e.x else rayPosition.x, if e.y < rayPosition.y then e.y else rayPosition.y),
         Vec(if e.x < rayPosition.x then rayPosition.x else e.x, if e.y < rayPosition.y then rayPosition.y else e.y))
  }

  /** The sign-aware test is exactly "the body's box meets the ray's box". */
  lemma ReachableIffColliding(aabb: AABB, rayPosition: Vec, rayVector: Vec)
    ensures Reachable(aabb, rayPosition, rayVector) <==> IsCollidingWith(aabb, SegmentBox(rayPosition, rayVector))
  {
  }

  /** The reachable targets, in world order. */
  function Potentials<B>(targets: seq<Target<B>>, rayPosition: Vec, rayVector: Vec): (r: seq<Target<B>>)
    ensures forall t :: t in r ==> t in targets && Reachable(t.aabb, rayPosition, rayVector)
    ensures forall t :: t in targets && Reachable(t.aabb, rayPosition, rayVector) ==> t in r
    ensures |r| <= |targets|
  {
    if targets == [] then []
    else
      var last := targets[|targets| - 1];
      assert targets == targets[..|targets| - 1] + [last];
      Potentials(targets[..|targets| - 1], rayPosition, rayVector) +
      (if Reachable(last.aabb, rayPosition, rayVector) then [last] else [])
  }

  /**
   * GetPotentialBodies: the bodies whose boxes the ray's box meets, in
   * world order. The layer mask is a parameter the source never reads, so
   * it does not occur in the result.
   */
  method GetPotentialBodies<B>(targets: seq<Target<B>>, rayPosition: Vec, rayVector: Vec, collidableLayers: int)
    returns (res: seq<Target<B>>)
    ensures res == Potentials(targets, rayPosition, rayVector)
  {
    res := [];
    var rayEndPosition := Add(rayPosition, rayVector);
    var isRayToNegativeX := rayVector.x < 0.0;
    var isRayToNegativeY := rayVector.y < 0.0;
    for i := 0 to |targets|
      invariant res == Potentials(targets[..i], rayPosition, rayVector)
    {
      assert targets[..i + 1][..i] == targets[..i];
      var body := targets[i];
      if isRayToNegativeX {
        if body.aabb.minPos.x > rayPosition.x || body.aabb.maxPos.x < rayEndPosition.x {
          continue;
        }
      } else {
        if body.aabb.maxPos.x < rayPosition.x || body.aabb.minPos.x > rayEndPosition.x {
          continue;
        }
      }
      if isRayToNegativeY {
        if body.aabb.minPos.y > rayPosition.y || body.aabb.maxPos.y < rayEndPosition.y {
          continue;
        }
      } else {
        if body.aabb.maxPos.y < rayPosition.y || body.aabb.minPos.y > rayEndPosition.y {
          continue;
        }
      }
      res := res + [body];
    }
    assert targets[..|targets|] == targets;
  }

  // ------------------------------------------------------------------ hits on particles

  /** The running best hit of a search: whether one was found, its distance, point and normal. */
  datatype Near = Near(found: bool, distance: real, position: Vec, normal: Vec)

  function Start(): Near
  {
    Near(false, MAX_WORLD_SIZE, Zero(), Zero())
  }

  /** The projection of the disc's centre on the ray. */
  function Along(d: Disc, ray: Ray): real
  {
    Dot(Sub(d.pos, ray.position), ray.unit)
  }

  /**
   * Where the ray enters the disc: None when the centre is a radius or more
   * off the ray's line or the disc lies beyond either end of the ray; an
   * entry point at or behind the origin becomes the origin itself when
   * containing bodies are enabled and is dropped otherwise.
   */
  function DiscEntry(num: Numerics, d: Disc, ray: Ray): Option<Vec>
  {
    if Crosses(num, d, ray) then
      var contactPosition := EntryPoint(num, d, ray);
      if Dot(Sub(contactPosition, ray.position), ray.unit) <= 0.0 then (if ray.containing then Some(ray.position) else None)
      else Some(contactPosition)
    else None
  }

  /** The centre lies less than a radius off the ray's line, and its projection within a radius of the segment. */
  predicate Crosses(num: Numerics, d: Disc, ray: Ray)
  {
    var perpProj := Dot(Sub(d.pos, ray.position), ray.normal);
    Abs(perpProj) < d.radius && Along(d, ray) >= -d.radius && Along(d, ray) <= Length(num, ray.vector) + d.radius
  }

  /** The nearer point where the ray's line meets the circle: back from the centre's projection by half the chord. */
  function EntryPoint(num: Numerics, d: Disc, ray: Ray): Vec
  {
    var perpProj := Dot(Sub(d.pos, ray.position), ray.normal);
    var projPosOnRay := Add(ray.position, Scale(ray.unit, Along(d, ray)));
    Sub(projPosOnRay, Scale(ray.unit, HalfChord(num, d.radius, perpProj)))
  }

  /** Half the chord a line cuts from a circle of the given radius at the given distance from its centre. */
  function HalfChord(num: Numerics, radius: real, offset: real): real
  {
    num.sqrt(radius * radius - offset * offset)
  }

  /**
   * One particle of RaycastToParticles: skipped when its near edge lies
   * beyond the best distance so far; otherwise a disc the ray enters
   * becomes the best hit, at the distance of its centre's projection.
   */
  function DiscStep(num: Numerics, st: Near, d: Disc, ray: Ray): Near
  {
    if Along(d, ray) - d.radius > st.distance then st
    else match DiscEntry(num, d, ray)
      case None => st
      case Some(c) => Near(true, Along(d, ray), c, Normalized(num, Sub(c, d.pos)))
  }

  /** The search state after the first n particles. */
  function DiscScan(num: Numerics, discs: seq<Disc>, n: nat, ray: Ray): Near
    requires n <= |discs|
  {
    if n == 0 then Start() else DiscStep(num, DiscScan(num, discs, n - 1, ray), discs[n - 1], ray)
  }

  /** The contact RaycastToParticles pushes, if any. */
  function ParticleHit<B>(num: Numerics, body: B, discs: seq<Disc>, ray: Ray): Option<Contact<B>>
  {
    var st := DiscScan(num, discs, |discs|, ray);
    if st.found then Some(Contact(body, st.position, st.normal, st.distance)) else None
  }

  /** RaycastToParticles: at most one contact for the mesh, the best hit of the scan. */
  method RaycastToParticles<B>(num: Numerics, body: B, discs: seq<Disc>, rayPosition: Vec, rayVector: Vec,
                               rayUnit: Vec, rayNormal: Vec, enableContainingBodies: bool,
                               contacts: seq<Contact<B>>)
    returns (result: seq<Contact<B>>)
    ensures result == contacts +
              ToSeq(ParticleHit(num, body, discs, Ray(rayPosition, rayVector, rayUnit, rayNormal, enableContainingBodies)))
  {
    ghost var ray := Ray(rayPosition, rayVector, rayUnit, rayNormal, enableContainingBodies);
    var nearFound := false;
    var nearDistance := MAX_WORLD_SIZE;
    var nearContactPosition := Zero();
    var nearContactNormal := Zero();
    for i := 0 to |discs|
      invariant Near(nearFound, nearDistance, nearContactPosition, nearContactNormal) == DiscScan(num, discs, i, ray)
    {
      nearFound, nearDistance, nearContactPosition, nearContactNormal :=
        ConsiderParticle(num, discs[i], rayPosition, rayVector, rayUnit, rayNormal, enableContainingBodies,
                         nearFound, nearDistance, nearContactPosition, nearContactNormal);
    }
    result := contacts;
    if !nearFound {
      return;
    }
    result := result + [Contact(body, nearContactPosition, nearContactNormal, nearDistance)];
  }

  /** The body of RaycastToParticles' loop, for one particle. */
  method ConsiderParticle(num: Numerics, p: Disc, rayPosition: Vec, rayVector: Vec, rayUnit: Vec, rayNormal: Vec,
                          enableContainingBodies: bool, found0: bool, distance0: real, position0: Vec, normal0: Vec)
    returns (nearFound: bool, nearDistance: real, nearContactPosition: Vec, nearContactNormal: Vec)
    ensures Near(nearFound, nearDistance, nearContactPosition, nearContactNormal) ==
              DiscStep(num, Near(found0, distance0, position0, normal0), p,
                       Ray(rayPosition, rayVector, rayUnit, rayNormal, enableContainingBodies))
  {
    ghost var ray := Ray(rayPosition, rayVector, rayUnit, rayNormal, enableContainingBodies);
    ghost var entry := DiscEntry(num, p, ray);
    nearFound, nearDistance, nearContactPosition, nearContactNormal := found0, distance0, position0, normal0;
    var bridge := Sub(p.pos, rayPosition);
    var proj := Dot(bridge, rayUnit);
    if proj - p.radius > nearDistance {
      return;
    }
    var perpProj := Dot(bridge, rayNormal);
    if Abs(perpProj) < p.radius && (proj >= -p.radius && proj <= Length(num, rayVector) + p.radius) {
      var projPosOnRay := Add(rayPosition, Scale(rayUnit, proj));
      var hipotenus := HalfChord(num, p.radius, perpProj);
      var contactPosition := Sub(projPosOnRay, Scale(rayUnit, hipotenus));
      var nProj := Dot(Sub(contactPosition, rayPosition), rayUnit);
      assert Crosses(num, p, ray);
      assert contactPosition == EntryPoint(num, p, ray);
      if enableContainingBodies {
        if nProj <= 0.0 {
          contactPosition := rayPosition;
        }
      } else {
        if nProj <= 0.0 {
          return;
        }
      }
      assert entry == Some(contactPosition);
      nearDistance := proj;
      nearFound := true;
      nearContactPosition := contactPosition;
      nearContactNormal := Normalized(num, Sub(contactPosition, p.pos));
    }
  }

  /**
   * What the particle scan guarantees: a hit is recorded exactly when some
   * particle is entered by the ray (for a ray no longer than the world), and
   * the recorded hit is such a particle's: its entry point, at the
   * projection of its centre.
   */
  lemma {:induction false} DiscScanFacts(num: Numerics, discs: seq<Disc>, n: nat, ray: Ray)
    requires n <= |discs| && Length(num, ray.vector) <= MAX_WORLD_SIZE
    ensures var st := DiscScan(num, discs, n, ray);
            (st.found <==> exists i :: 0 <= i < n && DiscEntry(num, discs[i], ray).Some?) &&
            (!st.found ==> st.distance == MAX_WORLD_SIZE) &&
            (st.found ==> exists i :: 0 <= i < n && DiscEntry(num, discs[i], ray) == Some(st.position) &&
                                      st.distance == Along(discs[i], ray))
  {
    if n > 0 {
      DiscScanFacts(num, discs, n - 1, ray);
      var d := discs[n - 1];
      if DiscEntry(num, d, ray).Some? {
        assert Along(d, ray) <= Length(num, ray.vector) + d.radius;
      }
    }
  }

  /** ParticleHit in those terms. */
  lemma ParticleHitMeaning<B>(num: Numerics, body: B, discs: seq<Disc>, ray: Ray)
    requires Length(num, ray.vector) <= MAX_WORLD_SIZE
    ensures ParticleHit(num, body, discs, ray).Some? <==> exists i :: 0 <= i < |discs| && DiscEntry(num, discs[i], ray).Some?
    ensures ParticleHit(num, body, discs, ray).Some? ==>
              var c := ParticleHit(num, body, discs, ray).value;
              c.body == body &&
              exists i :: 0 <= i < |discs| && DiscEntry(num, discs[i], ray) == Some(c.position) && c.distance == Along(discs[i], ray)
  {
    DiscScanFacts(num, discs, |discs|, ray);
  }

  // ------------------------------------------------------------------ hits on polygons

  /** Where the ray crosses the edge from a to b (QCollision::LineIntersectionLine), if it does. */
  function Crossing(a: Vec, b: Vec, ray: Ray): Option<Vec>
  {
    Collision.LineIntersectionLine(a, b, ray.position, Add(ray.position, ray.vector))
  }

  /**
   * One edge of RaycastToPolygon: a crossing no farther than the best one
   * so far becomes the best, with the edge's outward normal.
   */
  function EdgeStep(num: Numerics, st: Near, a: Vec, b: Vec, ray: Ray): (r: Near)
    ensures r.distance <= st.distance
    ensures st.found ==> r.found
    ensures !r.found ==> r == st
  {
    match Crossing(a, b, ray)
    case None => st
    case Some(x) =>
      var d := Length(num, Sub(x, ray.position));
      if d > st.distance then st else Near(true, d, x, Perpendicular(Normalized(num, Sub(b, a))))
  }

  /** The search state after the first i edges of one polygon (edge i joins vertex i to the next, cyclically). */
  function EdgesScan(num: Numerics, st: Near, poly: seq<Vec>, i: nat, ray: Ray): (r: Near)
    requires i <= |poly|
    ensures r.distance <= st.distance
    ensures st.found ==> r.found
    ensures !r.found ==> r == st
  {
    if i == 0 then st
    else EdgeStep(num, EdgesScan(num, st, poly, i - 1, ray), poly[i - 1], poly[i % |poly|], ray)
  }

  /** The search state after the first n polygons. */
  function PolygonsScan(num: Numerics, polys: seq<seq<Vec>>, n: nat, ray: Ray): (r: Near)
    requires n <= |polys|
    ensures r.distance <= MAX_WORLD_SIZE
    ensures !r.found ==> r == Start()
  {
    if n == 0 then Start()
    else EdgesScan(num, PolygonsScan(num, polys, n - 1, ray), polys[n - 1], |polys[n - 1]|, ray)
  }

  /**
   * The contact RaycastToPolygon pushes: none without a crossing; when the
   * best edge faces along the ray (the ray starts inside), the origin in
   * containing mode and nothing otherwise; else the crossing itself.
   */
  function PolygonHit<B>(num: Numerics, body: B, polys: seq<seq<Vec>>, ray: Ray): Option<Contact<B>>
  {
    var st := PolygonsScan(num, polys, |polys|, ray);
    if !st.found then None
    else if Dot(ray.vector, st.normal) > 0.0 then
      if ray.containing then Some(Contact(body, ray.position, st.normal, st.distance)) else None
    else Some(Contact(body, st.position, st.normal, st.distance))
  }

  /** RaycastToPolygon: at most one contact for the mesh, from the nearest edge crossing. */
  method RaycastToPolygon<B>(num: Numerics, body: B, polygons: seq<seq<Vec>>, rayPosition: Vec, rayVector: Vec,
                             rayUnit: Vec, rayNormal: Vec, enableContainingBodies: bool,
                             contacts: seq<Contact<B>>)
    returns (result: seq<Contact<B>>)
    ensures result == contacts +
              ToSeq(PolygonHit(num, body, polygons, Ray(rayPosition, rayVector, rayUnit, rayNormal, enableContainingBodies)))
  {
    ghost var ray := Ray(rayPosition, rayVector, rayUnit, rayNormal, enableContainingBodies);
    var rayStart := rayPosition;
    var rayEnd := Add(rayPosition, rayVector);
    var contactFound := false;
    var nearDistance := MAX_WORLD_SIZE;
    var nearContactPosition := Zero();
    var nearContactNormal := Zero();
    for n := 0 to |polygons|
      invariant Near(contactFound, nearDistance, nearContactPosition, nearContactNormal) == PolygonsScan(num, polygons, n, ray)
    {
      contactFound, nearDistance, nearContactPosition, nearContactNormal :=
        ScanEdges(num, polygons[n], rayStart, rayEnd, contactFound, nearDistance, nearContactPosition, nearContactNormal, ray);
    }
    result := contacts;
    if contactFound == false {
      return;
    }
    if Dot(rayVector, nearContactNormal) > 0.0 {
      if enableContainingBodies {
        nearContactPosition := rayPosition;
      } else {
        return;
      }
    }
    result := result + [Contact(body, nearContactPosition, nearContactNormal, nearDistance)];
  }

  /** The inner loop of RaycastToPolygon, over the edges of one polygon. */
  method ScanEdges(num: Numerics, polygon: seq<Vec>, rayStart: Vec, rayEnd: Vec, found0: bool, distance0: real,
                   position0: Vec, normal0: Vec, ghost ray: Ray)
    returns (contactFound: bool, nearDistance: real, nearContactPosition: Vec, nearContactNormal: Vec)
    requires rayStart == ray.position && rayEnd == Add(ray.position, ray.vector)
    ensures Near(contactFound, nearDistance, nearContactPosition, nearContactNormal) ==
              EdgesScan(num, Near(found0, distance0, position0, normal0), polygon, |polygon|, ray)
  {
    ghost var st0 := Near(found0, distance0, position0, normal0);
    contactFound, nearDistance, nearContactPosition, nearContactNormal := found0, distance0, position0, normal0;
    for i := 0 to |polygon|
      invariant Near(contactFound, nearDistance, nearContactPosition, nearContactNormal) == EdgesScan(num, st0, polygon, i, ray)
    {
      var p := polygon[i];
      var np := polygon[(i + 1) % |polygon|];
      var intersection := Collision.LineIntersectionLine(p, np, rayStart, rayEnd);
      if intersection.None? {
        continue;
      }
      var distance := Length(num, Sub(intersection.value, rayStart));
      if distance > nearDistance {
        continue;
      }
      nearDistance := distance;
      nearContactPosition := intersection.value;
      nearContactNormal := Perpendicular(Normalized(num, Sub(np, p)));
      contactFound := true;
    }
  }

  /** How far from the ray's origin the ray crosses edge j of the polygon, if it does. */
  function EdgeCrossing(num: Numerics, poly: seq<Vec>, j: nat, ray: Ray): Option<real>
    requires j < |poly|
  {
    match Crossing(poly[j], poly[(j + 1) % |poly|], ray)
    case None => None
    case Some(x) => Some(Length(num, Sub(x, ray.position)))
  }

  /** One edge in EdgeCrossing's terms: the step records a crossing no farther than the best so far. */
  lemma EdgeStepCrossing(num: Numerics, st: Near, poly: seq<Vec>, j: nat, ray: Ray)
    requires j < |poly|
    ensures var r := EdgeStep(num, st, poly[j], poly[(j + 1) % |poly|], ray);
            var e := EdgeCrossing(num, poly, j, ray);
            (r.found <==> st.found || (e.Some? && e.value <= st.distance)) &&
            (e.Some? ==> r.distance <= e.value)
  {
  }

  /** Within one polygon: the scan's distance is at most that of every crossing seen. */
  lemma {:induction false} EdgesScanBound(num: Numerics, st: Near, poly: seq<Vec>, i: nat, ray: Ray)
    requires i <= |poly|
    ensures forall j :: 0 <= j < i && EdgeCrossing(num, poly, j, ray).Some? ==>
              EdgesScan(num, st, poly, i, ray).distance <= EdgeCrossing(num, poly, j, ray).value
  {
    if i > 0 {
      EdgesScanBound(num, st, poly, i - 1, ray);
      assert (i - 1 + 1) % |poly| == i % |poly|;
      EdgeStepCrossing(num, EdgesScan(num, st, poly, i - 1, ray), poly, i - 1, ray);
    }
  }

  /** Within one polygon: when the scan finds a crossing it did not start with, one lies within the starting distance. */
  lemma {:induction false} EdgesScanFound(num: Numerics, st: Near, poly: seq<Vec>, i: nat, ray: Ray)
    requires i <= |poly|
    ensures EdgesScan(num, st, poly, i, ray).found && !st.found ==>
              exists j :: 0 <= j < i && EdgeCrossing(num, poly, j, ray).Some? &&
                          EdgeCrossing(num, poly, j, ray).value <= st.distance
  {
    if i > 0 && !st.found {
      var before := EdgesScan(num, st, poly, i - 1, ray);
      assert (i - 1 + 1) % |poly| == i % |poly|;
      EdgeStepCrossing(num, before, poly, i - 1, ray);
      if before.found {
        EdgesScanFound(num, st, poly, i - 1, ray);
      } else {
        assert before == st;
      }
    }
  }

  /** Within one polygon: when the scan finds nothing, every crossing lies beyond the starting distance. */
  lemma {:induction false} EdgesScanMissed(num: Numerics, st: Near, poly: seq<Vec>, i: nat, ray: Ray)
    requires i <= |poly|
    ensures !EdgesScan(num, st, poly, i, ray).found ==>
              !st.found && forall j :: 0 <= j < i && EdgeCrossing(num, poly, j, ray).Some? ==>
                                         EdgeCrossing(num, poly, j, ray).value > st.distance
  {
    if i > 0 {
      var before := EdgesScan(num, st, poly, i - 1, ray);
      assert (i - 1 + 1) % |poly| == i % |poly|;
      EdgeStepCrossing(num, before, poly, i - 1, ray);
      EdgesScanMissed(num, st, poly, i - 1, ray);
    }
  }

  /** Over all polygons: the recorded distance is at most that of every edge crossing. */
  lemma {:induction false} PolygonsScanBound(num: Numerics, polys: seq<seq<Vec>>, n: nat, ray: Ray)
    requires n <= |polys|
    ensures forall k, j :: 0 <= k < n && 0 <= j < |polys[k]| && EdgeCrossing(num, polys[k], j, ray).Some? ==>
              PolygonsScan(num, polys, n, ray).distance <= EdgeCrossing(num, polys[k], j, ray).value
  {
    if n > 0 {
      PolygonsScanBound(num, polys, n - 1, ray);
      EdgesScanBound(num, PolygonsScan(num, polys, n - 1, ray), polys[n - 1], |polys[n - 1]|, ray);
    }
  }

  /** Over all polygons: a crossing is recorded iff some crossing lies within the world's size of the ray's origin. */
  lemma {:induction false} PolygonsScanFound(num: Numerics, polys: seq<seq<Vec>>, n: nat, ray: Ray)
    requires n <= |polys|
    ensures PolygonsScan(num, polys, n, ray).found <==>
              exists k, j :: 0 <= k < n && 0 <= j < |polys[k]| && EdgeCrossing(num, polys[k], j, ray).Some? &&
                             EdgeCrossing(num, polys[k], j, ray).value <= MAX_WORLD_SIZE
  {
    if n > 0 {
      PolygonsScanFound(num, polys, n - 1, ray);
      var before := PolygonsScan(num, polys, n - 1, ray);
      EdgesScanFound(num, before, polys[n - 1], |polys[n - 1]|, ray);
      EdgesScanMissed(num, before, polys[n - 1], |polys[n - 1]|, ray);
      if !before.found {
        assert before == Start();
      }
    }
  }

  /**
   * PolygonHit in those terms: a contact comes from the nearest edge
   * crossing, and when that edge faces along the ray the contact sits at
   * the ray's origin, which happens only in containing mode.
   */
  lemma PolygonHitMeaning<B>(num: Numerics, body: B, polys: seq<seq<Vec>>, ray: Ray)
    ensures var h := PolygonHit(num, body, polys, ray);
            (h.Some? ==>
               h.value.body == body &&
               (exists k, j :: 0 <= k < |polys| && 0 <= j < |polys[k]| && EdgeCrossing(num, polys[k], j, ray).Some?) &&
               (forall k, j :: 0 <= k < |polys| && 0 <= j < |polys[k]| && EdgeCrossing(num, polys[k], j, ray).Some? ==>
                                h.value.distance <= EdgeCrossing(num, polys[k], j, ray).value)) &&
            (h.Some? && Dot(ray.vector, h.value.normal) > 0.0 ==> ray.containing && h.value.position == ray.position)
  {
    PolygonsScanBound(num, polys, |polys|, ray);
    PolygonsScanFound(num, polys, |polys|, ray);
  }

  // ------------------------------------------------------------------ all hits

  /** The contact one mesh contributes, by its behaviour. */
  function MeshHit<B>(num: Numerics, body: B, shape: Shape, ray: Ray): Option<Contact<B>>
  {
    match shape
    case CircleShape(discs) => ParticleHit(num, body, discs, ray)
    case PolygonShape(polys) => PolygonHit(num, body, polys, ray)
    case NoShape => None
  }

  /** The contacts of the first k meshes of a body, one at most per mesh. */
  function BodyHits<B>(num: Numerics, t: Target<B>, k: nat, ray: Ray): (r: seq<Contact<B>>)
    requires k <= |t.meshes|
    ensures |r| <= k
    ensures forall c :: c in r ==> c.body == t.body
  {
    if k == 0 then [] else BodyHits(num, t, k - 1, ray) + ToSeq(MeshHit(num, t.body, t.meshes[k - 1], ray))
  }

  /** The contacts of all targets, body by body. */
  function Hits<B>(num: Numerics, ts: seq<Target<B>>, ray: Ray): seq<Contact<B>>
  {
    if ts == [] then []
    else
      var last := ts[|ts| - 1];
      Hits(num, ts[..|ts| - 1], ray) + BodyHits(num, last, |last.meshes|, ray)
  }

  /** Every contact belongs to one of the targets. */
  lemma {:induction false} HitsFromTargets<B>(num: Numerics, ts: seq<Target<B>>, ray: Ray)
    ensures forall c :: c in Hits(num, ts, ray) ==> exists t :: t in ts && c.body == t.body
  {
    if ts != [] {
      var last := ts[|ts| - 1];
      HitsFromTargets(num, ts[..|ts| - 1], ray);
      forall c | c in Hits(num, ts, ray)
        ensures exists t :: t in ts && c.body == t.body
      {
        if c in Hits(num, ts[..|ts| - 1], ray) {
          var t :| t in ts[..|ts| - 1] && c.body == t.body;
          assert t in ts;
        } else {
          assert last in ts;
        }
      }
    }
  }

  predicate SortedByDistance<B>(cs: seq<Contact<B>>)
  {
    forall i, j :: 0 <= i < j < |cs| ==> cs[i].distance <= cs[j].distance
  }

  /** One insertion step of the sort by SortContacts (distance ascending). */
  function InsertByDistance<B>(c: Contact<B>, cs: seq<Contact<B>>): (r: seq<Contact<B>>)
    ensures multiset(r) == multiset(cs) + multiset{c}
  {
    if cs == [] then [c]
    else if c.distance <= cs[0].distance then [c] + cs
    else
      assert cs == [cs[0]] + cs[1..];
      [cs[0]] + InsertByDistance(c, cs[1..])
  }

  lemma {:induction false} InsertByDistanceSorted<B>(c: Contact<B>, cs: seq<Contact<B>>)
    requires SortedByDistance(cs)
    ensures SortedByDistance(InsertByDistance(c, cs))
  {
    if cs != [] && c.distance > cs[0].distance {
      var t := InsertByDistance(c, cs[1..]);
      InsertByDistanceSorted(c, cs[1..]);
      forall j | 0 <= j < |t|
        ensures cs[0].distance <= t[j].distance
      {
        assert t[j] in multiset(t);
        if t[j] != c {
          assert t[j] in multiset(cs[1..]);
          var m :| 0 <= m < |cs[1..]| && cs[1..][m] == t[j];
          assert cs[m + 1] == t[j];
        }
      }
      var r := [cs[0]] + t;
      forall i, j | 0 <= i < j < |r|
        ensures r[i].distance <= r[j].distance
      {
        assert r[j] == t[j - 1];
        if i > 0 {
          assert r[i] == t[i - 1];
        }
      }
    }
  }

  /**
   * std::sort with SortContacts, as an insertion sort: contacts by
   * ascending distance (std::sort leaves the order of equal distances
   * unspecified; this is one of the orders it may produce).
   */
  function SortByDistance<B>(cs: seq<Contact<B>>): (r: seq<Contact<B>>)
    ensures multiset(r) == multiset(cs)
  {
    if cs == [] then []
    else
      assert cs == [cs[0]] + cs[1..];
      InsertByDistance(cs[0], SortByDistance(cs[1..]))
  }

  lemma {:induction false} SortByDistanceSorted<B>(cs: seq<Contact<B>>)
    ensures SortedByDistance(SortByDistance(cs))
  {
    if cs != [] {
      SortByDistanceSorted(cs[1..]);
      InsertByDistanceSorted(cs[0], SortByDistance(cs[1..]));
    }
  }

  /**
   * What RaycastTo returns: the hits on every reachable body, sorted by
   * distance; each contact belongs to a body whose box the ray's box meets.
   */
  function Cast<B>(num: Numerics, targets: seq<Target<B>>, rayPosition: Vec, rayVector: Vec,
                   enableContainingBodies: bool): (r: seq<Contact<B>>)
    ensures SortedByDistance(r)
    ensures multiset(r) ==
              multiset(Hits(num, Potentials(targets, rayPosition, rayVector), MakeRay(num, rayPosition, rayVector, enableContainingBodies)))
    ensures forall c :: c in r ==> exists t :: t in targets && c.body == t.body && Reachable(t.aabb, rayPosition, rayVector)
  {
    var hits := Hits(num, Potentials(targets, rayPosition, rayVector), MakeRay(num, rayPosition, rayVector, enableContainingBodies));
    var r := SortByDistance(hits);
    SortByDistanceSorted(hits);
    HitsFromTargets(num, Potentials(targets, rayPosition, rayVector), MakeRay(num, rayPosition, rayVector, enableContainingBodies));
    assert forall c :: c in r ==> c in hits by {
      forall c | c in r
        ensures c in hits
      {
        assert c in multiset(r);
      }
    }
    r
  }

  /** The inner loop of RaycastTo, over the meshes of one body. */
  method CastBody<B>(num: Numerics, body: Target<B>, rayPosition: Vec, rayVector: Vec, rayUnit: Vec, rayNormal: Vec,
                     enableContainingBodies: bool, contacts: seq<Contact<B>>, ghost ray: Ray)
    returns (result: seq<Contact<B>>)
    requires ray == Ray(rayPosition, rayVector, rayUnit, rayNormal, enableContainingBodies)
    ensures result == contacts + BodyHits(num, body, |body.meshes|, ray)
  {
    result := contacts;
    for i := 0 to |body.meshes|
      invariant result == contacts + BodyHits(num, body, i, ray)
    {
      match body.meshes[i]
      case CircleShape(discs) =>
        result := RaycastToParticles(num, body.body, discs, rayPosition, rayVector, rayUnit, rayNormal,
                                     enableContainingBodies, result);
      case PolygonShape(polygons) =>
        result := RaycastToPolygon(num, body.body, polygons, rayPosition, rayVector, rayUnit, rayNormal,
                                   enableContainingBodies, result);
      case NoShape =>
    }
  }

  /** The outer loop of RaycastTo, over the reachable bodies. */
  method CastBodies<B>(num: Numerics, bodies: seq<Target<B>>, rayPosition: Vec, rayVector: Vec, rayUnit: Vec, rayNormal: Vec,
                       enableContainingBodies: bool, ghost ray: Ray)
    returns (result: seq<Contact<B>>)
    requires ray == Ray(rayPosition, rayVector, rayUnit, rayNormal, enableContainingBodies)
    ensures result == Hits(num, bodies, ray)
  {
    result := [];
    for b := 0 to |bodies|
      invariant result == Hits(num, bodies[..b], ray)
    {
      assert bodies[..b + 1][..b] == bodies[..b];
      result := CastBody(num, bodies[b], rayPosition, rayVector, rayUnit, rayNormal,
                         enableContainingBodies, result, ray);
    }
    assert bodies[..|bodies|] == bodies;
  }

  /**
   * RaycastTo: collects the contacts of every mesh of every reachable body
   * (circle meshes through RaycastToParticles, polygon meshes through
   * RaycastToPolygon, polyline meshes not at all), then sorts them by
   * distance.
   */
  method RaycastTo<B>(num: Numerics, targets: seq<Target<B>>, rayPosition: Vec, rayVector: Vec,
                      collidableLayers: int, enableContainingBodies: bool)
    returns (result: seq<Contact<B>>)
    ensures result == Cast(num, targets, rayPosition, rayVector, enableContainingBodies)
  {
    var potantialBodies := GetPotentialBodies(targets, rayPosition, rayVector, collidableLayers);
    var rayUnit := Normalized(num, rayVector);
    var rayNormal := Perpendicular(rayUnit);
    result := CastBodies(num, potantialBodies, rayPosition, rayVector, rayUnit, rayNormal, enableContainingBodies,
                         MakeRay(num, rayPosition, rayVector, enableContainingBodies));
    result := SortByDistance(result);
  }
}
