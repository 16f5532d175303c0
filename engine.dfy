/**
 * The engine's objects and the bookkeeping they do on each other: particles
 * (qparticle.cpp), springs (qspring.cpp), meshes (qmesh.h, qmesh.cpp), bodies
 * (qbody.h, qbody.cpp, qrigidbody.cpp), joints (qjoint.cpp), raycasts and the
 * world (qworld.h, qworld.cpp). They point at each other (a particle at its
 * mesh, a mesh at its body, a body at its world, a joint at its bodies), so
 * they share one module. Pointers are object references; the numeric order
 * of two pointers, which the world uses to canonicalise body pairs, is the
 * order of the bodies' `id`s.
 */
module Engine {
  import opened Vectors
  import opened AABBs
  import opened Options
  import Seqs
  import Shoelace = Polygons
  import MeshDatas
  import Constraints
  import Raycasting
  import Reals

  datatype Mode = Dynamic | Static
  datatype BodyType = Rigid | Area | Soft
  datatype SimulationModel = MassSpring | RigidBody
  datatype CollisionBehavior = Circles | Polygons | Polyline

  /** QWorld::MAX_WORLD_SIZE, the start value of a body's bounds loop. */
  const MAX_WORLD_SIZE: real := Raycasting.MAX_WORLD_SIZE

  /** The ticks of stillness after which an island of bodies falls asleep. */
  const SLEEP_TICKS: int := 120

  // ================================================================ particles

  datatype ParticleRest = ParticleRest(
    position: Vec, radius: real, mass: real, ownerMesh: Mesh?, isInternal: bool, enabled: bool, lazy: bool,
    force: Vec, accumulatedForces: seq<Vec>, aabb: AABB, oneTimeCollidedBodies: set<Body>,
    previousCollidedBodies: set<Body>, springConnectedParticles: set<Particle>)

  class Particle {
    var position: Vec
    var globalPosition: Vec
    var prevGlobalPosition: Vec
    var radius: real
    var mass: real
    var ownerMesh: Mesh?
    var isInternal: bool
    var enabled: bool
    var lazy: bool
    var force: Vec
    var accumulatedForces: seq<Vec>
    var aabb: AABB
    var aabbNeedsUpdate: bool
    var oneTimeCollidedBodies: set<Body>
    var previousCollidedBodies: set<Body>
    var springConnectedParticles: set<Particle>

    /** QParticle(pos, radius): local, global and previous positions all start at `pos`. */
    constructor(pos: Vec, r: real)
      ensures position == pos && globalPosition == pos && prevGlobalPosition == pos
      ensures radius == r && mass == 1.0 && ownerMesh == null && !isInternal
      ensures enabled && !lazy && force == Zero() && accumulatedForces == []
      ensures oneTimeCollidedBodies == {} && previousCollidedBodies == {} && springConnectedParticles == {}
    {
      position, globalPosition, prevGlobalPosition := pos, pos, pos;
      radius, mass := r, 1.0;
      ownerMesh := null;
      isInternal, enabled, lazy := false, true, false;
      force, accumulatedForces := Zero(), [];
      aabb, aabbNeedsUpdate := Make(Zero(), Zero()), true;
      oneTimeCollidedBodies, previousCollidedBodies, springConnectedParticles := {}, {}, {};
    }

    /** Everything but the global and previous positions and the box flag, which a transform rewrites. */
    ghost function Rest(): ParticleRest
      reads this
    {
      ParticleRest(position, radius, mass, ownerMesh, isInternal, enabled, lazy, force, accumulatedForces,
                   aabb, oneTimeCollidedBodies, previousCollidedBodies, springConnectedParticles)
    }

    /** The body of the mesh the particle belongs to, if any. */
    function OwnerBody(): Body?
      reads `ownerMesh, ownerMesh
    {
      if ownerMesh == null then null else ownerMesh.ownerBody
    }

    /** The owner body as a frame: empty for a free particle or a mesh without a body. */
    function OwnerBodies(): set<Body>
      reads this, ownerMesh
    {
      if OwnerBody() == null then {} else {OwnerBody()}
    }

    /** The owner mesh as a frame. */
    function OwnerMeshes(): set<Mesh>
      reads this
    {
      if ownerMesh == null then {} else {ownerMesh}
    }

    /**
     * SetGlobalPosition: stores the position and marks the box stale. A free
     * particle moves its local position along; an owned one marks its body's
     * inertia and circumference stale instead.
     */
    method SetGlobalPosition(value: Vec)
      modifies this`globalPosition, this`aabbNeedsUpdate, this`position, OwnerBodies()`inertiaNeedsUpdate, OwnerBodies()`circumferenceNeedsUpdate
      ensures globalPosition == value && aabbNeedsUpdate
      ensures position == if ownerMesh == null then value else old(position)
      ensures OwnerBody() != null ==> OwnerBody().inertiaNeedsUpdate && OwnerBody().circumferenceNeedsUpdate
    {
      globalPosition := value;
      aabbNeedsUpdate := true;
      if ownerMesh == null {
        position := globalPosition;
      } else {
        var body := ownerMesh.ownerBody;
        if body != null {
          body.MarkShapeStale();
        }
      }
    }

    /** AddGlobalPosition: SetGlobalPosition(global + value). */
    method AddGlobalPosition(value: Vec)
      modifies this`globalPosition, this`aabbNeedsUpdate, this`position, OwnerBodies()`inertiaNeedsUpdate, OwnerBodies()`circumferenceNeedsUpdate
      ensures globalPosition == Add(old(globalPosition), value) && aabbNeedsUpdate
      ensures position == if ownerMesh == null then globalPosition else old(position)
      ensures OwnerBody() != null ==> OwnerBody().inertiaNeedsUpdate && OwnerBody().circumferenceNeedsUpdate
    {
      SetGlobalPosition(Add(globalPosition, value));
    }

    method SetPreviousGlobalPosition(value: Vec)
      modifies this`prevGlobalPosition
      ensures prevGlobalPosition == value
    {
      prevGlobalPosition := value;
    }

    /**
     * SetPosition: stores the local position. A free particle moves its
     * global position along; an owned one marks its body's inertia and
     * circumference stale, wakes a soft body and marks the mesh's sub-convex
     * polygons stale.
     */
    method SetPosition(value: Vec)
      modifies this`position, this`globalPosition, OwnerMeshes()`subConvexPolygonsNeedsUpdate
      modifies OwnerBodies()`inertiaNeedsUpdate, OwnerBodies()`circumferenceNeedsUpdate, OwnerBodies()`isSleeping
      ensures position == value
      ensures globalPosition == if ownerMesh == null then value else old(globalPosition)
      ensures ownerMesh != null ==>
                (ownerMesh.subConvexPolygonsNeedsUpdate == (old(ownerMesh.subConvexPolygonsNeedsUpdate) || OwnerBody() != null))
      ensures OwnerBody() != null ==> OwnerBody().inertiaNeedsUpdate && OwnerBody().circumferenceNeedsUpdate
      ensures OwnerBody() != null ==>
                (OwnerBody().isSleeping == (old(OwnerBody().isSleeping) && OwnerBody().bodyType != Soft))
    {
      position := value;
      if ownerMesh == null {
        globalPosition := position;
      } else {
        var body := ownerMesh.ownerBody;
        if body != null {
          body.MarkShapeStale();
          if body.bodyType == Soft {
            body.WakeUp();
          }
          ownerMesh.MarkSubConvexPolygonsStale();
        }
      }
    }

    /** SetRadius: an owned particle marks its body's inertia stale. */
    method SetRadius(r: real)
      modifies this`radius, OwnerBodies()`inertiaNeedsUpdate
      ensures radius == r
      ensures OwnerBody() != null ==> OwnerBody().inertiaNeedsUpdate
    {
      radius := r;
      if ownerMesh != null {
        var body := ownerMesh.ownerBody;
        if body != null {
          body.inertiaNeedsUpdate := true;
        }
      }
    }

    /** ApplyForce: moves the global position by exactly `value` (the local one too when free). */
    method ApplyForce(value: Vec)
      modifies this`globalPosition, this`aabbNeedsUpdate, this`position, OwnerBodies()`inertiaNeedsUpdate, OwnerBodies()`circumferenceNeedsUpdate
      ensures globalPosition == Add(old(globalPosition), value) && aabbNeedsUpdate
      ensures position == if ownerMesh == null then globalPosition else old(position)
      ensures OwnerBody() != null ==> OwnerBody().inertiaNeedsUpdate && OwnerBody().circumferenceNeedsUpdate
    {
      AddGlobalPosition(value);
      if ownerMesh == null {
        position := globalPosition;
      }
    }

    /** SetForce: wakes the owner body, then stores the force. */
    method SetForce(value: Vec)
      modifies this`force, OwnerBodies()`isSleeping
      ensures force == value
      ensures OwnerBody() != null ==> !OwnerBody().isSleeping
    {
      if ownerMesh != null && ownerMesh.ownerBody != null {
        ownerMesh.ownerBody.WakeUp();
      }
      force := value;
    }

    method AddForce(value: Vec)
      modifies this`force, OwnerBodies()`isSleeping
      ensures force == Add(old(force), value)
      ensures OwnerBody() != null ==> !OwnerBody().isSleeping
    {
      SetForce(Add(force, value));
    }

    method AddAccumulatedForce(value: Vec)
      modifies this`accumulatedForces
      ensures accumulatedForces == old(accumulatedForces) + [value]
    {
      accumulatedForces := accumulatedForces + [value];
    }

    method ClearAccumulatedForces()
      modifies this`accumulatedForces
      ensures accumulatedForces == []
    {
      accumulatedForces := [];
    }

    /**
     * ApplyAccumulatedForces: with a nonempty list, applies the arithmetic
     * mean of the accumulated forces and empties the list; with an empty list
     * nothing changes.
     */
    method ApplyAccumulatedForces()
      modifies this`globalPosition, this`aabbNeedsUpdate, this`position, this`accumulatedForces
      modifies OwnerBodies()`inertiaNeedsUpdate, OwnerBodies()`circumferenceNeedsUpdate
      ensures old(accumulatedForces) == [] ==> unchanged(this) && unchanged(OwnerBodies())
      ensures old(accumulatedForces) != [] ==>
                globalPosition == Add(old(globalPosition), Mean(old(accumulatedForces))) &&
                position == (if ownerMesh == null then globalPosition else old(position)) &&
                accumulatedForces == [] && aabbNeedsUpdate &&
                (OwnerBody() != null ==> OwnerBody().inertiaNeedsUpdate && OwnerBody().circumferenceNeedsUpdate)
    {
      if |accumulatedForces| > 0 {
        var forces := accumulatedForces;
        var accumulatedForce := Zero();
        for j := 0 to |forces|
          modifies {}
          invariant accumulatedForce == Sum(forces[..j])
        {
          SumSnoc(forces, j);
          accumulatedForce := Add(accumulatedForce, forces[j]);
        }
        assert forces[..|forces|] == forces;
        accumulatedForce := DivScalar(accumulatedForce, |forces| as real);
        ApplyForce(accumulatedForce);
        accumulatedForces := [];
      }
    }

    /** Whether a spring joins this particle to `particle`. */
    function IsConnectedWithSpring(particle: Particle): bool
      reads this
    {
      particle in springConnectedParticles
    }

    /** ResetOneTimeCollisions: the previous step's bodies become the one-time bodies. */
    method ResetOneTimeCollisions()
      modifies this`oneTimeCollidedBodies, this`previousCollidedBodies
      ensures oneTimeCollidedBodies == old(previousCollidedBodies) && previousCollidedBodies == {}
    {
      oneTimeCollidedBodies := previousCollidedBodies;
      previousCollidedBodies := {};
    }

    method ClearOneTimeCollisions()
      modifies this`oneTimeCollidedBodies, this`previousCollidedBodies
      ensures oneTimeCollidedBodies == {} && previousCollidedBodies == {}
    {
      oneTimeCollidedBodies := {};
      previousCollidedBodies := {};
    }

    /** UpdateAABB: the global position grown by the raw radius on both axes. */
    method UpdateAABB()
      modifies this`aabb
      ensures aabb == ParticleBox(Disc(globalPosition, radius))
      ensures aabb.minPos == Vec(globalPosition.x - radius, globalPosition.y - radius)
      ensures aabb.maxPos == Vec(globalPosition.x + radius, globalPosition.y + radius)
    {
      var minX := globalPosition.x - radius;
      var maxX := globalPosition.x + radius;
      var minY := globalPosition.y - radius;
      var maxY := globalPosition.y + radius;
      aabb := Make(Vec(minX, minY), Vec(maxX, maxY));
    }
  }

  /** The sum of a list of forces, accumulated from the front. */
  function Sum(fs: seq<Vec>): Vec
  {
    if fs == [] then Zero() else Add(Sum(fs[..|fs| - 1]), fs[|fs| - 1])
  }

  /** The arithmetic mean ApplyAccumulatedForces applies. */
  function Mean(fs: seq<Vec>): Vec
    requires fs != []
  {
    DivScalar(Sum(fs), |fs| as real)
  }

  lemma SumSnoc(fs: seq<Vec>, j: nat)
    requires j < |fs|
    ensures Sum(fs[..j + 1]) == Add(Sum(fs[..j]), fs[j])
  {
    assert fs[..j + 1][..j] == fs[..j];
  }

  /** n equal forces sum to n times the force. */
  lemma {:induction false} SumOfEqual(fs: seq<Vec>, v: Vec)
    requires forall i :: 0 <= i < |fs| ==> fs[i] == v
    ensures Sum(fs) == Scale(v, |fs| as real)
  {
    if fs != [] {
      SumOfEqual(fs[..|fs| - 1], v);
    }
  }

  /** When every accumulated force is the same, the mean applied is that force. */
  lemma MeanOfEqual(fs: seq<Vec>, v: Vec)
    requires fs != []
    requires forall i :: 0 <= i < |fs| ==> fs[i] == v
    ensures Mean(fs) == v
  {
    SumOfEqual(fs, v);
    var n := |fs| as real;
    assert (v.x * n) / n == v.x;
    assert (v.y * n) / n == v.y;
  }

  /**
   * The shares of a push at `fromPosition` that ApplyForceToParticleSegment
   * gives the two ends of the segment A -> B: by the projection of the push
   * point on the segment.
   */
  function SegmentRates(num: Numerics, a: Vec, b: Vec, fromPosition: Vec): (real, real)
    requires Length(num, Sub(b, a)) != 0.0
  {
    var segmentVector := Sub(b, a);
    var unit := Normalized(num, segmentVector);
    var len := Length(num, segmentVector);
    var proj := Dot(Sub(fromPosition, a), unit);
    if proj < 0.0 && proj > len then (0.5, 0.5)
    else (var u := 1.0 / len; ((len - proj) * u, proj * u))
  }

  /**
   * The rates always add up to 1, so the total displacement is the force;
   * the 0.5 / 0.5 branch needs proj < 0 < len < proj and never runs.
   */
  lemma SegmentRatesSplitForce(num: Numerics, a: Vec, b: Vec, fromPosition: Vec, force: Vec)
    requires Length(num, Sub(b, a)) != 0.0
    ensures var (rateA, rateB) := SegmentRates(num, a, b, fromPosition);
            rateA + rateB == 1.0 && Add(Scale(force, rateA), Scale(force, rateB)) == force
    ensures var len := Length(num, Sub(b, a));
            var proj := Dot(Sub(fromPosition, a), Normalized(num, Sub(b, a)));
            !(proj < 0.0 && proj > len)
  {
    var len := Length(num, Sub(b, a));
    assert 0.0 <= len;
    var proj := Dot(Sub(fromPosition, a), Normalized(num, Sub(b, a)));
    var u := 1.0 / len;
    Reals.DivTimes(1.0, len);
    assert (len - proj) * u + proj * u == len * u;
    var (rateA, rateB) := SegmentRates(num, a, b, fromPosition);
    assert force.x * rateA + force.x * rateB == force.x * (rateA + rateB);
    assert force.y * rateA + force.y * rateB == force.y * (rateA + rateB);
  }

  /**
   * QParticle::ApplyForceToParticleSegment: moves the two ends' global
   * positions directly (no flags) by their shares of `force`.
   */
  method ApplyForceToParticleSegment(num: Numerics, pA: Particle, pB: Particle, force: Vec, fromPosition: Vec)
    requires Length(num, Sub(pB.globalPosition, pA.globalPosition)) != 0.0
    modifies pA`globalPosition, pB`globalPosition
    ensures var (rateA, rateB) := SegmentRates(num, old(pA.globalPosition), old(pB.globalPosition), fromPosition);
            pA.globalPosition == Add(old(pA.globalPosition), Scale(force, rateA)) &&
            pB.globalPosition == Add(old(pB.globalPosition), Scale(force, rateB))
  {
    var segmentVector := Sub(pB.globalPosition, pA.globalPosition);
    var unit := Normalized(num, segmentVector);
    var len := Length(num, segmentVector);
    var bridgeVector := Sub(fromPosition, pA.globalPosition);
    var proj := Dot(bridgeVector, unit);
    var rateA, rateB;
    if proj < 0.0 && proj > len {
      rateA, rateB := 0.5, 0.5;
    } else {
      var u := 1.0 / len;
      rateA := (len - proj) * u;
      rateB := proj * u;
    }
    ghost var rates := SegmentRates(num, pA.globalPosition, pB.globalPosition, fromPosition);
    assert rates.0 == rateA;
    assert rates.1 == rateB;
    pA.globalPosition := Add(pA.globalPosition, Scale(force, rateA));
    pB.globalPosition := Add(pB.globalPosition, Scale(force, rateB));
  }

  /** A linear scan for the first position of `x` in `s` (the engine's Get*Index loops). */
  method IndexScan<T(==)>(s: seq<T>, x: T) returns (r: int)
    ensures r == Seqs.IndexOf(s, x)
  {
    r := -1;
    var i := 0;
    while i < |s|
      invariant 0 <= i <= |s|
      invariant x !in s[..i]
    {
      if s[i] == x {
        assert x !in s[..i] && s[i] == x;
        IndexOfFirst(s, x, i);
        return i;
      }
      assert s[..i + 1] == s[..i] + [s[i]];
      i := i + 1;
    }
    assert s[..i] == s;
  }

  /** The first occurrence is the one IndexOf reports. */
  lemma IndexOfFirst<T>(s: seq<T>, x: T, i: nat)
    requires i < |s| && s[i] == x && x !in s[..i]
    ensures Seqs.IndexOf(s, x) == i
  {
    var k := Seqs.IndexOf(s, x);
    assert x in s[..i + 1];
  }

  // ================================================================ springs and angle constraints

  class Spring {
    var pA: Particle
    var pB: Particle
    var length: real
    var rigidity: real
    var isInternal: bool
    var enabled: bool

    /** QSpring(a, b, internal): the rest length is the current distance between the particles. */
    constructor(num: Numerics, a: Particle, b: Particle, internal: bool)
      ensures pA == a && pB == b && isInternal == internal
      ensures length == Length(num, Sub(a.globalPosition, b.globalPosition))
      ensures rigidity == 1.0 && enabled
    {
      pA, pB := a, b;
      length := Length(num, Sub(a.globalPosition, b.globalPosition));
      isInternal := internal;
      rigidity, enabled := 1.0, true;
    }

    /** QSpring(a, b, length, internal): the rest length is given. */
    constructor WithLength(a: Particle, b: Particle, restLength: real, internal: bool)
      ensures pA == a && pB == b && length == restLength && isInternal == internal
      ensures rigidity == 1.0 && enabled
    {
      pA, pB := a, b;
      length := restLength;
      isInternal := internal;
      rigidity, enabled := 1.0, true;
    }

    /** Both ends belong to bodies and both bodies sleep. */
    predicate BodiesSleeping()
      reads this, pA, pB, pA.ownerMesh, pB.ownerMesh, pA.OwnerBody(), pB.OwnerBody()
    {
      pA.OwnerBody() != null && pB.OwnerBody() != null &&
      pA.OwnerBody().isSleeping && pB.OwnerBody().isSleeping
    }

    /**
     * QSpring::Update: nothing moves when both bodies sleep or the spring is
     * disabled; otherwise each end is moved (ApplyForce) by its share of the
     * correction, as Constraints.SpringForces splits it.
     */
    method Update(num: Numerics, rigidityParam: real, internalsException: bool)
      modifies pA`globalPosition, pA`aabbNeedsUpdate, pA`position
      modifies pA.OwnerBodies()`inertiaNeedsUpdate, pA.OwnerBodies()`circumferenceNeedsUpdate
      modifies pB`globalPosition, pB`aabbNeedsUpdate, pB`position
      modifies pB.OwnerBodies()`inertiaNeedsUpdate, pB.OwnerBodies()`circumferenceNeedsUpdate
      ensures old(BodiesSleeping()) || !enabled ==> unchanged(pA, pB) && unchanged(pA.OwnerBodies(), pB.OwnerBodies())
      ensures !old(BodiesSleeping()) && enabled ==>
                var (fa, fb) := Constraints.SpringForces(num, old(pA.globalPosition), old(pB.globalPosition),
                                                         length, rigidityParam, internalsException,
                                                         isInternal, pA.isInternal, pB.isInternal);
                (pA != pB ==> pA.globalPosition == Add(old(pA.globalPosition), fa) &&
                              pB.globalPosition == Add(old(pB.globalPosition), fb)) &&
                (pA == pB ==> pA.globalPosition == Add(Add(old(pA.globalPosition), fa), fb)) &&
                pA.aabbNeedsUpdate && pB.aabbNeedsUpdate
    {
      if BodiesSleeping() {
        return;
      }
      if !enabled {
        return;
      }
      var forces := Constraints.SpringForces(num, pA.globalPosition, pB.globalPosition, length, rigidityParam,
                                             internalsException, isInternal, pA.isInternal, pB.isInternal);
      pA.ApplyForce(forces.0);
      pB.ApplyForce(forces.1);
    }
  }

  /** QAngleConstraint: only the three particles it binds are modelled. */
  class AngleConstraint {
    const pA: Particle
    const pB: Particle
    const pC: Particle

    constructor(a: Particle, b: Particle, c: Particle)
      ensures pA == a && pB == b && pC == c
    {
      pA, pB, pC := a, b, c;
    }

    predicate Binds(p: Particle)
    {
      pA == p || pB == p || pC == p
    }
  }

  /** The springs of `ss` with `p` as an end. */
  function SpringsTouching(ss: seq<Spring>, p: Particle): (r: set<Spring>)
    reads set s | s in ss
    ensures r <= set s | s in ss
    ensures forall s :: s in ss ==> (s in r <==> s.pA == p || s.pB == p)
  {
    set s | s in ss && (s.pA == p || s.pB == p)
  }

  /** The angle constraints of `cs` binding `p`. */
  function ConstraintsBinding(cs: seq<AngleConstraint>, p: Particle): (r: set<AngleConstraint>)
    ensures r <= set c | c in cs
    ensures forall c :: c in cs ==> (c in r <==> c.Binds(p))
  {
    set c | c in cs && c.Binds(p)
  }

  // ================================================================ meshes

  /**
   * What UpdateSubConvexPolygons makes of a mesh's closed polygons. Its
   * definition is not part of this model, so it is a parameter.
   */
  type Decomposer = seq<seq<Particle>> -> seq<seq<Particle>>

  /** The four area getters of a mesh (and their sums over a body's meshes). */
  datatype AreaKind = InitialArea | InitialPolygonsArea | CurrentArea | CurrentPolygonsArea

  /** Everything a mesh stores except the sub-convex polygons' dirty flag. */
  datatype MeshCore = MeshCore(
    particles: seq<Particle>, position: Vec, globalPosition: Vec, rotation: real, globalRotation: real,
    springs: seq<Spring>, angleConstraints: seq<AngleConstraint>, closedPolygons: seq<seq<Particle>>,
    subConvexPolygons: seq<seq<Particle>>, ownerBody: Body?, collisionBehavior: CollisionBehavior,
    disablePolygonForCollisions: bool, collisionBehaviorNeedsUpdate: bool)

  /** A particle's local or global position. */
  function PositionOf(p: Particle, local: bool): Vec
    reads p
  {
    if local then p.position else p.globalPosition
  }

  /** The local or global positions of a list of particles. */
  function Positions(ps: seq<Particle>, local: bool): (r: seq<Vec>)
    reads set p | p in ps
    ensures |r| == |ps|
    ensures forall i :: 0 <= i < |ps| ==> r[i] == PositionOf(ps[i], local)
  {
    if ps == [] then [] else Positions(ps[..|ps| - 1], local) + [PositionOf(ps[|ps| - 1], local)]
  }

  /** The particles of a list of polygons. */
  function PolygonParticles(polys: seq<seq<Particle>>): set<Particle>
  {
    set poly, p | poly in polys && p in poly :: p
  }

  /** The vertex positions of each polygon of `polys`. */
  function VertexLists(polys: seq<seq<Particle>>, local: bool): (r: seq<seq<Vec>>)
    reads PolygonParticles(polys)
    ensures |r| == |polys|
    ensures forall i :: 0 <= i < |polys| ==> r[i] == Positions(polys[i], local)
  {
    if polys == [] then []
    else
      assert PolygonParticles(polys[..|polys| - 1]) <= PolygonParticles(polys);
      VertexLists(polys[..|polys| - 1], local) + [Positions(polys[|polys| - 1], local)]
  }

  /** The sum of the shoelace areas of a list of vertex lists. */
  function AreaSum(vss: seq<seq<Vec>>): (r: real)
    ensures 0.0 <= r
  {
    if vss == [] then 0.0 else AreaSum(vss[..|vss| - 1]) + Shoelace.PolygonArea(vss[|vss| - 1])
  }

  /** AreaSum over one more vertex list. */
  lemma AreaSumStep(vss: seq<seq<Vec>>, n: nat)
    requires n < |vss|
    ensures AreaSum(vss[..n + 1]) == AreaSum(vss[..n]) + Shoelace.PolygonArea(vss[n])
  {
    assert vss[..n + 1][..n] == vss[..n];
  }

  /** The sum of GetPolygonArea over `polys`. */
  function SumPolygonAreas(polys: seq<seq<Particle>>, local: bool): (r: real)
    reads PolygonParticles(polys)
    ensures 0.0 <= r
  {
    AreaSum(VertexLists(polys, local))
  }

  /** The radius squared of a particle counted as a disc (radius above 0.5), 0 otherwise. */
  function CircleArea(p: Particle): (r: real)
    reads p
    ensures 0.0 <= r
  {
    if p.radius > 0.5 then Reals.SquareNonnegative(p.radius); p.radius * p.radius else 0.0
  }

  /** The sum of CircleArea over `ps`. */
  function SumCircleAreas(ps: seq<Particle>): (r: real)
    reads set p | p in ps
    ensures 0.0 <= r
  {
    if ps == [] then 0.0 else SumCircleAreas(ps[..|ps| - 1]) + CircleArea(ps[|ps| - 1])
  }

  /** The edge lengths of a closed polygon summed over its first k edges. */
  function PerimeterPrefix(num: Numerics, vs: seq<Vec>, k: nat): (r: real)
    requires k <= |vs|
    ensures 0.0 <= r
  {
    if k == 0 then 0.0 else PerimeterPrefix(num, vs, k - 1) + Length(num, Sub(vs[k % |vs|], vs[k - 1]))
  }

  /** The sum of the closed perimeters of a list of vertex lists. */
  function PerimeterSum(num: Numerics, vss: seq<seq<Vec>>): (r: real)
    ensures 0.0 <= r
  {
    if vss == [] then 0.0 else PerimeterSum(num, vss[..|vss| - 1]) + PerimeterPrefix(num, vss[|vss| - 1], |vss[|vss| - 1]|)
  }

  /** PerimeterSum over one more vertex list. */
  lemma PerimeterSumStep(num: Numerics, vss: seq<seq<Vec>>, n: nat)
    requires n < |vss|
    ensures PerimeterSum(num, vss[..n + 1]) == PerimeterSum(num, vss[..n]) + PerimeterPrefix(num, vss[n], |vss[n]|)
  {
    assert vss[..n + 1][..n] == vss[..n];
  }

  /** The sum of the closed perimeters (local positions) of `polys`. */
  function SumPerimeters(num: Numerics, polys: seq<seq<Particle>>): (r: real)
    reads PolygonParticles(polys)
    ensures 0.0 <= r
  {
    PerimeterSum(num, VertexLists(polys, true))
  }

  /**
   * One closed polygon after every occurrence of `p` is erased: unchanged
   * when `p` is absent, dropped when fewer than 3 vertices remain.
   */
  function StripPolygon(poly: seq<Particle>, p: Particle): (r: seq<seq<Particle>>)
    ensures |r| <= 1
  {
    var rest := Seqs.Without(poly, {p});
    if p in poly && |rest| < 3 then [] else [rest]
  }

  /** RemoveMatchingClosedPolygons on a list of closed polygons. */
  function StripPolygons(polys: seq<seq<Particle>>, p: Particle): (r: seq<seq<Particle>>)
    ensures |r| <= |polys|
  {
    if polys == [] then []
    else StripPolygons(polys[..|polys| - 1], p) + StripPolygon(polys[|polys| - 1], p)
  }

  /** Does any CollisionBehavior pair (A, B) match (first, second) in either order? */
  predicate BehaviorsMatch(a: CollisionBehavior, b: CollisionBehavior, first: CollisionBehavior, second: CollisionBehavior)
  {
    (a == first && b == second) || (b == first && a == second)
  }

  class Mesh {
    var particles: seq<Particle>
    var position: Vec
    var globalPosition: Vec
    var rotation: real
    var globalRotation: real
    var springs: seq<Spring>
    var angleConstraints: seq<AngleConstraint>
    var closedPolygons: seq<seq<Particle>>
    var subConvexPolygons: seq<seq<Particle>>
    var ownerBody: Body?
    var collisionBehavior: CollisionBehavior
    var disablePolygonForCollisions: bool
    var collisionBehaviorNeedsUpdate: bool
    var subConvexPolygonsNeedsUpdate: bool

    /** QMesh(): empty, unowned, colliding as circles, no flag set. */
    constructor()
      ensures particles == [] && springs == [] && angleConstraints == []
      ensures closedPolygons == [] && subConvexPolygons == []
      ensures position == Zero() && globalPosition == Zero() && rotation == 0.0 && globalRotation == 0.0
      ensures ownerBody == null && collisionBehavior == Circles && !disablePolygonForCollisions
      ensures !collisionBehaviorNeedsUpdate && !subConvexPolygonsNeedsUpdate
    {
      particles, springs, angleConstraints := [], [], [];
      closedPolygons, subConvexPolygons := [], [];
      position, globalPosition, rotation, globalRotation := Zero(), Zero(), 0.0, 0.0;
      ownerBody, collisionBehavior, disablePolygonForCollisions := null, Circles, false;
      collisionBehaviorNeedsUpdate, subConvexPolygonsNeedsUpdate := false, false;
    }

    ghost function Core(): MeshCore
      reads this
    {
      MeshCore(particles, position, globalPosition, rotation, globalRotation, springs, angleConstraints,
               closedPolygons, subConvexPolygons, ownerBody, collisionBehavior, disablePolygonForCollisions,
               collisionBehaviorNeedsUpdate)
    }

    /** Every particle of the mesh appears once and names this mesh as its owner. */
    ghost predicate Wired()
      reads this`particles, (set p | p in particles)`ownerMesh
    {
      Seqs.Distinct(particles) && forall p :: p in particles ==> p.ownerMesh == this
    }

    /** The particles whose positions the area sums read. */
    function Parts(): set<Particle>
      reads this
    {
      (set p | p in particles) + PolygonParticles(subConvexPolygons)
    }

    /** The behaviour UpdateCollisionBehavior derives from the closed polygons and the owner's model. */
    function DerivedBehavior(): CollisionBehavior
      reads this, ownerBody
    {
      if ownerBody == null then collisionBehavior
      else if |closedPolygons| == 0 then Circles
      else if ownerBody.simulationModel == RigidBody then Polygons
      else Polyline
    }

    /**
     * UpdateCollisionBehavior: without an owner nothing changes; circles
     * without closed polygons, polygons for a rigid-body owner, polylines
     * for a mass-spring owner.
     */
    method UpdateCollisionBehavior()
      modifies this`collisionBehavior
      ensures ownerBody == null ==> collisionBehavior == old(collisionBehavior)
      ensures ownerBody != null && closedPolygons == [] ==> collisionBehavior == Circles
      ensures ownerBody != null && closedPolygons != [] && ownerBody.simulationModel == RigidBody ==>
                collisionBehavior == Polygons
      ensures ownerBody != null && closedPolygons != [] && ownerBody.simulationModel == MassSpring ==>
                collisionBehavior == Polyline
      ensures collisionBehavior == old(DerivedBehavior())
    {
      if ownerBody == null {
        return;
      }
      if |closedPolygons| > 0 {
        if ownerBody.simulationModel == RigidBody {
          collisionBehavior := Polygons;
        } else {
          collisionBehavior := Polyline;
        }
      } else {
        collisionBehavior := Circles;
      }
    }

    /** GetCollisionBehavior: recomputes only when the flag is set, then clears it. */
    method GetCollisionBehavior() returns (r: CollisionBehavior)
      modifies this`collisionBehavior, this`collisionBehaviorNeedsUpdate
      ensures r == collisionBehavior && !collisionBehaviorNeedsUpdate
      ensures r == if old(collisionBehaviorNeedsUpdate) then old(DerivedBehavior()) else old(collisionBehavior)
    {
      if collisionBehaviorNeedsUpdate {
        UpdateCollisionBehavior();
        collisionBehaviorNeedsUpdate := false;
      }
      r := collisionBehavior;
    }

    /** CheckCollisionBehaviors: do the two meshes' behaviours match (first, second) in either order? */
    static method CheckCollisionBehaviors(meshA: Mesh, meshB: Mesh, first: CollisionBehavior, second: CollisionBehavior)
      returns (r: bool)
      modifies meshA`collisionBehavior, meshA`collisionBehaviorNeedsUpdate
      modifies meshB`collisionBehavior, meshB`collisionBehaviorNeedsUpdate
      ensures !meshA.collisionBehaviorNeedsUpdate && !meshB.collisionBehaviorNeedsUpdate
      ensures r == BehaviorsMatch(meshA.collisionBehavior, meshB.collisionBehavior, first, second)
    {
      var a := meshA.GetCollisionBehavior();
      var b := meshB.GetCollisionBehavior();
      a := meshA.GetCollisionBehavior();
      r := (a == first && b == second) || (b == first && a == second);
    }

    /** SetPolygonForCollisionsDisabled: stores the flag and marks the behaviour stale. */
    method SetPolygonForCollisionsDisabled(value: bool)
      modifies this`disablePolygonForCollisions, this`collisionBehaviorNeedsUpdate
      ensures disablePolygonForCollisions == value && collisionBehaviorNeedsUpdate
    {
      disablePolygonForCollisions := value;
      collisionBehaviorNeedsUpdate := true;
    }

    /** Marks the sub-convex polygons stale. */
    method MarkSubConvexPolygonsStale()
      modifies this`subConvexPolygonsNeedsUpdate
      ensures subConvexPolygonsNeedsUpdate
    {
      subConvexPolygonsNeedsUpdate := true;
    }

    /** The owner body as a frame. */
    function Owners(): set<Body>
      reads this
    {
      if ownerBody == null then {} else {ownerBody}
    }

    /** Marks the owner body's inertia and circumference stale, if there is an owner. */
    method DirtyOwner()
      modifies Owners()`inertiaNeedsUpdate, Owners()`circumferenceNeedsUpdate
      ensures ownerBody != null ==> ownerBody.inertiaNeedsUpdate && ownerBody.circumferenceNeedsUpdate
    {
      if ownerBody != null {
        ownerBody.MarkShapeStale();
      }
    }

    /** AddParticle: appends, takes ownership, marks the owner and the behaviour stale. */
    method AddParticle(particle: Particle)
      modifies this`particles, this`collisionBehaviorNeedsUpdate, particle`ownerMesh
      modifies Owners()`inertiaNeedsUpdate, Owners()`circumferenceNeedsUpdate
      ensures particles == old(particles) + [particle] && particle.ownerMesh == this
      ensures Core() == old(Core()).(particles := particles, collisionBehaviorNeedsUpdate := true)
      ensures ownerBody != null ==> ownerBody.inertiaNeedsUpdate && ownerBody.circumferenceNeedsUpdate
      ensures old(Wired()) && particle !in old(particles) ==> Wired()
    {
      particles := particles + [particle];
      particle.ownerMesh := this;
      DirtyOwner();
      collisionBehaviorNeedsUpdate := true;
    }

    /**
     * The particle loop of CreateWithMeshData: one new particle per position,
     * with the data's radius and internal flag, added in order.
     */
    method AddParticlesOf(data: MeshDatas.MeshData)
      requires |data.particleRadValues| == |data.particlePositions| == |data.particleInternalValues|
      requires particles == [] && ownerBody == null
      modifies this`particles, this`collisionBehaviorNeedsUpdate
      ensures |particles| == |data.particlePositions| && Wired()
      ensures forall i :: 0 <= i < |particles| ==> fresh(particles[i]) && MadeFrom(particles[i], data, i)
      ensures collisionBehaviorNeedsUpdate == (old(collisionBehaviorNeedsUpdate) || |data.particlePositions| > 0)
    {
      for i := 0 to |data.particlePositions|
        invariant |particles| == i && Wired()
        invariant forall j :: 0 <= j < i ==> fresh(particles[j]) && MadeFrom(particles[j], data, j)
        invariant collisionBehaviorNeedsUpdate == (old(collisionBehaviorNeedsUpdate) || i > 0)
      {
        var particle := NewParticleFrom(data, i);
        AddParticle(particle);
      }
    }

    /**
     * The spring loops of CreateWithMeshData: the boundary springs, then the
     * internal ones, each joining the particles its pair names.
     */
    method AddSpringsOf(num: Numerics, data: MeshDatas.MeshData)
      requires MeshDatas.WellIndexed(data) && |particles| == |data.particlePositions| && Seqs.Distinct(particles)
      requires forall i :: 0 <= i < |particles| ==> particles[i].globalPosition == data.particlePositions[i]
      modifies this`springs
      ensures |springs| == |data.springList| + |data.internalSpringList|
      ensures forall s :: s in springs ==> fresh(s)
      ensures SpringsJoin(num, springs[..|data.springList|], particles, data.particlePositions, data.springList, false)
      ensures SpringsJoin(num, springs[|data.springList|..], particles, data.particlePositions, data.internalSpringList, true)
      ensures forall k :: 0 <= k < |data.springList| ==>
        Seqs.IndexOf(particles, springs[k].pA) == data.springList[k].first &&
        Seqs.IndexOf(particles, springs[k].pB) == data.springList[k].second
    {
      var boundary := MakeSprings(num, particles, data.particlePositions, data.springList, false);
      var internals := MakeSprings(num, particles, data.particlePositions, data.internalSpringList, true);
      springs := boundary + internals;
      assert springs[..|boundary|] == boundary && springs[|boundary|..] == internals;
      forall k | 0 <= k < |data.springList|
        ensures Seqs.IndexOf(particles, springs[k].pA) == data.springList[k].first
        ensures Seqs.IndexOf(particles, springs[k].pB) == data.springList[k].second
      {
        assert Joins(num, boundary[k], particles, data.particlePositions, data.springList[k], false);
        IndexOfDistinct(particles, data.springList[k].first);
        IndexOfDistinct(particles, data.springList[k].second);
      }
    }

    /** RemoveParticleAt: drops the particle's polygons and springs, then the particle itself. */
    method RemoveParticleAt(index: int)
      requires 0 <= index < |particles|
      modifies this`particles, this`closedPolygons, this`springs, this`collisionBehaviorNeedsUpdate
      modifies Owners()`inertiaNeedsUpdate, Owners()`circumferenceNeedsUpdate
      ensures particles == Seqs.RemoveAt(old(particles), index)
      ensures closedPolygons == StripPolygons(old(closedPolygons), old(particles[index]))
      ensures springs == Seqs.Without(old(springs), old(SpringsTouching(springs, particles[index])))
      ensures collisionBehaviorNeedsUpdate
      ensures ownerBody != null ==> ownerBody.inertiaNeedsUpdate && ownerBody.circumferenceNeedsUpdate
    {
      var particle := particles[index];
      DetachShapes(particle);
      particles := particles[..index] + particles[index + 1..];
      DirtyOwner();
      collisionBehaviorNeedsUpdate := true;
    }

    /** The first half of RemoveParticleAt: the polygons and springs through `particle` go. */
    method DetachShapes(particle: Particle)
      modifies this`closedPolygons, this`springs, this`collisionBehaviorNeedsUpdate
      modifies Owners()`inertiaNeedsUpdate, Owners()`circumferenceNeedsUpdate
      ensures closedPolygons == StripPolygons(old(closedPolygons), particle)
      ensures springs == Seqs.Without(old(springs), old(SpringsTouching(springs, particle)))
      ensures particles == old(particles) && ownerBody == old(ownerBody)
    {
      ghost var drop := SpringsTouching(springs, particle);
      ghost var polys := StripPolygons(closedPolygons, particle);
      RemoveMatchingClosedPolygons(particle);
      assert Core().closedPolygons == polys && Core().particles == old(particles) && Core().springs == old(springs);
      assert SpringsTouching(springs, particle) == drop;
      RemoveMatchingSprings(particle);
    }

    /** RemoveParticle: RemoveParticleAt at the particle's first index, which must exist. */
    method RemoveParticle(particle: Particle)
      requires particle in particles
      modifies this`particles, this`closedPolygons, this`springs, this`collisionBehaviorNeedsUpdate
      modifies Owners()`inertiaNeedsUpdate, Owners()`circumferenceNeedsUpdate
      ensures 0 <= Seqs.IndexOf(old(particles), particle)
      ensures particles == Seqs.RemoveAt(old(particles), Seqs.IndexOf(old(particles), particle))
      ensures closedPolygons == StripPolygons(old(closedPolygons), particle)
      ensures springs == Seqs.Without(old(springs), old(SpringsTouching(springs, particle)))
      ensures collisionBehaviorNeedsUpdate
      ensures ownerBody != null ==> ownerBody.inertiaNeedsUpdate && ownerBody.circumferenceNeedsUpdate
    {
      var index := IndexScan(particles, particle);
      RemoveParticleAt(index);
    }

    method GetParticleIndex(particle: Particle) returns (r: int)
      ensures r == Seqs.IndexOf(particles, particle)
    {
      r := IndexScan(particles, particle);
    }

    /** AddClosedPolygon: appends, marks the owner and the behaviour stale. */
    method AddClosedPolygon(polygon: seq<Particle>)
      modifies this`closedPolygons, this`collisionBehaviorNeedsUpdate
      modifies Owners()`inertiaNeedsUpdate, Owners()`circumferenceNeedsUpdate
      ensures Core() == old(Core()).(closedPolygons := old(closedPolygons) + [polygon],
                                     collisionBehaviorNeedsUpdate := true)
      ensures ownerBody != null ==> ownerBody.inertiaNeedsUpdate && ownerBody.circumferenceNeedsUpdate
    {
      closedPolygons := closedPolygons + [polygon];
      DirtyOwner();
      collisionBehaviorNeedsUpdate := true;
    }

    /** RemoveClosedPolygonAt: erases one polygon, marks the owner and the behaviour stale. */
    method RemoveClosedPolygonAt(index: int)
      requires 0 <= index < |closedPolygons|
      modifies this`closedPolygons, this`collisionBehaviorNeedsUpdate
      modifies Owners()`inertiaNeedsUpdate, Owners()`circumferenceNeedsUpdate
      ensures Core() == old(Core()).(closedPolygons := Seqs.RemoveAt(old(closedPolygons), index),
                                     collisionBehaviorNeedsUpdate := true)
      ensures ownerBody != null ==> ownerBody.inertiaNeedsUpdate && ownerBody.circumferenceNeedsUpdate
    {
      closedPolygons := closedPolygons[..index] + closedPolygons[index + 1..];
      DirtyOwner();
      collisionBehaviorNeedsUpdate := true;
    }

    /**
     * RemoveMatchingClosedPolygons: erases `particle` from every closed
     * polygon and drops the polygons it leaves with fewer than 3 vertices;
     * only a dropped polygon marks the owner and the behaviour stale.
     */
    method RemoveMatchingClosedPolygons(particle: Particle)
      modifies this`closedPolygons, this`collisionBehaviorNeedsUpdate
      modifies Owners()`inertiaNeedsUpdate, Owners()`circumferenceNeedsUpdate
      ensures var dropped := |closedPolygons| < |old(closedPolygons)|;
              Core() == old(Core()).(closedPolygons := StripPolygons(old(closedPolygons), particle),
                                     collisionBehaviorNeedsUpdate := old(collisionBehaviorNeedsUpdate) || dropped) &&
              (ownerBody != null ==>
                 ownerBody.inertiaNeedsUpdate == (old(ownerBody.inertiaNeedsUpdate) || dropped) &&
                 ownerBody.circumferenceNeedsUpdate == (old(ownerBody.circumferenceNeedsUpdate) || dropped))
    {
      var polys := StripAll(closedPolygons, particle);
      var dropped := |polys| < |closedPolygons|;
      closedPolygons := polys;
      if dropped {
        DirtyOwner();
        collisionBehaviorNeedsUpdate := true;
      }
    }

    /** AddSpring: appends and marks the behaviour stale. */
    method AddSpring(spring: Spring)
      modifies this`springs, this`collisionBehaviorNeedsUpdate
      ensures springs == old(springs) + [spring] && collisionBehaviorNeedsUpdate
    {
      springs := springs + [spring];
      collisionBehaviorNeedsUpdate := true;
    }

    method RemoveSpringAt(index: int)
      requires 0 <= index < |springs|
      modifies this`springs, this`collisionBehaviorNeedsUpdate
      ensures springs == Seqs.RemoveAt(old(springs), index) && collisionBehaviorNeedsUpdate
    {
      springs := springs[..index] + springs[index + 1..];
      collisionBehaviorNeedsUpdate := true;
    }

    method GetSpringIndex(spring: Spring) returns (r: int)
      ensures r == Seqs.IndexOf(springs, spring)
    {
      r := IndexScan(springs, spring);
    }

    /** RemoveSpring: erases the first occurrence; an absent spring changes nothing. */
    method RemoveSpring(spring: Spring)
      modifies this`springs, this`collisionBehaviorNeedsUpdate
      ensures spring !in old(springs) ==>
                springs == old(springs) && collisionBehaviorNeedsUpdate == old(collisionBehaviorNeedsUpdate)
      ensures spring in old(springs) ==>
                springs == Seqs.RemoveAt(old(springs), Seqs.IndexOf(old(springs), spring)) &&
                collisionBehaviorNeedsUpdate
    {
      var index := GetSpringIndex(spring);
      if index != -1 {
        RemoveSpringAt(index);
      }
    }

    /**
     * RemoveMatchingSprings: erases every spring with `particle` as an end,
     * keeping the others in order; any erasure marks the behaviour stale.
     */
    method RemoveMatchingSprings(particle: Particle)
      modifies this`springs, this`collisionBehaviorNeedsUpdate
      ensures springs == Seqs.Without(old(springs), old(SpringsTouching(springs, particle)))
      ensures collisionBehaviorNeedsUpdate == (old(collisionBehaviorNeedsUpdate) || |springs| < |old(springs)|)
    {
      var drop := SpringsTouching(springs, particle);
      var kept := EraseMatching(springs, drop);
      if |kept| < |springs| {
        collisionBehaviorNeedsUpdate := true;
      }
      springs := kept;
    }

    method AddAngleConstraint(constraint: AngleConstraint)
      modifies this`angleConstraints
      ensures angleConstraints == old(angleConstraints) + [constraint]
    {
      angleConstraints := angleConstraints + [constraint];
    }

    method RemoveAngleConstraintAt(index: int)
      requires 0 <= index < |angleConstraints|
      modifies this`angleConstraints
      ensures angleConstraints == Seqs.RemoveAt(old(angleConstraints), index)
    {
      angleConstraints := angleConstraints[..index] + angleConstraints[index + 1..];
    }

    method GetAngleConstraintIndex(constraint: AngleConstraint) returns (r: int)
      ensures r == Seqs.IndexOf(angleConstraints, constraint)
    {
      r := IndexScan(angleConstraints, constraint);
    }

    /** RemoveAngleConstraint: erases the first occurrence; an absent constraint changes nothing. */
    method RemoveAngleConstraint(constraint: AngleConstraint)
      modifies this`angleConstraints
      ensures constraint !in old(angleConstraints) ==> angleConstraints == old(angleConstraints)
      ensures constraint in old(angleConstraints) ==>
                angleConstraints == Seqs.RemoveAt(old(angleConstraints), Seqs.IndexOf(old(angleConstraints), constraint))
    {
      var index := GetAngleConstraintIndex(constraint);
      if index != -1 {
        RemoveAngleConstraintAt(index);
      }
    }

    /** RemoveMatchingAngleConstraints: erases every constraint binding `particle`, keeping the rest in order. */
    method RemoveMatchingAngleConstraints(particle: Particle)
      modifies this`angleConstraints
      ensures angleConstraints == Seqs.Without(old(angleConstraints), ConstraintsBinding(old(angleConstraints), particle))
    {
      angleConstraints := EraseMatching(angleConstraints, ConstraintsBinding(angleConstraints, particle));
    }

    /** The lazy refresh at the head of GetSubConvexPolygonCount and GetSubConvexPolygonAt. */
    method RefreshSubConvexPolygons(decompose: Decomposer)
      modifies this`subConvexPolygons, this`subConvexPolygonsNeedsUpdate
      ensures !subConvexPolygonsNeedsUpdate
      ensures subConvexPolygons == if old(subConvexPolygonsNeedsUpdate) then decompose(closedPolygons)
                                   else old(subConvexPolygons)
    {
      if subConvexPolygonsNeedsUpdate {
        subConvexPolygons := decompose(closedPolygons);
        subConvexPolygonsNeedsUpdate := false;
      }
    }

    /** GetSubConvexPolygonCount: decomposes again only when the flag is set, then clears it. */
    method GetSubConvexPolygonCount(decompose: Decomposer) returns (r: int)
      modifies this`subConvexPolygons, this`subConvexPolygonsNeedsUpdate
      ensures !subConvexPolygonsNeedsUpdate
      ensures subConvexPolygons == if old(subConvexPolygonsNeedsUpdate) then decompose(closedPolygons)
                                   else old(subConvexPolygons)
      ensures r == |subConvexPolygons|
    {
      RefreshSubConvexPolygons(decompose);
      r := |subConvexPolygons|;
    }

    /** GetPolygonArea: the shoelace loop over the polygon's local or global positions. */
    static method GetPolygonArea(polygonPoints: seq<Particle>, withLocalPositions: bool) returns (r: real)
      ensures r == Shoelace.PolygonArea(Positions(polygonPoints, withLocalPositions))
      ensures 0.0 <= r
    {
      ghost var vs := Positions(polygonPoints, withLocalPositions);
      var area := 0.0;
      var n := |polygonPoints|;
      for i := 0 to n
        invariant area == Shoelace.PrefixSum(vs, i)
      {
        var pA, pB;
        if withLocalPositions {
          pA := polygonPoints[i].position;
          pB := polygonPoints[(i + 1) % n].position;
        } else {
          pA := polygonPoints[i].globalPosition;
          pB := polygonPoints[(i + 1) % n].globalPosition;
        }
        var h := pB.x - pA.x;
        var a := pA.y;
        var b := pB.y;
        area := area + (a + b) * h * 0.5;
      }
      r := Abs(area);
    }

    /** The polygon-area loop of the four area getters. */
    method SumAreasOf(local: bool) returns (r: real)
      ensures r == SumPolygonAreas(subConvexPolygons, local)
    {
      var polygons := subConvexPolygons;
      ghost var vss := VertexLists(polygons, local);
      r := 0.0;
      for n := 0 to |polygons|
        invariant r == AreaSum(vss[..n])
        invariant unchanged(PolygonParticles(polygons))
      {
        var a := GetPolygonArea(polygons[n], local);
        assert Positions(polygons[n], local) == vss[n];
        AreaSumStep(vss, n);
        r := r + a;
      }
      assert vss[..|polygons|] == vss;
      assert VertexLists(polygons, local) == vss;
    }

    /** The disc loop of GetInitialArea and GetArea: r * r for each particle with radius above 0.5. */
    method SumCirclesOf() returns (r: real)
      ensures r == SumCircleAreas(particles)
    {
      r := 0.0;
      for i := 0 to |particles|
        invariant r == SumCircleAreas(particles[..i])
      {
        var particle := particles[i];
        assert particles[..i + 1][..i] == particles[..i];
        if particle.radius > 0.5 {
          r := r + particle.radius * particle.radius;
        }
      }
      assert particles[..|particles|] == particles;
    }

    /** The value of one of the four area getters on the current state. */
    function AreaOf(kind: AreaKind): (r: real)
      reads this, Parts()
      ensures 0.0 <= r
    {
      match kind
      case InitialArea => SumPolygonAreas(subConvexPolygons, true) + SumCircleAreas(particles)
      case InitialPolygonsArea => SumPolygonAreas(subConvexPolygons, true)
      case CurrentArea => SumPolygonAreas(subConvexPolygons, false) + SumCircleAreas(particles)
      case CurrentPolygonsArea => SumPolygonAreas(subConvexPolygons, false)
    }

    /** The value GetCircumference computes on the current state. */
    function PerimeterOf(num: Numerics): (r: real)
      reads this, Parts()
      ensures 0.0 <= r
    {
      SumPerimeters(num, subConvexPolygons)
    }

    /** The area getter `kind` names. */
    method MeasureArea(kind: AreaKind, decompose: Decomposer) returns (r: real)
      modifies this`subConvexPolygons, this`subConvexPolygonsNeedsUpdate
      ensures !subConvexPolygonsNeedsUpdate
      ensures subConvexPolygons == if old(subConvexPolygonsNeedsUpdate) then decompose(closedPolygons)
                                   else old(subConvexPolygons)
      ensures r == AreaOf(kind)
    {
      match kind {
        case InitialArea => r := GetInitialArea(decompose);
        case InitialPolygonsArea => r := GetInitialPolygonsArea(decompose);
        case CurrentArea => r := GetArea(decompose);
        case CurrentPolygonsArea => r := GetPolygonsArea(decompose);
      }
    }

    /**
     * GetInitialArea: refreshes the sub-convex polygons, then sums local
     * polygon areas and discs (the two sums are added in the other order,
     * which over reals gives the same value).
     */
    method GetInitialArea(decompose: Decomposer) returns (r: real)
      modifies this`subConvexPolygons, this`subConvexPolygonsNeedsUpdate
      ensures !subConvexPolygonsNeedsUpdate
      ensures subConvexPolygons == if old(subConvexPolygonsNeedsUpdate) then decompose(closedPolygons)
                                   else old(subConvexPolygons)
      ensures r == SumPolygonAreas(subConvexPolygons, true) + SumCircleAreas(particles) && 0.0 <= r
    {
      RefreshSubConvexPolygons(decompose);
      var circles := SumCirclesOf();
      var polygons := SumAreasOf(true);
      r := polygons + circles;
    }

    /** GetInitialPolygonsArea: the local polygon areas only. */
    method GetInitialPolygonsArea(decompose: Decomposer) returns (r: real)
      modifies this`subConvexPolygons, this`subConvexPolygonsNeedsUpdate
      ensures !subConvexPolygonsNeedsUpdate
      ensures subConvexPolygons == if old(subConvexPolygonsNeedsUpdate) then decompose(closedPolygons)
                                   else old(subConvexPolygons)
      ensures r == SumPolygonAreas(subConvexPolygons, true) && 0.0 <= r
    {
      RefreshSubConvexPolygons(decompose);
      r := SumAreasOf(true);
    }

    /** GetArea: polygon areas on global positions plus the discs. */
    method GetArea(decompose: Decomposer) returns (r: real)
      modifies this`subConvexPolygons, this`subConvexPolygonsNeedsUpdate
      ensures !subConvexPolygonsNeedsUpdate
      ensures subConvexPolygons == if old(subConvexPolygonsNeedsUpdate) then decompose(closedPolygons)
                                   else old(subConvexPolygons)
      ensures r == SumPolygonAreas(subConvexPolygons, false) + SumCircleAreas(particles) && 0.0 <= r
    {
      RefreshSubConvexPolygons(decompose);
      var circles := SumCirclesOf();
      var polygons := SumAreasOf(false);
      r := polygons + circles;
    }

    /** GetPolygonsArea: the global polygon areas only, so GetArea = GetPolygonsArea + the discs. */
    method GetPolygonsArea(decompose: Decomposer) returns (r: real)
      modifies this`subConvexPolygons, this`subConvexPolygonsNeedsUpdate
      ensures !subConvexPolygonsNeedsUpdate
      ensures subConvexPolygons == if old(subConvexPolygonsNeedsUpdate) then decompose(closedPolygons)
                                   else old(subConvexPolygons)
      ensures r == SumPolygonAreas(subConvexPolygons, false) && 0.0 <= r
    {
      RefreshSubConvexPolygons(decompose);
      r := SumAreasOf(false);
    }

    /** GetCircumference: the closed perimeters of the sub-convex polygons on local positions. */
    method GetCircumference(num: Numerics, decompose: Decomposer) returns (r: real)
      modifies this`subConvexPolygons, this`subConvexPolygonsNeedsUpdate
      ensures !subConvexPolygonsNeedsUpdate
      ensures subConvexPolygons == if old(subConvexPolygonsNeedsUpdate) then decompose(closedPolygons)
                                   else old(subConvexPolygons)
      ensures r == SumPerimeters(num, subConvexPolygons) && 0.0 <= r
    {
      RefreshSubConvexPolygons(decompose);
      r := SumPerimetersOf(num);
    }

    /** The outer loop of GetCircumference: the perimeters of the sub-convex polygons, summed in order. */
    method SumPerimetersOf(num: Numerics) returns (r: real)
      ensures r == SumPerimeters(num, subConvexPolygons)
    {
      var polygons := subConvexPolygons;
      ghost var vss := VertexLists(polygons, true);
      r := 0.0;
      for n := 0 to |polygons|
        invariant r == PerimeterSum(num, vss[..n])
        invariant unchanged(PolygonParticles(polygons))
      {
        var perimeter := PolygonPerimeter(num, polygons[n]);
        assert Positions(polygons[n], true) == vss[n];
        PerimeterSumStep(num, vss, n);
        r := r + perimeter;
      }
      assert vss[..|polygons|] == vss;
      assert VertexLists(polygons, true) == vss;
    }

    /** The inner loop of GetCircumference: the closed perimeter of one polygon on local positions. */
    static method PolygonPerimeter(num: Numerics, polygon: seq<Particle>) returns (perimeter: real)
      ensures perimeter == PerimeterPrefix(num, Positions(polygon, true), |polygon|)
    {
      ghost var vs := Positions(polygon, true);
      perimeter := 0.0;
      for i := 0 to |polygon|
        invariant perimeter == PerimeterPrefix(num, vs, i)
      {
        var p := polygon[i];
        var np := polygon[(i + 1) % |polygon|];
        perimeter := perimeter + Length(num, Sub(np.position, p.position));
      }
    }
  }

  /** `s` with every element of `drop` erased, by the erase-or-advance loop the engine uses. */
  method EraseMatching<T(==)>(s: seq<T>, drop: set<T>) returns (r: seq<T>)
    ensures r == Seqs.Without(s, drop)
  {
    r := s;
    var i := 0;
    ghost var k := 0;
    while i < |r|
      invariant 0 <= i <= |r| && 0 <= k <= |s|
      invariant r[..i] == Seqs.Without(s[..k], drop) && r[i..] == s[k..]
      decreases |r| - i
    {
      Seqs.EraseStep(s, r, i, k, drop);
      if r[i] in drop {
        r := r[..i] + r[i + 1..];
      } else {
        i := i + 1;
      }
      k := k + 1;
    }
    assert s[..k] == s;
  }

  /** The inner loop of RemoveMatchingClosedPolygons: erases every occurrence of `p` from one polygon. */
  method EraseFromPolygon<T(==)>(polygon: seq<T>, p: T) returns (r: seq<T>, matched: bool)
    ensures r == Seqs.Without(polygon, {p}) && matched == (p in polygon)
  {
    r := polygon;
    matched := false;
    var n := 0;
    ghost var k := 0;
    while n < |r|
      invariant 0 <= n <= |r| && 0 <= k <= |polygon|
      invariant r[..n] == Seqs.Without(polygon[..k], {p}) && r[n..] == polygon[k..]
      invariant matched == (p in polygon[..k])
      decreases |r| - n
    {
      Seqs.EraseStep(polygon, r, n, k, {p});
      Seqs.InTakeSnoc(polygon, k, p);
      if r[n] == p {
        r := r[..n] + r[n + 1..];
        matched := true;
      } else {
        n := n + 1;
      }
      k := k + 1;
    }
    assert polygon[..k] == polygon;
  }

  /** One turn of the loop of StripAll: polygon k, at position i of the list, is dropped or replaced by its stripped copy. */
  lemma StripStep(polys: seq<seq<Particle>>, p: Particle, r: seq<seq<Particle>>, i: nat, k: nat)
    requires i < |r| && k < |polys|
    requires r[..i] == StripPolygons(polys[..k], p) && r[i..] == polys[k..]
    ensures r[i] == polys[k]
    ensures var rest := Seqs.Without(polys[k], {p});
      if p in polys[k] && |rest| < 3 then
        (r[..i] + r[i + 1..])[..i] == StripPolygons(polys[..k + 1], p) && (r[..i] + r[i + 1..])[i..] == polys[k + 1..]
      else
        (r[..i] + [rest] + r[i + 1..])[..i + 1] == StripPolygons(polys[..k + 1], p) &&
        (r[..i] + [rest] + r[i + 1..])[i + 1..] == polys[k + 1..]
  {
    assert r[i] == r[i..][0] == polys[k..][0];
    assert polys[..k + 1][..k] == polys[..k];
    assert r[i + 1..] == r[i..][1..] == polys[k..][1..] == polys[k + 1..];
    assert StripPolygons(polys[..k + 1], p) == r[..i] + StripPolygon(polys[k], p);
    var rest := Seqs.Without(polys[k], {p});
    if p in polys[k] && |rest| < 3 {
      assert (r[..i] + r[i + 1..])[..i] == r[..i];
      assert (r[..i] + r[i + 1..])[i..] == r[i + 1..];
    } else {
      assert (r[..i] + [rest] + r[i + 1..])[..i + 1] == r[..i] + [rest];
      assert (r[..i] + [rest] + r[i + 1..])[i + 1..] == r[i + 1..];
    }
  }

  /** The outer loop of RemoveMatchingClosedPolygons, on a copy of the polygon list. */
  method StripAll(polys: seq<seq<Particle>>, p: Particle) returns (r: seq<seq<Particle>>)
    ensures r == StripPolygons(polys, p)
  {
    r := polys;
    var i := 0;
    ghost var k := 0;
    while i < |r|
      invariant 0 <= i <= |r| && 0 <= k <= |polys|
      invariant r[..i] == StripPolygons(polys[..k], p) && r[i..] == polys[k..]
      decreases |r| - i
    {
      StripStep(polys, p, r, i, k);
      var polygon, matched := EraseFromPolygon(r[i], p);
      if matched && |polygon| < 3 {
        r := r[..i] + r[i + 1..];
      } else {
        r := r[..i] + [polygon] + r[i + 1..];
        i := i + 1;
      }
      k := k + 1;
    }
    assert polys[..k] == polys;
  }

  // ================================================================ bodies

  /** Everything a body stores except the two dirty flags and the sleeping flag. */
  datatype BodyCore = BodyCore(
    world: World?, position: Vec, prevPosition: Vec, rotation: real, prevRotation: real, aabb: AABB,
    mode: Mode, force: Vec, angularForce: real, enableBodySpecificTimeScale: bool,
    bodySpecificTimeScale: real, bodyType: BodyType, enabled: bool, friction: real, staticFriction: real,
    airFriction: real, mass: real, restitution: real, layersBit: bv32, collidableLayersBit: bv32,
    isKinematic: bool, allowKinematicCollisions: bool, sleepTick: int, fixedVelocityTick: int,
    fixedAngularTick: int, canSleep: bool, meshes: seq<Mesh>, simulationModel: SimulationModel,
    inertia: real, circumference: real, ignoreGravity: bool, enableCustomGravity: bool,
    customGravity: Vec, enableIntegratedVelocities: bool, velocityLimit: real)

  /** Where UpdateMeshTransforms puts a particle with local position `local`. */
  function Place(num: Numerics, meshGlobalPosition: Vec, meshGlobalRotation: real, local: Vec): Vec
  {
    Add(meshGlobalPosition, Turn(local, num.cos(meshGlobalRotation), num.sin(meshGlobalRotation)))
  }

  /** `local` turned by the rotation whose cosine is `c` and sine is `s`. */
  function Turn(local: Vec, c: real, s: real): Vec
  {
    Vec(local.x * c - local.y * s, local.y * c + local.x * s)
  }

  /** The particles of a list of meshes. */
  function ParticlesOf(ms: seq<Mesh>): set<Particle>
    reads (set m | m in ms)`particles
  {
    set m, p | m in ms && p in m.particles :: p
  }

  /** The particles the area and perimeter sums of a list of meshes read. */
  function PartsOf(ms: seq<Mesh>): set<Particle>
    reads set m | m in ms
  {
    set m, p | m in ms && p in m.Parts() :: p
  }

  /** The discs (global position, radius) of a list of particles, in order. */
  function ParticleDiscs(ps: seq<Particle>): (r: seq<Disc>)
    reads set p | p in ps
    ensures |r| == |ps|
    ensures forall i :: 0 <= i < |ps| ==> r[i] == Disc(ps[i].globalPosition, ps[i].radius)
  {
    if ps == [] then [] else ParticleDiscs(ps[..|ps| - 1]) + [Disc(ps[|ps| - 1].globalPosition, ps[|ps| - 1].radius)]
  }

  /** The discs of every particle of every mesh, mesh by mesh. */
  function MeshDiscs(ms: seq<Mesh>): seq<Disc>
    reads (set m | m in ms), ParticlesOf(ms)
  {
    Concat(DiscLists(ms))
  }

  lemma ParticleDiscsSnoc(ps: seq<Particle>, n: nat)
    requires n < |ps|
    ensures ParticleDiscs(ps[..n + 1]) == ParticleDiscs(ps[..n]) + [Disc(ps[n].globalPosition, ps[n].radius)]
  {
    assert ps[..n + 1][..n] == ps[..n];
  }

  /** The discs of a list of meshes do not change while its meshes and their particles do not. */
  twostate lemma MeshDiscsFramed(ms: seq<Mesh>)
    requires unchanged(set m | m in ms) && unchanged(ParticlesOf(ms))
    ensures MeshDiscs(ms) == old(MeshDiscs(ms))
  {
  }

  /** The discs of each mesh of `ms`, one list per mesh. */
  function DiscLists(ms: seq<Mesh>): (r: seq<seq<Disc>>)
    reads (set m | m in ms), ParticlesOf(ms)
    ensures |r| == |ms|
    ensures forall i :: 0 <= i < |ms| ==> r[i] == ParticleDiscs(ms[i].particles)
  {
    if ms == [] then []
    else
      assert ParticlesOf(ms[..|ms| - 1]) <= ParticlesOf(ms);
      DiscLists(ms[..|ms| - 1]) + [ParticleDiscs(ms[|ms| - 1].particles)]
  }

  /** The lists of `dss` joined in order. */
  function Concat(dss: seq<seq<Disc>>): seq<Disc>
  {
    if dss == [] then [] else Concat(dss[..|dss| - 1]) + dss[|dss| - 1]
  }

  lemma ConcatSnoc(dss: seq<seq<Disc>>, i: nat)
    requires i < |dss|
    ensures Concat(dss[..i + 1]) == Concat(dss[..i]) + dss[i]
  {
    assert dss[..i + 1][..i] == dss[..i];
  }

  /** The sum of a list of reals, left to right. */
  function Total(xs: seq<real>): real
  {
    if xs == [] then 0.0 else Total(xs[..|xs| - 1]) + xs[|xs| - 1]
  }

  lemma TotalSnoc(xs: seq<real>, x: real)
    ensures Total(xs + [x]) == Total(xs) + x
  {
    assert (xs + [x])[..|xs|] == xs;
  }

  /** What the body sums over its meshes: one of the area getters, or the circumference. */
  datatype Quantity = MeshArea(kind: AreaKind) | MeshCircumference(num: Numerics)

  /** The quantity `q` of mesh `m` on the current state. */
  function MeasureOf(m: Mesh, q: Quantity): (r: real)
    reads m, m.Parts()
    ensures q.MeshArea? ==> r == m.AreaOf(q.kind)
    ensures q.MeshCircumference? ==> r == m.PerimeterOf(q.num)
  {
    match q
    case MeshArea(kind) => m.AreaOf(kind)
    case MeshCircumference(num) => m.PerimeterOf(num)
  }

  /** The quantity `q` of each mesh of `ms`, in order. */
  function MeasureList(ms: seq<Mesh>, q: Quantity): (r: seq<real>)
    reads (set m | m in ms), PartsOf(ms)
    ensures |r| == |ms|
    ensures forall i :: 0 <= i < |ms| ==> r[i] == MeasureOf(ms[i], q)
  {
    if ms == [] then []
    else
      assert PartsOf(ms[..|ms| - 1]) <= PartsOf(ms);
      assert ms[|ms| - 1].Parts() <= PartsOf(ms);
      MeasureList(ms[..|ms| - 1], q) + [MeasureOf(ms[|ms| - 1], q)]
  }

  /** The sum of one area getter over a list of meshes. */
  function MeshAreas(ms: seq<Mesh>, kind: AreaKind): real
    reads (set m | m in ms), PartsOf(ms)
  {
    Total(MeasureList(ms, MeshArea(kind)))
  }

  /** The sum of the mesh circumferences over a list of meshes. */
  function MeshPerimeters(num: Numerics, ms: seq<Mesh>): real
    reads (set m | m in ms), PartsOf(ms)
  {
    Total(MeasureList(ms, MeshCircumference(num)))
  }

  /** A mesh together with the quantity asked of it. */
  datatype Measure = Measure(m: Mesh, q: Quantity)

  /** A quantity of a mesh depends on the mesh and the particles it sums over only. */
  twostate lemma MeasureFramed(x: Measure)
    requires unchanged(x.m) && unchanged(x.m.Parts())
    ensures MeasureOf(x.m, x.q) == old(MeasureOf(x.m, x.q))
  {
  }

  /** A quantity summed over the meshes `ms`. */
  datatype MeshSum = MeshSum(ms: seq<Mesh>, q: Quantity)

  /** A sum over meshes depends on the meshes and the particles they sum over only. */
  twostate lemma SumFramed(x: MeshSum)
    requires forall m :: m in x.ms ==> unchanged(m)
    requires unchanged(PartsOf(x.ms))
    ensures MeasureList(x.ms, x.q) == old(MeasureList(x.ms, x.q))
  {
  }

  /**
   * What a lazy getter of a mesh leaves behind: the flag cleared and the
   * sub-convex polygons decomposed again if, and only if, it was set.
   */
  twostate predicate Refreshed(m: Mesh, decompose: Decomposer)
    reads m
  {
    !m.subConvexPolygonsNeedsUpdate &&
    m.subConvexPolygons == if old(m.subConvexPolygonsNeedsUpdate) then decompose(m.closedPolygons)
                           else old(m.subConvexPolygons)
  }

  /** Refreshed, against a recorded flag and recorded sub-convex polygons instead of the previous state. */
  ghost predicate RefreshedFrom(m: Mesh, decompose: Decomposer, wasStale: bool, was: seq<seq<Particle>>)
    reads m`subConvexPolygonsNeedsUpdate, m`subConvexPolygons, m`closedPolygons
  {
    !m.subConvexPolygonsNeedsUpdate && m.subConvexPolygons == if wasStale then decompose(m.closedPolygons) else was
  }

  /**
   * The ghost state of a summing loop over meshes: the meshes, what is summed,
   * each mesh's flag and sub-convex polygons before the loop, and the values
   * measured so far.
   */
  datatype Tally = Tally(ms: seq<Mesh>, q: Quantity, decompose: Decomposer,
                         stale: seq<bool>, was: seq<seq<seq<Particle>>>, values: seq<real>)

  /**
   * The meshes measured so far are refreshed and their values still current;
   * the meshes still ahead are as they were before the loop.
   */
  ghost predicate Tallied(t: Tally)
    reads (set m | m in t.ms), PartsOf(t.ms)
  {
    |t.stale| == |t.ms| && |t.was| == |t.ms| && |t.values| <= |t.ms| &&
    (forall i :: 0 <= i < |t.values| ==>
       t.values[i] == MeasureOf(t.ms[i], t.q) && RefreshedFrom(t.ms[i], t.decompose, t.stale[i], t.was[i])) &&
    (forall i :: |t.values| <= i < |t.ms| ==>
       t.ms[i].subConvexPolygonsNeedsUpdate == t.stale[i] && t.ms[i].subConvexPolygons == t.was[i])
  }

  /** `stale` and `was` record each mesh's flag and sub-convex polygons as they were in the previous state. */
  twostate predicate Recorded(ms: seq<Mesh>, stale: seq<bool>, new was: seq<seq<seq<Particle>>>)
  {
    |stale| == |ms| && |was| == |ms| &&
    forall i :: 0 <= i < |ms| ==> stale[i] == old(ms[i].subConvexPolygonsNeedsUpdate) && was[i] == old(ms[i].subConvexPolygons)
  }

  /** A finished tally leaves every mesh refreshed since the previous state. */
  twostate lemma TalliedRefreshed(t: Tally)
    requires Tallied(t) && Recorded(t.ms, t.stale, t.was) && |t.values| == |t.ms|
    ensures forall m :: m in t.ms ==> Refreshed(m, t.decompose)
  {
    forall m | m in t.ms
      ensures Refreshed(m, t.decompose)
    {
      var i :| 0 <= i < |t.ms| && t.ms[i] == m;
      assert RefreshedFrom(t.ms[i], t.decompose, t.stale[i], t.was[i]);
    }
  }

  /** GetInertia's fallback: an inertia of exactly 0 becomes 0.25. */
  function InertiaFrom(area: real, mass: real): (r: real)
    ensures r != 0.0
    ensures area * 2.0 * mass != 0.0 ==> r == area * 2.0 * mass
  {
    var inertia := area * 2.0 * mass;
    if inertia == 0.0 then 0.25 else inertia
  }

  /**
   * The transform UpdateMeshTransforms leaves on mesh `m` of a body at
   * `position` turned by `rotation`.
   */
  ghost predicate Placed(num: Numerics, position: Vec, rotation: real, m: Mesh)
    reads m`globalRotation, m`rotation, m`globalPosition, m`position, m`particles
    reads (set p | p in m.particles)`globalPosition, (set p | p in m.particles)`position
  {
    m.globalRotation == rotation + m.rotation &&
    m.globalPosition == Add(position, Rotated(num, m.position, rotation)) &&
    forall p :: p in m.particles ==> p.globalPosition == Place(num, m.globalPosition, m.globalRotation, p.position)
  }

  /**
   * The previous-position rule of UpdateMeshTransforms: a rigid body's
   * particle keeps its old global position as the previous one, any other
   * particle gets its new position, which zeroes its implicit velocity.
   */
  twostate predicate PreviousKept(rigid: bool, p: Particle)
    reads p`prevGlobalPosition, p`globalPosition
  {
    p.prevGlobalPosition == if rigid then old(p.globalPosition) else p.globalPosition
  }

  /** No particle of `m` has moved from the global and local positions recorded in `g0` and `l0`. */
  ghost predicate Untouched(m: Mesh, g0: map<Particle, Vec>, l0: map<Particle, Vec>)
    reads m`particles, (set p | p in m.particles)`globalPosition, (set p | p in m.particles)`position
  {
    forall p :: p in m.particles ==> p in g0 && p in l0 && p.globalPosition == g0[p] && p.position == l0[p]
  }

  /**
   * Every particle of `m` has been placed after having been at `g0`: the
   * previous-position rule holds, its box is stale and its local position
   * is still the one in `l0`.
   */
  ghost predicate Settled(rigid: bool, m: Mesh, g0: map<Particle, Vec>, l0: map<Particle, Vec>)
    reads m`particles, (set p | p in m.particles)`prevGlobalPosition, (set p | p in m.particles)`globalPosition
    reads (set p | p in m.particles)`aabbNeedsUpdate, (set p | p in m.particles)`position
  {
    forall p :: p in m.particles ==>
      p in g0 && p in l0 && p.prevGlobalPosition == (if rigid then g0[p] else p.globalPosition) &&
      p.aabbNeedsUpdate && p.position == l0[p]
  }

  /** The global position of every particle of `ps`. */
  ghost function GlobalsOf(ps: seq<Particle>): (g: map<Particle, Vec>)
    reads (set p | p in ps)`globalPosition
    ensures g.Keys == set p | p in ps
    ensures forall p :: p in ps ==> g[p] == p.globalPosition
  {
    if ps == [] then map[] else GlobalsOf(ps[..|ps| - 1])[ps[|ps| - 1] := ps[|ps| - 1].globalPosition]
  }

  /** The local position of every particle of `ps`. */
  ghost function LocalsOf(ps: seq<Particle>): (l: map<Particle, Vec>)
    reads (set p | p in ps)`position
    ensures l.Keys == set p | p in ps
    ensures forall p :: p in ps ==> l[p] == p.position
  {
    if ps == [] then map[] else LocalsOf(ps[..|ps| - 1])[ps[|ps| - 1] := ps[|ps| - 1].position]
  }

  /** The global position of every particle of `ms`. */
  ghost function GlobalPositions(ms: seq<Mesh>): (g: map<Particle, Vec>)
    reads (set m | m in ms)`particles, ParticlesOf(ms)`globalPosition
    ensures g.Keys == ParticlesOf(ms)
    ensures forall m, p :: m in ms && p in m.particles ==> g[p] == p.globalPosition
  {
    if ms == [] then map[]
    else
      assert ParticlesOf(ms[..|ms| - 1]) <= ParticlesOf(ms);
      GlobalPositions(ms[..|ms| - 1]) + GlobalsOf(ms[|ms| - 1].particles)
  }

  /** The local position of every particle of `ms`. */
  ghost function LocalPositions(ms: seq<Mesh>): (l: map<Particle, Vec>)
    reads (set m | m in ms)`particles, ParticlesOf(ms)`position
    ensures l.Keys == ParticlesOf(ms)
    ensures forall m, p :: m in ms && p in m.particles ==> l[p] == p.position
  {
    if ms == [] then map[]
    else
      assert ParticlesOf(ms[..|ms| - 1]) <= ParticlesOf(ms);
      LocalPositions(ms[..|ms| - 1]) + LocalsOf(ms[|ms| - 1].particles)
  }

  /** `g0` and `l0` record the global and local position of every particle of `ms`. */
  ghost predicate Snapshots(ms: seq<Mesh>, g0: map<Particle, Vec>, l0: map<Particle, Vec>)
    reads (set m | m in ms)`particles, ParticlesOf(ms)`globalPosition, ParticlesOf(ms)`position
  {
    forall m, p :: m in ms && p in m.particles ==> p in g0 && g0[p] == p.globalPosition && p in l0 && l0[p] == p.position
  }

  /**
   * Particle `p` of mesh `m` is settled: it sits at its place on the mesh,
   * follows the previous-position rule after having been at g0[p], its box
   * is stale and its local position is still l0[p].
   */
  ghost predicate ParticleSettled(num: Numerics, rigid: bool, m: Mesh, p: Particle,
                                  g0: map<Particle, Vec>, l0: map<Particle, Vec>)
    reads m`globalPosition, m`globalRotation
    reads p`globalPosition, p`prevGlobalPosition, p`aabbNeedsUpdate, p`position
  {
    p in g0 && p in l0 &&
    p.globalPosition == Place(num, m.globalPosition, m.globalRotation, p.position) &&
    p.prevGlobalPosition == (if rigid then g0[p] else p.globalPosition) &&
    p.aabbNeedsUpdate && p.position == l0[p]
  }

  /** No particle belongs to two of the meshes `ms`. */
  ghost predicate Separate(ms: seq<Mesh>)
    reads (set m | m in ms)`particles
  {
    forall i, j, p :: 0 <= i < |ms| && 0 <= j < |ms| && i != j && p in ms[i].particles ==> p !in ms[j].particles
  }

  /** The data of one turn of UpdateMeshTransforms: the body's transform, its meshes, the mesh placed, and the snapshots. */
  datatype MeshStep = MeshStep(num: Numerics, position: Vec, rotation: real, rigid: bool, ms: seq<Mesh>, n: nat,
                               g0: map<Particle, Vec>, l0: map<Particle, Vec>)

  /**
   * When only mesh ms[n] and its own particles have changed, every other
   * mesh of `ms` is still as placed, settled or untouched as it was.
   */
  twostate lemma OtherMeshesFramed(s: MeshStep)
    requires s.n < |s.ms| && Separate(s.ms)
    requires forall i :: 0 <= i < |s.ms| && i != s.n ==> unchanged(s.ms[i])
    requires forall i, p :: 0 <= i < |s.ms| && p in s.ms[i].particles && p !in s.ms[s.n].particles ==> unchanged(p)
    ensures forall i :: 0 <= i < |s.ms| && i != s.n ==>
              (old(Placed(s.num, s.position, s.rotation, s.ms[i])) ==> Placed(s.num, s.position, s.rotation, s.ms[i])) &&
              (old(Settled(s.rigid, s.ms[i], s.g0, s.l0)) ==> Settled(s.rigid, s.ms[i], s.g0, s.l0)) &&
              (old(Untouched(s.ms[i], s.g0, s.l0)) ==> Untouched(s.ms[i], s.g0, s.l0))
  {
    forall i | 0 <= i < |s.ms| && i != s.n
      ensures unchanged(set p | p in s.ms[i].particles)
    {
      forall p | p in s.ms[i].particles
        ensures unchanged(p)
      {
        assert p !in s.ms[s.n].particles;
      }
    }
  }

  /**
   * How far UpdateMeshTransforms has got: the meshes before s.n are placed
   * and settled, the ones from s.n on are untouched.
   */
  ghost predicate Progress(s: MeshStep)
    reads (set m | m in s.ms), ParticlesOf(s.ms)
  {
    s.n <= |s.ms| &&
    (forall i :: 0 <= i < s.n ==>
       Placed(s.num, s.position, s.rotation, s.ms[i]) && Settled(s.rigid, s.ms[i], s.g0, s.l0)) &&
    forall i :: s.n <= i < |s.ms| ==> Untouched(s.ms[i], s.g0, s.l0)
  }

  /** Before the first turn of UpdateMeshTransforms nothing is placed and every mesh is as recorded. */
  lemma StartProgress(s: MeshStep)
    requires s.n == 0 && Snapshots(s.ms, s.g0, s.l0)
    ensures Progress(s)
  {
    forall i | 0 <= i < |s.ms|
      ensures Untouched(s.ms[i], s.g0, s.l0)
    {
      assert s.ms[i] in s.ms;
    }
  }

  /** A body and what its meshes were placed and settled with: the angles and the position snapshots. */
  datatype Placement = Placement(b: Body, num: Numerics, g0: map<Particle, Vec>, l0: map<Particle, Vec>)

  /**
   * A body whose transform, meshes and particles are as they were is as
   * placed and as settled as it was.
   */
  twostate lemma PlacementFramed(pl: Placement)
    requires pl.b.meshes == old(pl.b.meshes) && pl.b.position == old(pl.b.position)
    requires pl.b.rotation == old(pl.b.rotation) && pl.b.bodyType == old(pl.b.bodyType)
    requires forall m :: m in pl.b.meshes ==>
               m.particles == old(m.particles) && m.position == old(m.position) && m.rotation == old(m.rotation) &&
               m.globalPosition == old(m.globalPosition) && m.globalRotation == old(m.globalRotation)
    requires unchanged(pl.b.MeshParticles())
    ensures old(pl.b.MeshesPlaced(pl.num)) ==> pl.b.MeshesPlaced(pl.num)
    ensures old(pl.b.MeshesSettled(pl.g0, pl.l0)) ==> pl.b.MeshesSettled(pl.g0, pl.l0)
  {
  }

  /** A body whose meshes keep their particles and owners is as wired as it was. */
  twostate lemma WiredFramed(b: Body)
    requires b.meshes == old(b.meshes)
    requires forall m :: m in b.meshes ==> m.particles == old(m.particles) && m.ownerBody == old(m.ownerBody)
    requires forall p :: p in b.MeshParticles() ==> p.ownerMesh == old(p.ownerMesh)
    ensures old(b.Wired()) ==> b.Wired()
  {
  }

  // ================================================================ meshes from mesh data

  /** The particles a polygon's indices name, in order. */
  function Picked(particles: seq<Particle>, indices: seq<int>): (r: seq<Particle>)
    requires MeshDatas.IndicesInRange(indices, |particles|)
    ensures |r| == |indices| && forall k :: 0 <= k < |indices| ==> r[k] == particles[indices[k]]
  {
    seq(|indices|, k requires 0 <= k < |indices| => particles[indices[k]])
  }

  /** The polygons a list of index polygons names. */
  function PickedPolygons(particles: seq<Particle>, polygons: seq<seq<int>>): (r: seq<seq<Particle>>)
    requires forall k :: 0 <= k < |polygons| ==> MeshDatas.IndicesInRange(polygons[k], |particles|)
    ensures |r| == |polygons| && forall k :: 0 <= k < |polygons| ==> r[k] == Picked(particles, polygons[k])
  {
    seq(|polygons|, k requires 0 <= k < |polygons| => Picked(particles, polygons[k]))
  }

  /** Particle p is the i-th particle of the data: its position, radius and internal flag, otherwise as new. */
  ghost predicate MadeFrom(p: Particle, data: MeshDatas.MeshData, i: int)
    reads p
  {
    0 <= i < |data.particlePositions| && i < |data.particleRadValues| && i < |data.particleInternalValues| &&
    p.position == data.particlePositions[i] && p.globalPosition == data.particlePositions[i] &&
    p.prevGlobalPosition == data.particlePositions[i] &&
    p.radius == data.particleRadValues[i] && p.isInternal == data.particleInternalValues[i] &&
    p.mass == 1.0 && p.enabled && !p.lazy && p.force == Zero()
  }

  /** The particle CreateWithMeshData makes for entry i of the data, before it joins a mesh. */
  method NewParticleFrom(data: MeshDatas.MeshData, i: nat) returns (p: Particle)
    requires i < |data.particlePositions| && i < |data.particleRadValues| && i < |data.particleInternalValues|
    ensures fresh(p) && MadeFrom(p, data, i) && p.ownerMesh == null
  {
    p := new Particle(data.particlePositions[i], 0.5);
    p.isInternal := data.particleInternalValues[i];
    p.SetRadius(data.particleRadValues[i]);
  }

  /**
   * Spring s joins the two particles the pair names, is of the given kind and
   * rests at the distance between their positions in the data.
   */
  ghost predicate Joins(num: Numerics, s: Spring, particles: seq<Particle>, positions: seq<Vec>,
                        pair: MeshDatas.IndexPair, internal: bool)
    reads s
  {
    0 <= pair.first < |particles| && 0 <= pair.second < |particles| &&
    pair.first < |positions| && pair.second < |positions| &&
    s.pA == particles[pair.first] && s.pB == particles[pair.second] && s.isInternal == internal &&
    s.length == Length(num, Sub(positions[pair.first], positions[pair.second])) &&
    s.rigidity == 1.0 && s.enabled
  }

  /** The springs are those of the pairs, one each, in order. */
  ghost predicate SpringsJoin(num: Numerics, springs: seq<Spring>, particles: seq<Particle>, positions: seq<Vec>,
                              pairs: seq<MeshDatas.IndexPair>, internal: bool)
    reads springs
  {
    |springs| == |pairs| &&
    forall k :: 0 <= k < |pairs| ==> Joins(num, springs[k], particles, positions, pairs[k], internal)
  }

  /** In a sequence without repeats, the index of the i-th element is i. */
  lemma IndexOfDistinct<T>(s: seq<T>, i: int)
    requires Seqs.Distinct(s) && 0 <= i < |s|
    ensures Seqs.IndexOf(s, s[i]) == i
  {
    assert s[i] !in s[..i] by {
      forall j | 0 <= j < i ensures s[..i][j] != s[i] {
        assert s[..i][j] == s[j];
      }
    }
    IndexOfFirst(s, s[i], i);
  }

  /**
   * The spring loops of CreateWithMeshData: one new spring of the given kind
   * per index pair, in order.
   */
  method MakeSprings(num: Numerics, particles: seq<Particle>, positions: seq<Vec>,
                     pairs: seq<MeshDatas.IndexPair>, internal: bool)
    returns (springs: seq<Spring>)
    requires |particles| == |positions| && MeshDatas.PairsInRange(pairs, |particles|)
    requires forall i :: 0 <= i < |particles| ==> particles[i].globalPosition == positions[i]
    ensures SpringsJoin(num, springs, particles, positions, pairs, internal)
    ensures forall s :: s in springs ==> fresh(s)
  {
    springs := [];
    for k := 0 to |pairs|
      invariant SpringsJoin(num, springs, particles, positions, pairs[..k], internal)
      invariant forall s :: s in springs ==> fresh(s)
    {
      var spring := new Spring(num, particles[pairs[k].first], particles[pairs[k].second], internal);
      springs := springs + [spring];
    }
  }

  /**
   * QMesh::CreateWithMeshData. The data's indices are looked up without
   * checks, so they must name particles. The new mesh holds one new particle
   * per position, in order; with polygons enabled its closed polygons are the
   * data's index lists read as particles, and with springs enabled its springs
   * are the boundary springs followed by the internal ones. Every spring end
   * sits at the index the data gives it, so GetParticleIndex recovers the
   * data's indices.
   */
  method CreateWithMeshData(num: Numerics, data: MeshDatas.MeshData, enableSprings: bool, enablePolygons: bool)
    returns (res: Mesh)
    requires MeshDatas.WellIndexed(data)
    ensures fresh(res) && res.ownerBody == null && res.Wired()
    ensures |res.particles| == |data.particlePositions|
    ensures forall i :: 0 <= i < |res.particles| ==> fresh(res.particles[i]) && MadeFrom(res.particles[i], data, i)
    ensures res.closedPolygons == if enablePolygons then PickedPolygons(res.particles, data.closedPolygonList) else []
    ensures |res.springs| == if enableSprings then |data.springList| + |data.internalSpringList| else 0
    ensures forall s :: s in res.springs ==> fresh(s)
    ensures enableSprings ==>
      SpringsJoin(num, res.springs[..|data.springList|], res.particles, data.particlePositions, data.springList, false) &&
      SpringsJoin(num, res.springs[|data.springList|..], res.particles, data.particlePositions, data.internalSpringList, true)
    ensures enableSprings ==> forall k :: 0 <= k < |data.springList| ==>
      Seqs.IndexOf(res.particles, res.springs[k].pA) == data.springList[k].first &&
      Seqs.IndexOf(res.particles, res.springs[k].pB) == data.springList[k].second
    ensures res.position == data.position && res.rotation == data.rotation
    ensures res.angleConstraints == [] && res.subConvexPolygons == [] && res.collisionBehavior == Circles
    ensures res.collisionBehaviorNeedsUpdate == (|data.particlePositions| > 0)
  {
    res := new Mesh();
    res.position, res.rotation := data.position, data.rotation;
    res.AddParticlesOf(data);
    if enablePolygons {
      res.closedPolygons := PickedPolygons(res.particles, data.closedPolygonList);
    }
    if enableSprings {
      res.AddSpringsOf(num, data);
    }
  }

  class Body {
    /** The numeric value of the body's pointer, which orders pairs of bodies. */
    const id: nat
    var world: World?
    var position: Vec
    var prevPosition: Vec
    var rotation: real
    var prevRotation: real
    var aabb: AABB
    var mode: Mode
    var inertiaNeedsUpdate: bool
    var circumferenceNeedsUpdate: bool
    var force: Vec
    var angularForce: real
    var enableBodySpecificTimeScale: bool
    var bodySpecificTimeScale: real
    var bodyType: BodyType
    var enabled: bool
    var friction: real
    var staticFriction: real
    var airFriction: real
    var mass: real
    var restitution: real
    var layersBit: bv32
    var collidableLayersBit: bv32
    var isKinematic: bool
    var allowKinematicCollisions: bool
    var isSleeping: bool
    var sleepTick: int
    var fixedVelocityTick: int
    var fixedAngularTick: int
    var canSleep: bool
    var meshes: seq<Mesh>
    var simulationModel: SimulationModel
    var inertia: real
    var circumference: real
    var ignoreGravity: bool
    var enableCustomGravity: bool
    var customGravity: Vec
    var enableIntegratedVelocities: bool
    var velocityLimit: real

    /**
     * QBody(): the field defaults of qbody.h. The world pointer has no
     * initialiser there; the model starts it null.
     */
    constructor(pointer: nat)
      ensures id == pointer && world == null && meshes == []
      ensures position == Zero() && prevPosition == Zero() && rotation == 0.0 && prevRotation == 0.0
      ensures mode == Dynamic && bodyType == Rigid && simulationModel == RigidBody && enabled
      ensures inertiaNeedsUpdate && circumferenceNeedsUpdate && inertia == 0.0 && circumference == 0.0
      ensures force == Zero() && angularForce == 0.0
      ensures friction == 0.2 && staticFriction == 0.5 && airFriction == 0.01 && mass == 1.0 && restitution == 0.0
      ensures layersBit == 1 && collidableLayersBit == 1 && !isKinematic && !allowKinematicCollisions
      ensures !isSleeping && sleepTick == 120 && fixedVelocityTick == 0 && fixedAngularTick == 0 && canSleep
      ensures !ignoreGravity && !enableCustomGravity && enableIntegratedVelocities && velocityLimit == 0.0
    {
      id := pointer;
      world := null;
      position, prevPosition, rotation, prevRotation := Zero(), Zero(), 0.0, 0.0;
      aabb := Make(Zero(), Zero());
      mode, inertiaNeedsUpdate, circumferenceNeedsUpdate := Dynamic, true, true;
      force, angularForce := Zero(), 0.0;
      enableBodySpecificTimeScale, bodySpecificTimeScale := false, 1.0;
      bodyType, enabled := Rigid, true;
      friction, staticFriction, airFriction, mass, restitution := 0.2, 0.5, 0.01, 1.0, 0.0;
      layersBit, collidableLayersBit, isKinematic, allowKinematicCollisions := 1, 1, false, false;
      isSleeping, sleepTick, fixedVelocityTick, fixedAngularTick, canSleep := false, 120, 0, 0, true;
      meshes, simulationModel, inertia, circumference := [], RigidBody, 0.0, 0.0;
      ignoreGravity, enableCustomGravity, customGravity := false, false, Zero();
      enableIntegratedVelocities, velocityLimit := true, 0.0;
    }

    ghost function Core(): BodyCore
      reads this
    {
      BodyCore(world, position, prevPosition, rotation, prevRotation, aabb, mode, force, angularForce,
               enableBodySpecificTimeScale, bodySpecificTimeScale, bodyType, enabled, friction, staticFriction,
               airFriction, mass, restitution, layersBit, collidableLayersBit, isKinematic,
               allowKinematicCollisions, sleepTick, fixedVelocityTick, fixedAngularTick, canSleep, meshes,
               simulationModel, inertia, circumference, ignoreGravity, enableCustomGravity, customGravity,
               enableIntegratedVelocities, velocityLimit)
    }

    /** WakeUp (called by the engine, defined in no file of this model) clears the sleeping flag. */
    method WakeUp()
      modifies this`isSleeping
      ensures !isSleeping
    {
      isSleeping := false;
    }

    /** Marks the cached inertia and circumference stale. */
    method MarkShapeStale()
      modifies this`inertiaNeedsUpdate, this`circumferenceNeedsUpdate
      ensures inertiaNeedsUpdate && circumferenceNeedsUpdate
    {
      inertiaNeedsUpdate := true;
      circumferenceNeedsUpdate := true;
    }

    /** The meshes' particles. */
    function MeshParticles(): set<Particle>
      reads this`meshes, (set m | m in meshes)`particles
    {
      ParticlesOf(meshes)
    }

    /**
     * The ownership links the engine keeps: each mesh appears once and names
     * this body as its owner, and each mesh is wired to its particles.
     */
    ghost predicate Wired()
      reads this`meshes, (set m | m in meshes)`particles, (set m | m in meshes)`ownerBody
      reads MeshParticles()`ownerMesh
    {
      Seqs.Distinct(meshes) &&
      forall m :: m in meshes ==> m.ownerBody == this && Seqs.Distinct(m.particles) &&
                                  forall p :: p in m.particles ==> p.ownerMesh == m
    }

    /** Every mesh sits at the transform UpdateMeshTransforms gives it for the body at `num`'s angles. */
    ghost predicate MeshesPlaced(num: Numerics)
      reads this`meshes, this`position, this`rotation
      reads (set m | m in meshes)`globalRotation, (set m | m in meshes)`rotation
      reads (set m | m in meshes)`globalPosition, (set m | m in meshes)`position, (set m | m in meshes)`particles
      reads MeshParticles()`globalPosition, MeshParticles()`position
    {
      forall m :: m in meshes ==> Placed(num, position, rotation, m)
    }

    /**
     * What placing the meshes did to each particle that was at global
     * position g0[p] and local position l0[p]: a rigid body's particle keeps
     * g0[p] as its previous position, any other particle gets its new
     * position (which zeroes its implicit velocity); its box is stale and
     * its local position is still l0[p].
     */
    ghost predicate MeshesSettled(g0: map<Particle, Vec>, l0: map<Particle, Vec>)
      reads this`meshes, this`bodyType, (set m | m in meshes)`particles
      reads MeshParticles()`prevGlobalPosition, MeshParticles()`globalPosition
      reads MeshParticles()`aabbNeedsUpdate, MeshParticles()`position
    {
      forall m :: m in meshes ==> Settled(bodyType == Rigid, m, g0, l0)
    }

    /** GetOverlapWithLayersBit: the mask shares a bit with the body's layers. */
    predicate GetOverlapWithLayersBit(mask: bv32)
      reads this
    {
      mask & layersBit != 0
    }

    /** GetOverlapWithCollidableLayersBit: the mask shares a bit with the layers the body collides with. */
    predicate GetOverlapWithCollidableLayersBit(mask: bv32)
      reads this
    {
      mask & collidableLayersBit != 0
    }

    /** SetForce and AddForce store the pending force (QBody's own; rigid bodies shadow it). */
    method AddForce(value: Vec)
      modifies this`force
      ensures force == Add(old(force), value)
    {
      force := Add(force, value);
    }

    /** SetMass: stores the mass and marks the inertia stale. */
    method SetMass(value: real)
      modifies this`mass, this`inertiaNeedsUpdate
      ensures mass == value && inertiaNeedsUpdate
    {
      mass := value;
      inertiaNeedsUpdate := true;
    }

    /** SetPreviousPosition: only the previous position changes. */
    method SetPreviousPosition(value: Vec)
      modifies this`prevPosition
      ensures prevPosition == value
    {
      prevPosition := value;
    }

    /**
     * SetEnabled as written: the argument is never read and the body ends up
     * enabled whatever was asked.
     */
    method SetEnabledAsWritten(value: bool)
      modifies this`enabled
      ensures enabled
    {
      enabled := true;
    }

    /** SetEnabled as evidently intended: the body's enabled flag becomes the argument. */
    method SetEnabled(value: bool)
      modifies this`enabled
      ensures enabled == value
    {
      enabled := value;
    }

    /**
     * CanGiveCollisionResponseTo: never to a static body, not between two
     * kinematic bodies unless the other allows it, and not from a dynamic
     * non-kinematic body to a kinematic one.
     */
    predicate CanGiveCollisionResponseTo(other: Body)
      reads this, other
    {
      if other.mode == Static then false
      else if other.isKinematic && isKinematic && !other.allowKinematicCollisions then false
      else if mode != Static && other.isKinematic && !isKinematic then false
      else true
    }

    /** Is the body asleep or static (the bodies CanCollide lets no pair of collide)? */
    predicate Resting()
      reads this
    {
      isSleeping || mode == Static
    }

    /** The tests of CanCollide that come before the collision-exception lookup. */
    static predicate PassesFilters(a: Body, b: Body, checkBodiesAreEnabled: bool)
      reads a, b
    {
      a.world == b.world &&
      (checkBodiesAreEnabled ==> a.enabled && b.enabled) &&
      !(a.Resting() && b.Resting()) &&
      !(a.layersBit & b.collidableLayersBit == 0 && b.layersBit & a.collidableLayersBit == 0)
    }

    /**
     * CanCollide: bodies of different worlds, disabled bodies (when asked),
     * two resting bodies, bodies whose layers miss each other's collidable
     * layers in both directions, and pairs with a collision exception never
     * collide. The exception lookup goes through A's world, which must exist
     * once the other tests pass.
     */
    static predicate CanCollide(a: Body, b: Body, checkBodiesAreEnabled: bool)
      requires PassesFilters(a, b, checkBodiesAreEnabled) ==> a.world != null
      reads a, b, a.world
    {
      if a.world != b.world then false
      else if checkBodiesAreEnabled && (!a.enabled || !b.enabled) then false
      else if a.Resting() && b.Resting() then false
      else if a.layersBit & b.collidableLayersBit == 0 && b.layersBit & a.collidableLayersBit == 0 then false
      else !a.world.CheckCollisionException(a, b)
    }

    /** RemoveMeshAt: erases the mesh at `index` and marks inertia and circumference stale. */
    method RemoveMeshAt(index: int)
      requires 0 <= index < |meshes|
      modifies this`meshes, this`inertiaNeedsUpdate, this`circumferenceNeedsUpdate
      ensures meshes == Seqs.RemoveAt(old(meshes), index) && inertiaNeedsUpdate && circumferenceNeedsUpdate
    {
      meshes := meshes[..index] + meshes[index + 1..];
      inertiaNeedsUpdate := true;
      circumferenceNeedsUpdate := true;
    }

    /**
     * AddMesh: appends the mesh, takes ownership of it, places it and every
     * other mesh at the body's transform, marks inertia and circumference
     * stale and lets the mesh derive its collision behaviour from its new
     * owner.
     */
    method AddMesh(num: Numerics, mesh: Mesh)
      requires Wired() && mesh !in meshes && mesh.Wired()
      modifies this`meshes, mesh`ownerBody, mesh`collisionBehavior
      modifies (set m | m in meshes + [mesh])`globalRotation, (set m | m in meshes + [mesh])`globalPosition
      modifies ParticlesOf(meshes + [mesh])`globalPosition, ParticlesOf(meshes + [mesh])`prevGlobalPosition
      modifies ParticlesOf(meshes + [mesh])`aabbNeedsUpdate, ParticlesOf(meshes + [mesh])`position
      modifies this`inertiaNeedsUpdate, this`circumferenceNeedsUpdate
      ensures meshes == old(meshes) + [mesh] && mesh.ownerBody == this && Wired()
      ensures inertiaNeedsUpdate && circumferenceNeedsUpdate
      ensures mesh.collisionBehavior == if mesh.closedPolygons == [] then Circles
                                        else if simulationModel == RigidBody then Polygons else Polyline
      ensures MeshesPlaced(num)
      ensures MeshesSettled(old(GlobalPositions(meshes + [mesh])), old(LocalPositions(meshes + [mesh])))
    {
      ghost var g0, l0 := GlobalPositions(meshes + [mesh]), LocalPositions(meshes + [mesh]);
      Attach(mesh, g0, l0);
      PlaceAttached(num, g0, l0);
      AdoptShapes(num, mesh, g0, l0);
      assert g0 == old(GlobalPositions(meshes + [mesh])) && l0 == old(LocalPositions(meshes + [mesh]));
    }

    /** The end of AddMesh: the new mesh derives its collision behaviour from this body. */
    method AdoptShapes(num: Numerics, mesh: Mesh, ghost g0: map<Particle, Vec>, ghost l0: map<Particle, Vec>)
      requires Wired() && mesh in meshes && MeshesPlaced(num) && MeshesSettled(g0, l0)
      modifies mesh`collisionBehavior
      ensures Wired() && MeshesPlaced(num) && MeshesSettled(g0, l0)
      ensures mesh.collisionBehavior == if mesh.closedPolygons == [] then Circles
                                        else if simulationModel == RigidBody then Polygons else Polyline
    {
      label placed:
      mesh.UpdateCollisionBehavior();
      PlacementFramed@placed(Placement(this, num, g0, l0));
      WiredFramed@placed(this);
    }

    /** The middle of AddMesh: every mesh is placed and the caches are marked stale. */
    method PlaceAttached(num: Numerics, ghost g0: map<Particle, Vec>, ghost l0: map<Particle, Vec>)
      requires Wired() && Snapshots(meshes, g0, l0)
      modifies (set m | m in meshes)`globalRotation, (set m | m in meshes)`globalPosition
      modifies MeshParticles()`globalPosition, MeshParticles()`prevGlobalPosition
      modifies MeshParticles()`aabbNeedsUpdate, MeshParticles()`position
      modifies this`inertiaNeedsUpdate, this`circumferenceNeedsUpdate
      ensures Wired() && inertiaNeedsUpdate && circumferenceNeedsUpdate
      ensures MeshesPlaced(num) && MeshesSettled(g0, l0)
    {
      UpdateMeshTransforms(num, g0, l0);
      FlagPlacedStale(num, g0, l0);
    }

    /** The flag writes of AddMesh, on placed meshes, which stay placed. */
    method FlagPlacedStale(num: Numerics, ghost g0: map<Particle, Vec>, ghost l0: map<Particle, Vec>)
      requires Wired() && MeshesPlaced(num) && MeshesSettled(g0, l0)
      modifies this`inertiaNeedsUpdate, this`circumferenceNeedsUpdate
      ensures Wired() && inertiaNeedsUpdate && circumferenceNeedsUpdate
      ensures MeshesPlaced(num) && MeshesSettled(g0, l0)
    {
      label placed:
      inertiaNeedsUpdate := true;
      circumferenceNeedsUpdate := true;
      PlacementFramed@placed(Placement(this, num, g0, l0));
    }

    /** The start of AddMesh: the mesh is appended and owned by this body. */
    method Attach(mesh: Mesh, ghost g0: map<Particle, Vec>, ghost l0: map<Particle, Vec>)
      requires Wired() && mesh !in meshes && mesh.Wired() && Snapshots(meshes + [mesh], g0, l0)
      modifies this`meshes, mesh`ownerBody
      ensures meshes == old(meshes) + [mesh] && mesh.ownerBody == this && Wired() && Snapshots(meshes, g0, l0)
    {
      meshes := meshes + [mesh];
      mesh.ownerBody := this;
      forall m | m in meshes
        ensures m.ownerBody == this && Seqs.Distinct(m.particles) && forall p :: p in m.particles ==> p.ownerMesh == m
      {
        if m != mesh {
          assert m in old(meshes);
        }
      }
    }

    /**
     * UpdateMeshTransforms: each mesh is turned with the body and placed at
     * the body's position plus its own offset turned by the body's
     * rotation; each particle goes to its local position turned by the
     * mesh's global rotation, and its previous position follows the rule of
     * PreviousKept.
     */
    method UpdateMeshTransforms(num: Numerics, ghost g0: map<Particle, Vec>, ghost l0: map<Particle, Vec>)
      requires Wired() && Snapshots(meshes, g0, l0)
      modifies (set m | m in meshes)`globalRotation, (set m | m in meshes)`globalPosition
      modifies MeshParticles()`globalPosition, MeshParticles()`prevGlobalPosition
      modifies MeshParticles()`aabbNeedsUpdate, MeshParticles()`position
      modifies this`inertiaNeedsUpdate, this`circumferenceNeedsUpdate
      ensures Wired() && MeshesPlaced(num) && MeshesSettled(g0, l0)
      ensures position == old(position) && prevPosition == old(prevPosition)
      ensures rotation == old(rotation) && prevRotation == old(prevRotation)
    {
      var ms := meshes;
      ghost var s := MeshStep(num, position, rotation, bodyType == Rigid, ms, 0, g0, l0);
      StartProgress(s);
      SeparateMeshes();
      for n := 0 to |ms|
        invariant forall i :: 0 <= i < |ms| ==> ms[i].ownerBody == this && ms[i].Wired()
        invariant Progress(s.(n := n))
      {
        PlaceNext(num, ms[n], s.(n := n));
      }
      AllPlaced(s.(n := |ms|));
    }

    /** Wired meshes share no particle: each particle names only one of them as its owner. */
    lemma SeparateMeshes()
      requires Wired()
      ensures Separate(meshes)
    {
      forall i, j, p | 0 <= i < |meshes| && 0 <= j < |meshes| && i != j && p in meshes[i].particles
        ensures p !in meshes[j].particles
      {
        assert p.ownerMesh == meshes[i];
      }
    }

    /** When UpdateMeshTransforms has been through all the meshes, each is placed and settled. */
    lemma AllPlaced(s: MeshStep)
      requires s.ms == meshes && s.n == |s.ms| && Progress(s)
      requires s.position == position && s.rotation == rotation && s.rigid == (bodyType == Rigid)
      requires Seqs.Distinct(meshes) && forall i :: 0 <= i < |s.ms| ==> s.ms[i].ownerBody == this && s.ms[i].Wired()
      ensures Wired() && MeshesPlaced(s.num) && MeshesSettled(s.g0, s.l0)
    {
      forall m | m in meshes
        ensures m.ownerBody == this && m.Wired()
        ensures Placed(s.num, position, rotation, m) && Settled(bodyType == Rigid, m, s.g0, s.l0)
      {
        var i :| 0 <= i < |s.ms| && s.ms[i] == m;
      }
    }

    /** The turn of UpdateMeshTransforms that places mesh `m`, which is s.ms[s.n]. */
    method PlaceNext(num: Numerics, m: Mesh, ghost s: MeshStep)
      requires s.n < |s.ms| && Seqs.Distinct(s.ms) && m == s.ms[s.n] && num == s.num
      requires s.position == position && s.rotation == rotation && s.rigid == (bodyType == Rigid)
      requires Separate(s.ms)
      requires forall i :: 0 <= i < |s.ms| ==> s.ms[i].ownerBody == this && s.ms[i].Wired()
      requires Progress(s)
      modifies {s.ms[s.n]}`globalRotation, {s.ms[s.n]}`globalPosition
      modifies (set p | p in s.ms[s.n].particles)`globalPosition, (set p | p in s.ms[s.n].particles)`prevGlobalPosition
      modifies (set p | p in s.ms[s.n].particles)`aabbNeedsUpdate, (set p | p in s.ms[s.n].particles)`position
      modifies this`inertiaNeedsUpdate, this`circumferenceNeedsUpdate
      ensures Progress(s.(n := s.n + 1))
      ensures forall i :: 0 <= i < |s.ms| ==> s.ms[i].ownerBody == this && s.ms[i].Wired()
    {
      label before:
      PlaceMesh(num, m, s.g0, s.l0);
      OtherMeshesFramed@before(s);
    }

    /** One mesh's turn of UpdateMeshTransforms. */
    method PlaceMesh(num: Numerics, m: Mesh, ghost g0: map<Particle, Vec>, ghost l0: map<Particle, Vec>)
      requires m.ownerBody == this && m.Wired() && Untouched(m, g0, l0)
      modifies m`globalRotation, m`globalPosition
      modifies (set p | p in m.particles)`globalPosition, (set p | p in m.particles)`prevGlobalPosition
      modifies (set p | p in m.particles)`aabbNeedsUpdate, (set p | p in m.particles)`position
      modifies this`inertiaNeedsUpdate, this`circumferenceNeedsUpdate
      ensures Placed(num, position, rotation, m) && Settled(bodyType == Rigid, m, g0, l0)
    {
      m.globalRotation := rotation + m.rotation;
      var c, s := num.cos(m.globalRotation), num.sin(m.globalRotation);
      m.globalPosition := Add(position, Rotated(num, m.position, rotation));
      var ps := m.particles;
      for i := 0 to |ps|
        invariant m.globalRotation == rotation + m.rotation
        invariant m.globalPosition == Add(position, Rotated(num, m.position, rotation))
        invariant forall k :: 0 <= k < i ==> ParticleSettled(num, bodyType == Rigid, m, ps[k], g0, l0)
        invariant forall k :: i <= k < |ps| ==>
                    ps[k] in g0 && ps[k] in l0 && ps[k].globalPosition == g0[ps[k]] && ps[k].position == l0[ps[k]]
      {
        PlaceAt(num, m, ps[i], i, c, s, g0, l0);
      }
      forall p | p in m.particles
        ensures ParticleSettled(num, bodyType == Rigid, m, p, g0, l0)
      {
        var k :| 0 <= k < |ps| && ps[k] == p;
      }
    }

    /** The particle at index i of `m` takes its turn; the ones before it stay placed, the ones after it untouched. */
    method PlaceAt(num: Numerics, m: Mesh, p: Particle, i: nat, c: real, s: real,
                   ghost g0: map<Particle, Vec>, ghost l0: map<Particle, Vec>)
      requires m.ownerBody == this && m.Wired() && i < |m.particles| && p == m.particles[i]
      requires c == num.cos(m.globalRotation) && s == num.sin(m.globalRotation)
      requires forall k :: 0 <= k < i ==> ParticleSettled(num, bodyType == Rigid, m, m.particles[k], g0, l0)
      requires forall k :: i <= k < |m.particles| ==>
                 m.particles[k] in g0 && m.particles[k] in l0 &&
                 m.particles[k].globalPosition == g0[m.particles[k]] && m.particles[k].position == l0[m.particles[k]]
      modifies p`globalPosition, p`prevGlobalPosition, p`aabbNeedsUpdate, p`position
      modifies this`inertiaNeedsUpdate, this`circumferenceNeedsUpdate
      ensures forall k :: 0 <= k <= i ==> ParticleSettled(num, bodyType == Rigid, m, m.particles[k], g0, l0)
      ensures forall k :: i < k < |m.particles| ==>
                m.particles[k] in g0 && m.particles[k] in l0 &&
                m.particles[k].globalPosition == g0[m.particles[k]] && m.particles[k].position == l0[m.particles[k]]
    {
      var ps := m.particles;
      PlaceParticle(num, m, p, c, s, g0, l0);
      forall k | 0 <= k < |ps| && k != i
        ensures ps[k] != p
      {
      }
    }

    /** One particle's turn of UpdateMeshTransforms, given the mesh's unit rotation vector (c, s). */
    method PlaceParticle(num: Numerics, m: Mesh, particle: Particle, c: real, s: real,
                         ghost g0: map<Particle, Vec>, ghost l0: map<Particle, Vec>)
      requires particle.ownerMesh == m && m.ownerBody == this
      requires c == num.cos(m.globalRotation) && s == num.sin(m.globalRotation)
      requires particle in g0 && particle in l0
      requires particle.globalPosition == g0[particle] && particle.position == l0[particle]
      modifies particle`globalPosition, particle`prevGlobalPosition, particle`aabbNeedsUpdate, particle`position
      modifies this`inertiaNeedsUpdate, this`circumferenceNeedsUpdate
      ensures ParticleSettled(num, bodyType == Rigid, m, particle, g0, l0)
      ensures inertiaNeedsUpdate && circumferenceNeedsUpdate
    {
      var originVec := particle.position;
      var newPos := Add(m.globalPosition, Turn(originVec, c, s));
      if bodyType == Rigid {
        particle.SetPreviousGlobalPosition(particle.globalPosition);
      } else {
        particle.SetPreviousGlobalPosition(newPos);
      }
      particle.SetGlobalPosition(newPos);
      assert particle.position == originVec;
    }

    /**
     * SetPosition: moves the body (and its previous position too when asked,
     * zeroing its velocity), then places the meshes and recomputes the box.
     */
    method SetPosition(num: Numerics, value: Vec, withPreviousPosition: bool)
      requires Wired()
      modifies this`position, this`prevPosition, this`aabb
      modifies (set m | m in meshes)`globalRotation, (set m | m in meshes)`globalPosition
      modifies MeshParticles()`globalPosition, MeshParticles()`prevGlobalPosition
      modifies MeshParticles()`aabbNeedsUpdate, MeshParticles()`position
      modifies this`inertiaNeedsUpdate, this`circumferenceNeedsUpdate
      ensures position == value
      ensures prevPosition == if withPreviousPosition then value else old(prevPosition)
      ensures MeshesPlaced(num) && MeshesSettled(old(GlobalPositions(meshes)), old(LocalPositions(meshes)))
      ensures Boxed()
    {
      ghost var g0, l0 := GlobalPositions(meshes), LocalPositions(meshes);
      MoveTo(value, withPreviousPosition, g0, l0);
      PlaceAndBox(num, g0, l0);
    }

    /** The start of SetPosition: the position writes, which leave the meshes and their particles as they were. */
    method MoveTo(value: Vec, withPreviousPosition: bool, ghost g0: map<Particle, Vec>, ghost l0: map<Particle, Vec>)
      requires Wired() && Snapshots(meshes, g0, l0)
      modifies this`position, this`prevPosition
      ensures position == value
      ensures prevPosition == if withPreviousPosition then value else old(prevPosition)
      ensures Wired() && Snapshots(meshes, g0, l0)
    {
      position := value;
      if withPreviousPosition {
        prevPosition := position;
      }
    }

    /** The end of SetPosition: UpdateMeshTransforms, then UpdateAABB on the placed particles. */
    method PlaceAndBox(num: Numerics, ghost g0: map<Particle, Vec>, ghost l0: map<Particle, Vec>)
      requires Wired() && Snapshots(meshes, g0, l0)
      modifies this`aabb
      modifies (set m | m in meshes)`globalRotation, (set m | m in meshes)`globalPosition
      modifies MeshParticles()`globalPosition, MeshParticles()`prevGlobalPosition
      modifies MeshParticles()`aabbNeedsUpdate, MeshParticles()`position
      modifies this`inertiaNeedsUpdate, this`circumferenceNeedsUpdate
      ensures MeshesPlaced(num) && MeshesSettled(g0, l0) && Boxed()
    {
      UpdateMeshTransforms(num, g0, l0);
      BoxPlaced(num, g0, l0);
    }

    /** UpdateAABB on placed meshes, which stay placed. */
    method BoxPlaced(num: Numerics, ghost g0: map<Particle, Vec>, ghost l0: map<Particle, Vec>)
      requires MeshesPlaced(num) && MeshesSettled(g0, l0)
      modifies this`aabb
      ensures MeshesPlaced(num) && MeshesSettled(g0, l0) && Boxed()
    {
      label placed:
      UpdateAABB();
      PlacementFramed@placed(Placement(this, num, g0, l0));
    }

    /**
     * SetRotation: turns the body (and its previous rotation too when asked,
     * zeroing its angular velocity), then places the meshes.
     */
    method SetRotation(num: Numerics, angleRadian: real, withPreviousRotation: bool)
      requires Wired()
      modifies this`rotation, this`prevRotation
      modifies (set m | m in meshes)`globalRotation, (set m | m in meshes)`globalPosition
      modifies MeshParticles()`globalPosition, MeshParticles()`prevGlobalPosition
      modifies MeshParticles()`aabbNeedsUpdate, MeshParticles()`position
      modifies this`inertiaNeedsUpdate, this`circumferenceNeedsUpdate
      ensures rotation == angleRadian
      ensures prevRotation == if withPreviousRotation then angleRadian else old(prevRotation)
      ensures MeshesPlaced(num) && MeshesSettled(old(GlobalPositions(meshes)), old(LocalPositions(meshes)))
    {
      ghost var g0, l0 := GlobalPositions(meshes), LocalPositions(meshes);
      TurnTo(angleRadian, withPreviousRotation, g0, l0);
      UpdateMeshTransforms(num, g0, l0);
    }

    /** The start of SetRotation: the rotation writes, which leave the meshes and their particles as they were. */
    method TurnTo(angleRadian: real, withPreviousRotation: bool, ghost g0: map<Particle, Vec>, ghost l0: map<Particle, Vec>)
      requires Wired() && Snapshots(meshes, g0, l0)
      modifies this`rotation, this`prevRotation
      ensures rotation == angleRadian
      ensures prevRotation == if withPreviousRotation then angleRadian else old(prevRotation)
      ensures Wired() && Snapshots(meshes, g0, l0)
    {
      rotation := angleRadian;
      if withPreviousRotation {
        prevRotation := angleRadian;
      }
    }

    /**
     * GetTotalInitialArea, GetTotalPolygonsInitialArea, GetTotalArea and
     * GetTotalPolygonsArea: the sum of one mesh area getter over the meshes,
     * each of which refreshes its sub-convex polygons first.
     */
    method GetTotalArea(kind: AreaKind, decompose: Decomposer) returns (r: real)
      requires Seqs.Distinct(meshes)
      modifies (set m | m in meshes)`subConvexPolygons, (set m | m in meshes)`subConvexPolygonsNeedsUpdate
      ensures r == MeshAreas(meshes, kind)
      ensures forall m :: m in old(meshes) ==> Refreshed(m, decompose)
    {
      r := SumMeshes(MeshArea(kind), decompose);
    }

    /**
     * The loop of the area getters and of GetCircumference: the sum of one
     * quantity over the meshes, each mesh refreshed first.
     */
    method SumMeshes(q: Quantity, decompose: Decomposer) returns (r: real)
      requires Seqs.Distinct(meshes)
      modifies (set m | m in meshes)`subConvexPolygons, (set m | m in meshes)`subConvexPolygonsNeedsUpdate
      ensures r == Total(MeasureList(meshes, q))
      ensures forall m :: m in old(meshes) ==> Refreshed(m, decompose)
    {
      var ms := meshes;
      ghost var t0 := StartTally(ms, q, decompose);
      ghost var t := t0;
      r := 0.0;
      for n := 0 to |ms|
        invariant t == t0.(values := t.values) && |t.values| == n
        invariant Tallied(t) && r == Total(t.values) && Recorded(ms, t.stale, t.was)
      {
        r, t := TallyNext(ms, q, decompose, n, r, t);
      }
      assert t.values == MeasureList(ms, q);
      TalliedRefreshed(t);
    }

    /** The tally before the loop: nothing measured, each mesh's flag and sub-convex polygons recorded. */
    static function StartTally(ms: seq<Mesh>, q: Quantity, decompose: Decomposer): (t: Tally)
      reads set m | m in ms
      ensures t.ms == ms && t.q == q && t.decompose == decompose && t.values == []
      ensures Tallied(t)
    {
      Tally(ms, q, decompose, seq(|ms|, i requires 0 <= i < |ms| reads ms => ms[i].subConvexPolygonsNeedsUpdate),
            seq(|ms|, i requires 0 <= i < |ms| reads ms => ms[i].subConvexPolygons), [])
    }

    /**
     * One step of the summing loops of GetTotalArea and GetCircumference:
     * the next mesh is measured and its value added to the running sum; the
     * meshes before it keep their values.
     */
    static method TallyNext(ms: seq<Mesh>, q: Quantity, decompose: Decomposer, n: nat, r: real, ghost t: Tally)
      returns (r': real, ghost t': Tally)
      requires t.ms == ms && t.q == q && t.decompose == decompose && |t.values| == n < |ms|
      requires Seqs.Distinct(ms) && Tallied(t) && r == Total(t.values)
      modifies {ms[n]}`subConvexPolygons, {ms[n]}`subConvexPolygonsNeedsUpdate
      ensures t' == t.(values := t.values + [MeasureOf(ms[n], q)]) && Tallied(t') && r' == Total(t'.values)
    {
      var a := MeasureOne(ms, q, decompose, n);
      TotalSnoc(t.values, a);
      r' := r + a;
      t' := t.(values := t.values + [a]);
      forall i | 0 <= i < n
        ensures t'.values[i] == MeasureOf(ms[i], q) && RefreshedFrom(ms[i], decompose, t.stale[i], t.was[i])
      {
        assert t'.values[i] == t.values[i];
      }
      assert RefreshedFrom(ms[n], decompose, t.stale[n], t.was[n]);
      forall i | n < i < |ms|
        ensures ms[i].subConvexPolygonsNeedsUpdate == t.stale[i] && ms[i].subConvexPolygons == t.was[i]
      {
      }
    }

    /** Measures mesh `n` of `ms`, refreshing it; every other mesh keeps its state and its value. */
    static method MeasureOne(ms: seq<Mesh>, q: Quantity, decompose: Decomposer, n: nat) returns (a: real)
      requires Seqs.Distinct(ms) && n < |ms|
      modifies {ms[n]}`subConvexPolygons, {ms[n]}`subConvexPolygonsNeedsUpdate
      ensures a == MeasureOf(ms[n], q) && Refreshed(ms[n], decompose)
      ensures forall i :: 0 <= i < |ms| && i != n ==> unchanged(ms[i]) && MeasureOf(ms[i], q) == old(MeasureOf(ms[i], q))
    {
      label before:
      match q {
        case MeshArea(kind) => a := ms[n].MeasureArea(kind, decompose);
        case MeshCircumference(num) => a := ms[n].GetCircumference(num, decompose);
      }
      forall i | 0 <= i < |ms| && i != n
        ensures unchanged(ms[i]) && MeasureOf(ms[i], q) == old@before(MeasureOf(ms[i], q))
      {
        assert ms[i] != ms[n];
        MeasureFramed@before(Measure(ms[i], q));
      }
    }

    /** True when the cached inertia is current: it is never 0 then. */
    predicate InertiaSound()
      reads this`inertiaNeedsUpdate, this`inertia
    {
      !inertiaNeedsUpdate ==> inertia != 0.0
    }

    /**
     * GetInertia: when stale, recomputes twice the total initial area times
     * the mass (0 becomes 0.25) and clears the flag; otherwise returns the
     * cache untouched.
     */
    method GetInertia(decompose: Decomposer) returns (r: real)
      requires Seqs.Distinct(meshes)
      modifies this`inertia, this`inertiaNeedsUpdate
      modifies (set m | m in meshes)`subConvexPolygons, (set m | m in meshes)`subConvexPolygonsNeedsUpdate
      ensures r == inertia && !inertiaNeedsUpdate && (old(InertiaSound()) ==> InertiaSound())
      ensures old(inertiaNeedsUpdate) ==> r == InertiaFrom(MeshAreas(meshes, InitialArea), mass)
      ensures old(inertiaNeedsUpdate) ==> forall m :: m in old(meshes) ==> Refreshed(m, decompose)
      ensures !old(inertiaNeedsUpdate) ==> r == old(inertia) && unchanged(set m | m in meshes)
      ensures old(InertiaSound()) ==> r != 0.0
    {
      if inertiaNeedsUpdate {
        RecomputeInertia(decompose);
      }
      r := inertia;
    }

    /** The stale branch of GetInertia: the inertia from the total initial area, and the flag cleared. */
    method RecomputeInertia(decompose: Decomposer)
      requires Seqs.Distinct(meshes)
      modifies this`inertia, this`inertiaNeedsUpdate
      modifies (set m | m in meshes)`subConvexPolygons, (set m | m in meshes)`subConvexPolygonsNeedsUpdate
      ensures inertia == InertiaFrom(MeshAreas(meshes, InitialArea), mass) && !inertiaNeedsUpdate
      ensures forall m :: m in old(meshes) ==> Refreshed(m, decompose)
    {
      var area := GetTotalArea(InitialArea, decompose);
      StoreInertia(area);
    }

    /** The end of RecomputeInertia: the inertia of `area` is stored and the flag cleared; the meshes are not touched. */
    method StoreInertia(area: real)
      requires area == MeshAreas(meshes, InitialArea)
      modifies this`inertia, this`inertiaNeedsUpdate
      ensures inertia == InertiaFrom(MeshAreas(meshes, InitialArea), mass) && !inertiaNeedsUpdate
    {
      label summed:
      inertia := InertiaFrom(area, mass);
      inertiaNeedsUpdate := false;
      SumFramed@summed(MeshSum(meshes, MeshArea(InitialArea)));
    }

    /**
     * GetCircumference: when stale, sums the meshes' circumferences (each
     * refreshing its sub-convex polygons) and clears the flag; otherwise
     * returns the cache untouched.
     */
    method GetCircumference(num: Numerics, decompose: Decomposer) returns (r: real)
      requires Seqs.Distinct(meshes)
      modifies this`circumference, this`circumferenceNeedsUpdate
      modifies (set m | m in meshes)`subConvexPolygons, (set m | m in meshes)`subConvexPolygonsNeedsUpdate
      ensures r == circumference && !circumferenceNeedsUpdate
      ensures old(circumferenceNeedsUpdate) ==> r == MeshPerimeters(num, meshes)
      ensures old(circumferenceNeedsUpdate) ==> forall m :: m in old(meshes) ==> Refreshed(m, decompose)
      ensures !old(circumferenceNeedsUpdate) ==> r == old(circumference) && unchanged(set m | m in meshes)
    {
      if circumferenceNeedsUpdate {
        var c := SumMeshes(MeshCircumference(num), decompose);
        label summed:
        circumference := c;
        circumferenceNeedsUpdate := false;
        SumFramed@summed(MeshSum(meshes, MeshCircumference(num)));
      }
      r := circumference;
    }

    /** The box is the one UpdateAABB computes from the particles' discs. */
    ghost predicate Boxed()
      reads this`aabb, this`meshes, (set m | m in meshes), MeshParticles()
    {
      aabb == Enclose(MeshDiscs(meshes), MAX_WORLD_SIZE)
    }

    /** A box that is up to date contains the box of every particle disc of the body. */
    lemma BoxedContains()
      requires Boxed()
      ensures forall i :: 0 <= i < |MeshDiscs(meshes)| ==> IsContain(aabb, DiscBox(MeshDiscs(meshes)[i]))
    {
      EncloseContains(MeshDiscs(meshes), MAX_WORLD_SIZE);
    }

    /**
     * UpdateAABB: the running bounds over every particle of every mesh, each
     * grown by its radius when that is above 0.5, from the inverted start
     * box of side MAX_WORLD_SIZE.
     */
    method UpdateAABB()
      modifies this`aabb
      ensures Boxed()
    {
      var minX, minY, maxX, maxY := MeshBounds(meshes);
      label bounded:
      aabb := Make(Vec(minX, minY), Vec(maxX, maxY));
      MeshDiscsFramed@bounded(meshes);
    }
  }

  /**
   * The outer loop of QBody::UpdateAABB: the running bounds over every
   * particle of every mesh, from the inverted start box of side
   * MAX_WORLD_SIZE.
   */
  method MeshBounds(meshes: seq<Mesh>) returns (minX: real, minY: real, maxX: real, maxY: real)
    ensures Bounds(Enclose(MeshDiscs(meshes), MAX_WORLD_SIZE), minX, minY, maxX, maxY)
  {
    ghost var dss := DiscLists(meshes);
    minX, minY := MAX_WORLD_SIZE, MAX_WORLD_SIZE;
    maxX, maxY := -MAX_WORLD_SIZE, -MAX_WORLD_SIZE;
    ghost var ds: seq<Disc> := [];
    for i := 0 to |meshes|
      invariant ds == Concat(dss[..i])
      invariant Bounds(Enclose(ds, MAX_WORLD_SIZE), minX, minY, maxX, maxY)
      invariant unchanged(ParticlesOf(meshes))
    {
      var shape := meshes[i];
      minX, minY, maxX, maxY := ExtendBounds(shape.particles, ds, minX, minY, maxX, maxY);
      assert ParticleDiscs(shape.particles) == dss[i];
      ConcatSnoc(dss, i);
      ds := ds + dss[i];
    }
    assert dss[..|meshes|] == dss;
    assert DiscLists(meshes) == dss;
  }

  /**
   * The inner loop of QBody::UpdateAABB: the running bounds carried over the
   * particles of one mesh, each grown by its radius when that is above 0.5.
   */
  method ExtendBounds(ps: seq<Particle>, ghost front: seq<Disc>, minX0: real, minY0: real, maxX0: real, maxY0: real)
    returns (minX: real, minY: real, maxX: real, maxY: real)
    requires minX0 == Enclose(front, MAX_WORLD_SIZE).minPos.x && minY0 == Enclose(front, MAX_WORLD_SIZE).minPos.y
    requires maxX0 == Enclose(front, MAX_WORLD_SIZE).maxPos.x && maxY0 == Enclose(front, MAX_WORLD_SIZE).maxPos.y
    ensures Bounds(Enclose(front + ParticleDiscs(ps), MAX_WORLD_SIZE), minX, minY, maxX, maxY)
  {
    minX, minY, maxX, maxY := minX0, minY0, maxX0, maxY0;
    assert front + ParticleDiscs(ps[..0]) == front;
    for n := 0 to |ps|
      invariant Bounds(Enclose(front + ParticleDiscs(ps[..n]), MAX_WORLD_SIZE), minX, minY, maxX, maxY)
    {
      var particle := ps[n];
      BoundsStep(ps, n, front);
      var r := if particle.radius > 0.5 then particle.radius else 0.0;
      var pMinX := particle.globalPosition.x - r;
      var pMinY := particle.globalPosition.y - r;
      var pMaxX := particle.globalPosition.x + r;
      var pMaxY := particle.globalPosition.y + r;
      if pMinX < minX {
        minX := pMinX;
      }
      if pMinY < minY {
        minY := pMinY;
      }
      if pMaxX > maxX {
        maxX := pMaxX;
      }
      if pMaxY > maxY {
        maxY := pMaxY;
      }
    }
    assert ps[..|ps|] == ps;
  }

  /** The four running bounds of the bounds loop are those of box `b`. */
  predicate Bounds(b: AABB, minX: real, minY: real, maxX: real, maxY: real)
  {
    minX == b.minPos.x && minY == b.minPos.y && maxX == b.maxPos.x && maxY == b.maxPos.y
  }

  /** Visiting particle n moves each bound to the particle's when that is further out. */
  lemma BoundsStep(ps: seq<Particle>, n: nat, front: seq<Disc>)
    requires n < |ps|
    ensures var b, e := Enclose(front + ParticleDiscs(ps[..n]), MAX_WORLD_SIZE), Enclose(front + ParticleDiscs(ps[..n + 1]), MAX_WORLD_SIZE);
            var r := if ps[n].radius > 0.5 then ps[n].radius else 0.0;
            var q := ps[n].globalPosition;
            e.minPos.x == (if q.x - r < b.minPos.x then q.x - r else b.minPos.x) &&
            e.minPos.y == (if q.y - r < b.minPos.y then q.y - r else b.minPos.y) &&
            e.maxPos.x == (if q.x + r > b.maxPos.x then q.x + r else b.maxPos.x) &&
            e.maxPos.y == (if q.y + r > b.maxPos.y then q.y + r else b.maxPos.y)
  {
    var ds := front + ParticleDiscs(ps[..n]);
    var d := Disc(ps[n].globalPosition, ps[n].radius);
    ParticleDiscsSnoc(ps, n);
    assert front + ParticleDiscs(ps[..n + 1]) == ds + [d];
    EncloseStep(ds, d, MAX_WORLD_SIZE);
    DiscBoxBounds(d);
  }

  // ================================================================ the world

  /** The pair the world stores for two bodies: the lower pointer first. */
  function Canonical(a: Body, b: Body): (r: (Body, Body))
    ensures r == (a, b) || r == (b, a)
    ensures r.0.id <= r.1.id || a == b
  {
    if a.id < b.id then (a, b) else (b, a)
  }

  /** Two distinct bodies have distinct pointers; the same body is one pointer. */
  predicate Comparable(a: Body, b: Body)
  {
    a == b || a.id != b.id
  }

  /** Both argument orders name the same stored pair. */
  lemma CanonicalSymmetric(a: Body, b: Body)
    requires Comparable(a, b)
    ensures Canonical(a, b) == Canonical(b, a)
  {
  }

  /** bodyPairEqual: the same two pointers in either order. */
  predicate BodyPairEqual(p1: (Body, Body), p2: (Body, Body))
  {
    (p1.0 == p2.0 && p1.1 == p2.1) || (p1.0 == p2.1 && p1.1 == p2.0)
  }

  /** bodyPairEqual is reflexive, symmetric, transitive and ignores the order inside a pair. */
  lemma BodyPairEqualEquivalence(p1: (Body, Body), p2: (Body, Body), p3: (Body, Body))
    ensures BodyPairEqual(p1, p1) && BodyPairEqual(p1, (p1.1, p1.0))
    ensures BodyPairEqual(p1, p2) ==> BodyPairEqual(p2, p1)
    ensures BodyPairEqual(p1, p2) && BodyPairEqual(p2, p3) ==> BodyPairEqual(p1, p3)
  {
  }

  /** Does a stored pair mention the body? */
  predicate Mentions(pair: (Body, Body), body: Body)
  {
    pair.0 == body || pair.1 == body
  }

  /** The world a frame names: empty for a null pointer. */
  function Worlds(w: World?): set<World>
  {
    if w == null then {} else {w}
  }

  /** A body the island search takes in: enabled and not static. */
  predicate Eligible(b: Body)
    reads b`enabled, b`mode
  {
    b.enabled && b.mode != Static
  }

  /** The island search steps from body a to body b: distinct bodies with colliding boxes that CanCollide. */
  predicate Linked(a: Body, b: Body)
    requires a.world != null
    reads a, b, a.world
  {
    a != b && IsCollidingWith(a.aabb, b.aabb) && Body.CanCollide(a, b, true)
  }

  /**
   * CanCollide does not depend on the order of its arguments, for bodies
   * of the same world with distinct pointers.
   */
  lemma CanCollideSymmetric(a: Body, b: Body, checkBodiesAreEnabled: bool)
    requires a.world != null && b.world != null && Comparable(a, b)
    ensures Body.CanCollide(a, b, checkBodiesAreEnabled) == Body.CanCollide(b, a, checkBodiesAreEnabled)
  {
    if a.world == b.world {
      CanonicalSymmetric(a, b);
    }
  }

  /** Each of the tests of CanCollide rules the pair out on its own. */
  lemma CanCollideFilters(a: Body, b: Body, checkBodiesAreEnabled: bool)
    requires a.world != null
    ensures a.world != b.world ==> !Body.CanCollide(a, b, checkBodiesAreEnabled)
    ensures a.Resting() && b.Resting() ==> !Body.CanCollide(a, b, checkBodiesAreEnabled)
    ensures a.layersBit & b.collidableLayersBit == 0 && b.layersBit & a.collidableLayersBit == 0 ==>
              !Body.CanCollide(a, b, checkBodiesAreEnabled)
    ensures a.world.CheckCollisionException(a, b) ==> !Body.CanCollide(a, b, checkBodiesAreEnabled)
    ensures checkBodiesAreEnabled && !(a.enabled && b.enabled) ==> !Body.CanCollide(a, b, checkBodiesAreEnabled)
  {
  }

  /**
   * The three refusals of CanGiveCollisionResponseTo, and the common case:
   * between bodies that are not kinematic a response is given exactly to a
   * non-static body, so two dynamic plain bodies respond to each other.
   */
  lemma CollisionResponseRules(a: Body, b: Body)
    ensures b.mode == Static ==> !a.CanGiveCollisionResponseTo(b)
    ensures a.isKinematic && b.isKinematic && !b.allowKinematicCollisions ==> !a.CanGiveCollisionResponseTo(b)
    ensures a.mode != Static && !a.isKinematic && b.isKinematic ==> !a.CanGiveCollisionResponseTo(b)
    ensures !a.isKinematic && !b.isKinematic ==> (a.CanGiveCollisionResponseTo(b) <==> b.mode != Static)
    ensures !a.isKinematic && !b.isKinematic && a.mode != Static && b.mode != Static ==>
              a.CanGiveCollisionResponseTo(b) && b.CanGiveCollisionResponseTo(a)
  {
  }

  /** The island edge is symmetric, which is what makes islands the connected parts of the overlap graph. */
  lemma LinkedSymmetric(a: Body, b: Body)
    requires a.world != null && a.world == b.world && Comparable(a, b)
    ensures Linked(a, b) <==> Linked(b, a)
  {
    CollidingSymmetric(a.aabb, b.aabb);
    CanCollideSymmetric(a, b, true);
  }

  /** island[k] is body members[k] of the list. */
  predicate IslandOf(bodies: seq<Body>, island: seq<Body>, members: seq<nat>)
  {
    |island| == |members| && forall k :: 0 <= k < |members| ==> members[k] < |bodies| && island[k] == bodies[members[k]]
  }

  /** Each island holds the bodies at the positions of its group. */
  predicate IslandsOf(bodies: seq<Body>, islands: seq<seq<Body>>, groups: seq<seq<nat>>)
  {
    |islands| == |groups| && forall k :: 0 <= k < |groups| ==> IslandOf(bodies, islands[k], groups[k])
  }

  /** Adding one more island and its group. */
  lemma IslandsAppend(bodies: seq<Body>, islands: seq<seq<Body>>, groups: seq<seq<nat>>, island: seq<Body>, members: seq<nat>)
    requires IslandsOf(bodies, islands, groups) && IslandOf(bodies, island, members)
    ensures IslandsOf(bodies, islands + [island], groups + [members])
  {
  }

  /** A search started from an empty island. */
  lemma IslandFromScratch(bodies: seq<Body>, island: seq<Body>, members: seq<nat>)
    requires IslandOf(bodies, island, [] + members)
    ensures IslandOf(bodies, island, members)
  {
    assert [] + members == members;
  }

  /** IslandOf does not depend on how the member list was put together. */
  lemma IslandRegroup(bodies: seq<Body>, island: seq<Body>, members: seq<nat>, added: seq<nat>, more: seq<nat>)
    requires IslandOf(bodies, island, members + added + more)
    ensures IslandOf(bodies, island, members + (added + more))
  {
    assert members + added + more == members + (added + more);
  }

  /** A particle moved further than the tolerance along one axis since its previous step. */
  predicate ParticleMoving(p: Particle, tolerance: real)
    reads p
  {
    Abs(p.globalPosition.x - p.prevGlobalPosition.x) > tolerance ||
    Abs(p.globalPosition.y - p.prevGlobalPosition.y) > tolerance
  }

  /** The particles of the non-rigid bodies of a list: the ones the sleep step settles. */
  function SoftParticles(bs: seq<Body>): set<Particle>
    reads (set b | b in bs)`bodyType, (set b | b in bs)`meshes, (set b, m | b in bs && m in b.meshes :: m)`particles
  {
    set b, m, p | b in bs && b.bodyType != Rigid && m in b.meshes && p in m.particles :: p
  }

  /** Every particle of the mesh gets its global position as its previous one. */
  method SettleMesh(mesh: Mesh)
    modifies (set p | p in mesh.particles)`prevGlobalPosition
    ensures forall p :: p in mesh.particles ==> p.prevGlobalPosition == p.globalPosition
  {
    for i := 0 to |mesh.particles|
      invariant forall j :: 0 <= j < i ==> mesh.particles[j].prevGlobalPosition == mesh.particles[j].globalPosition
    {
      var particle := mesh.particles[i];
      particle.SetPreviousGlobalPosition(particle.globalPosition);
    }
  }

  /** Every particle of every mesh of the body gets its global position as its previous one. */
  method SettleBody(body: Body)
    modifies ParticlesOf(body.meshes)`prevGlobalPosition
    ensures forall m, p :: m in body.meshes && p in m.particles ==> p.prevGlobalPosition == p.globalPosition
  {
    for m := 0 to |body.meshes|
      invariant forall k, p :: 0 <= k < m && p in body.meshes[k].particles ==> p.prevGlobalPosition == p.globalPosition
    {
      SettleMesh(body.meshes[m]);
    }
  }

  /** The soft particles of a sub-list are among those of the list. */
  lemma SoftParticlesWithin(island: seq<Body>, bodies: seq<Body>)
    requires forall b :: b in island ==> b in bodies
    ensures SoftParticles(island) <= SoftParticles(bodies)
  {
  }

  /** The bodies of an island are distinct when its positions are and the list holds no body twice. */
  lemma IslandDistinct(bodies: seq<Body>, island: seq<Body>, members: seq<nat>)
    requires Seqs.Distinct(bodies) && Seqs.Distinct(members) && IslandOf(bodies, island, members)
    ensures Seqs.Distinct(island)
  {
    forall i, j | 0 <= i < j < |island|
      ensures island[i] != island[j]
    {
      assert members[i] != members[j];
    }
  }

  class World {
    var bodies: seq<Body>
    var joints: seq<Joint>
    var springs: seq<Spring>
    var raycasts: seq<Raycast>
    var sleepingIslands: seq<seq<Body>>
    var collisionExceptions: set<(Body, Body)>
    var enabled: bool
    var gravity: Vec
    var enableSleeping: bool
    var enableBroadphase: bool
    var iteration: int
    var timeScale: real
    var sleepingPositionTolerance: real
    var sleepingRotationTolerance: real

    /** QWorld(): empty registries and the defaults of qworld.h. */
    constructor()
      ensures bodies == [] && joints == [] && springs == [] && raycasts == [] && sleepingIslands == []
      ensures collisionExceptions == {} && enabled && gravity == Vec(0.0, 0.2)
      ensures enableSleeping && enableBroadphase && iteration == 4 && timeScale == 1.0
      ensures sleepingPositionTolerance == 0.1 && sleepingRotationTolerance == PI / 180.0
    {
      bodies, joints, springs, raycasts, sleepingIslands := [], [], [], [], [];
      collisionExceptions := {};
      enabled, gravity := true, Vec(0.0, 0.2);
      enableSleeping, enableBroadphase, iteration, timeScale := true, true, 4, 1.0;
      sleepingPositionTolerance, sleepingRotationTolerance := 0.1, PI / 180.0;
    }

    // ------------------------------------------------------------ configuration

    /** SetGravity: stores the gravity vector and hands back the same world. */
    method SetGravity(value: Vec) returns (w: World)
      modifies this`gravity
      ensures w == this && gravity == value
    {
      gravity := value;
      return this;
    }

    /** SetIterationCount: stores the count and hands back the same world. */
    method SetIterationCount(value: int) returns (w: World)
      modifies this`iteration
      ensures w == this && iteration == value
    {
      iteration := value;
      return this;
    }

    /** SetEnabled: stores the flag and hands back the same world. */
    method SetEnabled(value: bool) returns (w: World)
      modifies this`enabled
      ensures w == this && enabled == value
    {
      enabled := value;
      return this;
    }

    /** SetSleepingEnabled: stores the flag and hands back the same world. */
    method SetSleepingEnabled(value: bool) returns (w: World)
      modifies this`enableSleeping
      ensures w == this && enableSleeping == value
    {
      enableSleeping := value;
      return this;
    }

    /** SetBroadphaseEnabled: stores the flag and hands back the same world. */
    method SetBroadphaseEnabled(value: bool) returns (w: World)
      modifies this`enableBroadphase
      ensures w == this && enableBroadphase == value
    {
      enableBroadphase := value;
      return this;
    }

    /** SetTimeScale: stores the scale and hands back the same world. */
    method SetTimeScale(value: real) returns (w: World)
      modifies this`timeScale
      ensures w == this && timeScale == value
    {
      timeScale := value;
      return this;
    }

    /** SetSleepingPositionTolerance and SetSleepingRotationTolerance: store the tolerances. */
    method SetSleepingTolerances(position: real, rotation: real) returns (w: World)
      modifies this`sleepingPositionTolerance, this`sleepingRotationTolerance
      ensures w == this && sleepingPositionTolerance == position && sleepingRotationTolerance == rotation
    {
      sleepingPositionTolerance := position;
      sleepingRotationTolerance := rotation;
      return this;
    }

    // ------------------------------------------------------------ collision exceptions

    /**
     * CheckCollisionException: is the canonical pair of the two bodies in the
     * exception set?
     */
    predicate CheckCollisionException(bodyA: Body, bodyB: Body)
      reads this
    {
      if collisionExceptions == {} then false
      else Canonical(bodyA, bodyB) in collisionExceptions
    }

    /** AddCollisionException: inserts the canonical pair. */
    method AddCollisionException(bodyA: Body, bodyB: Body)
      modifies this`collisionExceptions
      ensures collisionExceptions == old(collisionExceptions) + {Canonical(bodyA, bodyB)}
      ensures Comparable(bodyA, bodyB) ==> CheckCollisionException(bodyA, bodyB) && CheckCollisionException(bodyB, bodyA)
    {
      collisionExceptions := collisionExceptions + {Canonical(bodyA, bodyB)};
    }

    /** RemoveCollisionException: erases the canonical pair (nothing to do on an empty set). */
    method RemoveCollisionException(bodyA: Body, bodyB: Body)
      modifies this`collisionExceptions
      ensures collisionExceptions == old(collisionExceptions) - {Canonical(bodyA, bodyB)}
      ensures Comparable(bodyA, bodyB) ==> !CheckCollisionException(bodyA, bodyB) && !CheckCollisionException(bodyB, bodyA)
    {
      if collisionExceptions == {} {
        return;
      }
      collisionExceptions := collisionExceptions - {Canonical(bodyA, bodyB)};
    }

    /** RemoveMatchingCollisionException: drops every pair that mentions the body. */
    method RemoveMatchingCollisionException(body: Body?)
      modifies this`collisionExceptions
      ensures body == null ==> collisionExceptions == old(collisionExceptions)
      ensures body != null ==> collisionExceptions == set pair | pair in old(collisionExceptions) && !Mentions(pair, body)
    {
      if body == null || collisionExceptions == {} {
        return;
      }
      collisionExceptions := set pair | pair in collisionExceptions && !Mentions(pair, body);
    }

    // ------------------------------------------------------------ bodies

    /** GetBodyCount. */
    function GetBodyCount(): int
      reads this
    {
      |bodies|
    }

    /** GetBodyAt: no range check in the engine, so the index must be valid. */
    function GetBodyAt(index: int): Body
      requires 0 <= index < |bodies|
      reads this
    {
      bodies[index]
    }

    /** AddBody: appends the body and points it at this world. */
    method AddBody(body: Body) returns (w: World)
      modifies this`bodies, body`world
      ensures w == this && bodies == old(bodies) + [body] && body.world == this
    {
      bodies := bodies + [body];
      body.world := this;
      return this;
    }

    /** GetBodyIndex: -1 for a null pointer, otherwise the first position of the body or -1. */
    method GetBodyIndex(body: Body?) returns (r: int)
      ensures body == null ==> r == -1
      ensures body != null ==> r == Seqs.IndexOf(bodies, body)
    {
      if body == null {
        return -1;
      }
      r := IndexScan(bodies, body);
    }

    /**
     * RemoveBodyAt: out of range, nothing happens; otherwise the body's
     * collision exceptions, joints and springs go first, then the body
     * itself, the others keeping their order.
     */
    method RemoveBodyAt(index: int) returns (w: World)
      modifies this`bodies, this`joints, this`springs, this`collisionExceptions
      ensures w == this
      ensures !(0 <= index < old(|bodies|)) ==>
                bodies == old(bodies) && joints == old(joints) && springs == old(springs) &&
                collisionExceptions == old(collisionExceptions)
      ensures 0 <= index < old(|bodies|) ==>
                var body := old(bodies[index]);
                bodies == Seqs.RemoveAt(old(bodies), index) &&
                collisionExceptions == (set pair | pair in old(collisionExceptions) && !Mentions(pair, body)) &&
                joints == Seqs.Without(old(joints), JointsOf(old(joints), body)) &&
                springs == Seqs.Without(old(springs), SpringsOfBody(old(springs), body))
      ensures 0 <= index < old(|bodies|) ==>
                var body := old(bodies[index]);
                (forall pair :: pair in collisionExceptions ==> !Mentions(pair, body)) &&
                (forall j :: j in joints ==> j.bodyA != body && j.bodyB != body) &&
                (forall s :: s in springs ==> !SpringOwnedBy(s, body))
    {
      if 0 <= index < |bodies| {
        var body := bodies[index];
        RemoveMatchingCollisionException(body);
        var _ := RemoveMatchingJoints(body);
        var _ := RemoveMatchingSprings(body);
        bodies := bodies[..index] + bodies[index + 1..];
      }
      return this;
    }

    /** RemoveBody: RemoveBodyAt at the body's index, when it has one. */
    method RemoveBody(body: Body?) returns (w: World)
      modifies this`bodies, this`joints, this`springs, this`collisionExceptions
      ensures w == this
      ensures body == null || body !in old(bodies) ==>
                bodies == old(bodies) && joints == old(joints) && springs == old(springs) &&
                collisionExceptions == old(collisionExceptions)
      ensures body != null && body in old(bodies) ==>
                bodies == Seqs.RemoveAt(old(bodies), Seqs.IndexOf(old(bodies), body)) &&
                (forall pair :: pair in collisionExceptions ==> !Mentions(pair, body)) &&
                (forall j :: j in joints ==> j.bodyA != body && j.bodyB != body) &&
                (forall s :: s in springs ==> !SpringOwnedBy(s, body))
    {
      var index := GetBodyIndex(body);
      if index != -1 {
        var _ := RemoveBodyAt(index);
      }
      return this;
    }

    // ------------------------------------------------------------ joints

    /**
     * AddJoint as written: appends the joint and points it at this world,
     * adding a collision exception for its bodies when the joint has
     * collisions ENABLED.
     */
    method AddJointAsWritten(joint: Joint) returns (w: World)
      modifies this`joints, this`collisionExceptions, joint`world
      ensures w == this && joints == old(joints) + [joint] && joint.world == this
      ensures collisionExceptions ==
                if joint.collisionsEnabled && joint.bodyA != null && joint.bodyB != null
                then old(collisionExceptions) + {Canonical(joint.bodyA, joint.bodyB)}
                else old(collisionExceptions)
    {
      if joint.collisionsEnabled {
        if joint.bodyA != null && joint.bodyB != null {
          AddCollisionException(joint.bodyA, joint.bodyB);
        }
      }
      joints := joints + [joint];
      joint.world := this;
      return this;
    }

    /**
     * AddJoint as evidently intended: the exception goes in when the joint
     * has collisions DISABLED, as Joint.SetCollisionEnabled(false) does.
     */
    method AddJoint(joint: Joint) returns (w: World)
      modifies this`joints, this`collisionExceptions, joint`world
      ensures w == this && joints == old(joints) + [joint] && joint.world == this
      ensures collisionExceptions ==
                if !joint.collisionsEnabled && joint.bodyA != null && joint.bodyB != null
                then old(collisionExceptions) + {Canonical(joint.bodyA, joint.bodyB)}
                else old(collisionExceptions)
      ensures joint.bodyA != null && joint.bodyB != null && Comparable(joint.bodyA, joint.bodyB) ==>
                (CheckCollisionException(joint.bodyA, joint.bodyB) <==>
                 !joint.collisionsEnabled || Canonical(joint.bodyA, joint.bodyB) in old(collisionExceptions))
    {
      if !joint.collisionsEnabled {
        if joint.bodyA != null && joint.bodyB != null {
          AddCollisionException(joint.bodyA, joint.bodyB);
        }
      }
      joints := joints + [joint];
      joint.world := this;
      return this;
    }

    /** GetJointIndex: the first position of the joint, or -1. */
    method GetJointIndex(joint: Joint) returns (r: int)
      ensures r == Seqs.IndexOf(joints, joint)
    {
      r := IndexScan(joints, joint);
    }

    /** RemoveJoint: erases the first occurrence of the joint, if any. */
    method RemoveJoint(joint: Joint) returns (w: World)
      modifies this`joints
      ensures w == this
      ensures joints == if joint in old(joints) then Seqs.RemoveAt(old(joints), Seqs.IndexOf(old(joints), joint))
                        else old(joints)
    {
      var i := IndexScan(joints, joint);
      if i != -1 {
        joints := joints[..i] + joints[i + 1..];
      }
      return this;
    }

    /** RemoveJointAt: erase() without a range check, so the index must be valid. */
    method RemoveJointAt(index: int) returns (w: World)
      requires 0 <= index < |joints|
      modifies this`joints
      ensures w == this && joints == Seqs.RemoveAt(old(joints), index)
    {
      joints := joints[..index] + joints[index + 1..];
      return this;
    }

    /** RemoveMatchingJoints: erases every joint with the body at either end, the others keeping their order. */
    method RemoveMatchingJoints(body: Body?) returns (w: World)
      modifies this`joints
      ensures w == this && joints == Seqs.Without(old(joints), JointsOf(old(joints), body))
      ensures forall j :: j in joints ==> j in old(joints) && j.bodyA != body && j.bodyB != body
    {
      joints := EraseMatching(joints, JointsOf(joints, body));
      return this;
    }

    // ------------------------------------------------------------ springs

    /** AddSpring: appends the spring. */
    method AddSpring(spring: Spring) returns (w: World)
      modifies this`springs
      ensures w == this && springs == old(springs) + [spring]
    {
      springs := springs + [spring];
      return this;
    }

    /** GetSpringIndex: the first position of the spring, or -1. */
    method GetSpringIndex(spring: Spring) returns (r: int)
      ensures r == Seqs.IndexOf(springs, spring)
    {
      r := IndexScan(springs, spring);
    }

    /** RemoveSpring: erases the first occurrence of the spring, if any. */
    method RemoveSpring(spring: Spring) returns (w: World)
      modifies this`springs
      ensures w == this
      ensures springs == if spring in old(springs) then Seqs.RemoveAt(old(springs), Seqs.IndexOf(old(springs), spring))
                         else old(springs)
    {
      var i := IndexScan(springs, spring);
      if i != -1 {
        springs := springs[..i] + springs[i + 1..];
      }
      return this;
    }

    /** RemoveSpringAt: erase() without a range check, so the index must be valid. */
    method RemoveSpringAt(index: int) returns (w: World)
      requires 0 <= index < |springs|
      modifies this`springs
      ensures w == this && springs == Seqs.RemoveAt(old(springs), index)
    {
      springs := springs[..index] + springs[index + 1..];
      return this;
    }

    /**
     * RemoveMatchingSprings(body): erases every spring with an end particle
     * whose mesh belongs to the body, the others keeping their order.
     */
    method RemoveMatchingSprings(body: Body?) returns (w: World)
      modifies this`springs
      ensures w == this && springs == Seqs.Without(old(springs), SpringsOfBody(old(springs), body))
      ensures forall s :: s in springs ==> s in old(springs) && !SpringOwnedBy(s, body)
    {
      springs := EraseMatching(springs, SpringsOfBody(springs, body));
      return this;
    }

    /** RemoveMatchingSprings(particle): erases every spring with the particle at either end. */
    method RemoveMatchingSpringsOfParticle(particle: Particle) returns (w: World)
      modifies this`springs
      ensures w == this && springs == Seqs.Without(old(springs), SpringsTouching(old(springs), particle))
      ensures forall s :: s in springs ==> s in old(springs) && s.pA != particle && s.pB != particle
    {
      springs := EraseMatching(springs, SpringsTouching(springs, particle));
      return this;
    }

    // ------------------------------------------------------------ raycasts

    /** AddRaycast: appends the raycast and points it at this world. */
    method AddRaycast(raycast: Raycast) returns (w: World)
      modifies this`raycasts, raycast`world
      ensures w == this && raycasts == old(raycasts) + [raycast] && raycast.world == this
    {
      raycasts := raycasts + [raycast];
      raycast.world := this;
      return this;
    }

    /** GetRaycastIndex: the first position of the raycast, or -1. */
    method GetRaycastIndex(raycast: Raycast) returns (r: int)
      ensures r == Seqs.IndexOf(raycasts, raycast)
    {
      r := IndexScan(raycasts, raycast);
    }

    /** RemoveRaycast: erases the first occurrence of the raycast, if any. */
    method RemoveRaycast(raycast: Raycast) returns (w: World)
      modifies this`raycasts
      ensures w == this
      ensures raycasts == if raycast in old(raycasts)
                          then Seqs.RemoveAt(old(raycasts), Seqs.IndexOf(old(raycasts), raycast))
                          else old(raycasts)
    {
      var i := IndexScan(raycasts, raycast);
      if i != -1 {
        raycasts := raycasts[..i] + raycasts[i + 1..];
      }
      return this;
    }

    /** RemoveRaycastAt: erase() without a range check, so the index must be valid. */
    method RemoveRaycastAt(index: int) returns (w: World)
      requires 0 <= index < |raycasts|
      modifies this`raycasts
      ensures w == this && raycasts == Seqs.RemoveAt(old(raycasts), index)
    {
      raycasts := raycasts[..index] + raycasts[index + 1..];
      return this;
    }

    // ------------------------------------------------------------ islands

    /**
     * What the island search relies on: every body points back at this
     * world (AddBody sets the pointer), no body is registered twice, and
     * distinct bodies have distinct pointers.
     */
    ghost predicate Registered()
      reads this, set b | b in bodies
    {
      Seqs.Distinct(bodies) &&
      (forall b :: b in bodies ==> b.world == this) &&
      (forall a, b :: a in bodies && b in bodies ==> Comparable(a, b))
    }

    /** adj and elig tabulate Linked and Eligible over the bodies of the world, by position. */
    ghost predicate Tabulated(adj: seq<seq<bool>>, elig: seq<bool>)
      reads this, (set b | b in bodies)
    {
      Registered() && Shaped(adj, elig, |bodies|) &&
      (forall i :: 0 <= i < |bodies| ==> elig[i] == Eligible(bodies[i])) &&
      forall i, j :: 0 <= i < |bodies| && 0 <= j < |bodies| ==> adj[i][j] == Linked(bodies[i], bodies[j])
    }

    /** The tables of Linked and Eligible for the bodies as they are. */
    lemma Tables() returns (adj: seq<seq<bool>>, elig: seq<bool>)
      requires Registered()
      ensures Tabulated(adj, elig) && Symmetric(adj)
    {
      adj := LinkTable(this, bodies, bodies);
      elig := EligibleList(bodies);
      forall i, j | 0 <= i < |bodies| && 0 <= j < |bodies|
        ensures adj[i][j] == adj[j][i]
      {
        LinkedSymmetric(bodies[i], bodies[j]);
      }
    }

    /** One entry of the tables. */
    lemma TabulatedAt(adj: seq<seq<bool>>, elig: seq<bool>, i: nat, j: nat)
      requires Tabulated(adj, elig) && i < |bodies| && j < |bodies|
      ensures adj[i][j] == Linked(bodies[i], bodies[j]) && elig[j] == Eligible(bodies[j])
    {
    }

    /**
     * CreateIslands: the depth-first search from body `bodyIndex`. A
     * visited, disabled or static body ends the branch; otherwise the body
     * is marked, joins the island, and the search goes on into every body
     * whose box collides with its own and that CanCollide with it. The
     * island and the visited flags are passed in and handed back updated
     * (they are reference parameters in the source). The bodies it takes
     * in (`added`, by position) are exactly the ones it marks, all
     * eligible, and each has all its eligible neighbours marked by the
     * time the search returns.
     */
    method CreateIslands(bodyIndex: nat, island: seq<Body>, ghost members: seq<nat>, visited: seq<bool>,
                         ghost adj: seq<seq<bool>>, ghost elig: seq<bool>)
      returns (grown: seq<Body>, marked: seq<bool>, ghost added: seq<nat>)
      requires Tabulated(adj, elig) && bodyIndex < |bodies| == |visited|
      requires IslandOf(bodies, island, members)
      decreases UnvisitedIn(visited)
      ensures IslandOf(bodies, grown, members + added)
      ensures Searched(adj, elig, visited, marked, added)
      ensures !visited[bodyIndex] && elig[bodyIndex] ==> marked[bodyIndex]
    {
      if visited[bodyIndex] {
        return island, visited, [];
      }
      var body := bodies[bodyIndex];
      if !body.enabled {
        return island, visited, [];
      }
      if body.mode == Static {
        return island, visited, [];
      }
      marked := visited[bodyIndex := true];
      TabulatedAt(adj, elig, bodyIndex, bodyIndex);
      StartSearch(adj, elig, visited, marked, bodyIndex);
      grown, added := island + [body], [bodyIndex];
      for i := 0 to |bodies|
        invariant IslandOf(bodies, grown, members + added)
        invariant Partial(adj, elig, visited, marked, added, bodyIndex, i)
        invariant UnvisitedIn(marked) < UnvisitedIn(visited)
      {
        var otherBody := bodies[i];
        TabulatedAt(adj, elig, bodyIndex, i);
        if body != otherBody && IsCollidingWith(body.aabb, otherBody.aabb) && Body.CanCollide(body, otherBody, true) {
          ghost var more: seq<nat>;
          var before := marked;
          grown, marked, more := CreateIslands(i, grown, members + added, marked, adj, elig);
          IslandRegroup(bodies, grown, members, added, more);
          SearchStep(adj, elig, visited, before, marked, added, more, bodyIndex, i);
          added := added + more;
        } else {
          SearchSkip(adj, elig, visited, marked, added, bodyIndex, i);
        }
      }
      FinishSearch(adj, elig, visited, marked, added, bodyIndex);
    }

    /**
     * GenerateIslands: a search from every enabled, non-static body not yet
     * visited, each search making one island. Every eligible body lands in
     * exactly one island and no other body in any; an island holds every
     * eligible body its members are Linked to.
     */
    method GenerateIslands() returns (islands: seq<seq<Body>>, ghost groups: seq<seq<nat>>)
      requires Registered()
      ensures IslandsOf(bodies, islands, groups)
      ensures forall k :: 0 <= k < |groups| ==> Seqs.Distinct(groups[k])
      ensures forall k, n :: 0 <= k < |groups| && n in groups[k] ==> n < |bodies|
      ensures forall k, n :: 0 <= k < |groups| && n in groups[k] ==> Eligible(bodies[n])
      ensures forall n :: 0 <= n < |bodies| && Eligible(bodies[n]) ==> exists k :: 0 <= k < |groups| && n in groups[k]
      ensures forall k1, k2, n :: 0 <= k1 < |groups| && 0 <= k2 < |groups| && n in groups[k1] && n in groups[k2] ==> k1 == k2
      ensures forall k, n, j :: 0 <= k < |groups| && n in groups[k] && n < |bodies| && 0 <= j < |bodies| ==>
                (Linked(bodies[n], bodies[j]) && Eligible(bodies[j]) ==> j in groups[k])
    {
      ghost var adj, elig := Tables();
      var visited := seq(|bodies|, _ => false);
      islands, groups := [], [];
      for i := 0 to |bodies|
        invariant IslandsOf(bodies, islands, groups)
        invariant Grouped(adj, elig, visited, groups, i)
      {
        var body := bodies[i];
        TabulatedAt(adj, elig, i, i);
        // a disabled or static body is skipped, as is one already in an island
        if !body.enabled || body.mode == Static || visited[i] {
          GroupSkip(adj, elig, visited, groups, i);
        } else {
          var island, marked;
          ghost var members;
          island, marked, members := NextIsland(i, visited, groups, adj, elig);
          IslandsAppend(bodies, islands, groups, island, members);
          islands, groups, visited := islands + [island], groups + [members], marked;
        }
      }
      GroupsArePartition(adj, elig, visited, groups);
      Lifted(adj, elig, groups);
    }

    /** One search of GenerateIslands, from an eligible body `i` no earlier search reached: the island it grows, as a new group. */
    method NextIsland(i: nat, visited: seq<bool>, ghost groups: seq<seq<nat>>, ghost adj: seq<seq<bool>>, ghost elig: seq<bool>)
      returns (island: seq<Body>, marked: seq<bool>, ghost members: seq<nat>)
      requires Tabulated(adj, elig) && Symmetric(adj) && i < |bodies| == |visited|
      requires Grouped(adj, elig, visited, groups, i) && elig[i] && !visited[i]
      ensures IslandOf(bodies, island, members)
      ensures Grouped(adj, elig, marked, groups + [members], i + 1)
    {
      island, marked, members := CreateIslands(i, [], [], visited, adj, elig);
      GroupStep(adj, elig, visited, marked, groups, members, i);
      IslandFromScratch(bodies, island, members);
    }

    /** The facts GroupsArePartition gives on the tables, stated on the bodies. */
    lemma Lifted(adj: seq<seq<bool>>, elig: seq<bool>, groups: seq<seq<nat>>)
      requires Tabulated(adj, elig)
      requires forall k, n :: 0 <= k < |groups| && n in groups[k] ==> n < |bodies|
      requires forall k, n :: 0 <= k < |groups| && n in groups[k] ==> elig[n]
      requires forall n :: 0 <= n < |bodies| && elig[n] ==> exists k :: 0 <= k < |groups| && n in groups[k]
      requires forall k, n, j :: 0 <= k < |groups| && n in groups[k] && n < |bodies| && 0 <= j < |bodies| && adj[n][j] && elig[j] ==> j in groups[k]
      ensures forall k, n :: 0 <= k < |groups| && n in groups[k] ==> n < |bodies|
      ensures forall k, n :: 0 <= k < |groups| && n in groups[k] ==> Eligible(bodies[n])
      ensures forall n :: 0 <= n < |bodies| && Eligible(bodies[n]) ==> exists k :: 0 <= k < |groups| && n in groups[k]
      ensures forall k, n, j :: 0 <= k < |groups| && n in groups[k] && n < |bodies| && 0 <= j < |bodies| ==>
                (Linked(bodies[n], bodies[j]) && Eligible(bodies[j]) ==> j in groups[k])
    {
      forall k, n | 0 <= k < |groups| && n in groups[k]
        ensures n < |bodies| && Eligible(bodies[n])
      {
        TabulatedAt(adj, elig, n, n);
      }
      forall n | 0 <= n < |bodies| && Eligible(bodies[n])
        ensures exists k :: 0 <= k < |groups| && n in groups[k]
      {
        TabulatedAt(adj, elig, n, n);
      }
      forall k, n, j | 0 <= k < |groups| && n in groups[k] && n < |bodies| && 0 <= j < |bodies| &&
                       Linked(bodies[n], bodies[j]) && Eligible(bodies[j])
        ensures j in groups[k]
      {
        TabulatedAt(adj, elig, n, j);
      }
    }

    // ------------------------------------------------------------ sleeping

    /**
     * The test of the sleep step for one island member: a rigid body moved
     * further than the position tolerance along an axis or turned further
     * than the rotation tolerance since the previous step; any other body
     * has a particle that moved further than the position tolerance.
     */
    predicate Moving(b: Body)
      reads this, b, (set m | m in b.meshes), ParticlesOf(b.meshes)
    {
      if b.bodyType == Rigid then
        Abs(b.position.x - b.prevPosition.x) > sleepingPositionTolerance ||
        Abs(b.position.y - b.prevPosition.y) > sleepingPositionTolerance ||
        Abs(b.rotation - b.prevRotation) > sleepingRotationTolerance
      else
        exists m, p :: m in b.meshes && p in m.particles && ParticleMoving(p, sleepingPositionTolerance)
    }

    /** Some member of the island is Moving, which keeps the whole island awake. */
    predicate IslandMoving(island: seq<Body>)
      reads this, (set b | b in island), (set b, m | b in island && m in b.meshes :: m)
      reads (set b, m, p | b in island && m in b.meshes && p in m.particles :: p)
    {
      exists b :: b in island && Moving(b)
    }

    /** The particle scan of the sleep step for a body that is not rigid, stopping at the first moving particle. */
    method HasMovingParticles(body: Body) returns (moving: bool)
      ensures moving <==> exists m, p :: m in body.meshes && p in m.particles && ParticleMoving(p, sleepingPositionTolerance)
    {
      moving := false;
      for m := 0 to |body.meshes|
        invariant !moving
        invariant forall k, p :: 0 <= k < m && p in body.meshes[k].particles ==> !ParticleMoving(p, sleepingPositionTolerance)
      {
        var mesh := body.meshes[m];
        for i := 0 to |mesh.particles|
          invariant !moving
          invariant forall j :: 0 <= j < i ==> !ParticleMoving(mesh.particles[j], sleepingPositionTolerance)
        {
          if ParticleMoving(mesh.particles[i], sleepingPositionTolerance) {
            moving := true;
            break;
          }
        }
        if moving {
          break;
        }
      }
    }

    /** The scan over the island's members, stopping at the first one that is Moving. */
    method IslandNeedsAwake(island: seq<Body>) returns (needsAwake: bool)
      ensures needsAwake == IslandMoving(island)
    {
      needsAwake := false;
      for i := 0 to |island|
        invariant !needsAwake
        invariant forall k :: 0 <= k < i ==> !Moving(island[k])
      {
        var body := island[i];
        if body.bodyType == Rigid {
          var velX := Abs(body.position.x - body.prevPosition.x);
          var velY := Abs(body.position.y - body.prevPosition.y);
          var angularVel := Abs(body.rotation - body.prevRotation);
          if velX > sleepingPositionTolerance || velY > sleepingPositionTolerance || angularVel > sleepingRotationTolerance {
            assert Moving(body) && body in island;
            needsAwake := true;
            break;
          }
        } else {
          var hasMovingParticles := HasMovingParticles(body);
          if hasMovingParticles {
            assert Moving(body) && body in island;
            needsAwake := true;
            break;
          }
        }
      }
    }

    /**
     * The quiet branch of the sleep step: every member counts one more
     * quiet step, and the island may sleep when every member has counted
     * at least SLEEP_TICKS.
     */
    method CountQuietStep(island: seq<Body>) returns (bodiesCanSleep: bool)
      requires Seqs.Distinct(island)
      modifies (set b | b in island)`fixedVelocityTick, (set b | b in island)`fixedAngularTick
      ensures forall b :: b in island ==>
                b.fixedVelocityTick == old(b.fixedVelocityTick) + 1 && b.fixedAngularTick == old(b.fixedAngularTick) + 1
      ensures bodiesCanSleep <==> forall b :: b in island ==> b.fixedVelocityTick >= SLEEP_TICKS
    {
      bodiesCanSleep := true;
      for i := 0 to |island|
        invariant forall k :: 0 <= k < i ==> island[k].fixedVelocityTick == old(island[k].fixedVelocityTick) + 1 &&
                                             island[k].fixedAngularTick == old(island[k].fixedAngularTick) + 1
        invariant forall k :: i <= k < |island| ==> island[k].fixedVelocityTick == old(island[k].fixedVelocityTick) &&
                                                    island[k].fixedAngularTick == old(island[k].fixedAngularTick)
        invariant bodiesCanSleep <==> forall k :: 0 <= k < i ==> island[k].fixedVelocityTick >= SLEEP_TICKS
      {
        var body := island[i];
        body.fixedVelocityTick := body.fixedVelocityTick + 1;
        body.fixedAngularTick := body.fixedAngularTick + 1;
        if body.fixedVelocityTick < SLEEP_TICKS {
          bodiesCanSleep := false;
        }
      }
    }

    /**
     * Putting an island to sleep: every member sleeps; a rigid member's
     * previous position and rotation become its current ones, and every
     * particle of any other member gets its global position as its
     * previous one.
     */
    method FallAsleep(island: seq<Body>)
      modifies (set b | b in island)`isSleeping, (set b | b in island)`prevPosition, (set b | b in island)`prevRotation
      modifies SoftParticles(island)`prevGlobalPosition
      ensures forall b :: b in island ==> b.isSleeping
      ensures forall b :: b in island && b.bodyType == Rigid ==> b.prevPosition == b.position && b.prevRotation == b.rotation
      ensures forall b :: b in island && b.bodyType != Rigid ==>
                b.prevPosition == old(b.prevPosition) && b.prevRotation == old(b.prevRotation)
      ensures forall p :: p in SoftParticles(island) ==> p.prevGlobalPosition == p.globalPosition
    {
      for i := 0 to |island|
        invariant forall k :: 0 <= k < i ==> island[k].isSleeping
        invariant forall b :: b in island[..i] && b.bodyType == Rigid ==> b.prevPosition == b.position && b.prevRotation == b.rotation
        invariant forall b :: b in island && b.bodyType != Rigid ==>
                    b.prevPosition == old(b.prevPosition) && b.prevRotation == old(b.prevRotation)
        invariant forall k, m, p :: 0 <= k < i && island[k].bodyType != Rigid && m in island[k].meshes && p in m.particles ==>
                    p.prevGlobalPosition == p.globalPosition
      {
        var body := island[i];
        body.isSleeping := true;
        if body.bodyType == Rigid {
          body.prevPosition := body.position;
          body.prevRotation := body.rotation;
        } else {
          SettleBody(body);
        }
      }
    }

    /**
     * One island of the sleep step of Update. An island with a Moving
     * member is woken whole: every member's counters drop to 0 and it stops
     * sleeping. Otherwise every member counts a quiet step, and when all of
     * them have counted SLEEP_TICKS the island falls asleep. A body starts
     * sleeping only with at least SLEEP_TICKS quiet steps counted.
     */
    method SleepIsland(island: seq<Body>)
      requires Seqs.Distinct(island)
      modifies (set b | b in island)`fixedVelocityTick, (set b | b in island)`fixedAngularTick
      modifies (set b | b in island)`isSleeping, (set b | b in island)`prevPosition, (set b | b in island)`prevRotation
      modifies SoftParticles(island)`prevGlobalPosition
      ensures old(IslandMoving(island)) ==>
                forall b :: b in island ==> b.fixedVelocityTick == 0 && b.fixedAngularTick == 0 && !b.isSleeping
      ensures !old(IslandMoving(island)) ==>
                forall b :: b in island ==>
                  b.fixedVelocityTick == old(b.fixedVelocityTick) + 1 && b.fixedAngularTick == old(b.fixedAngularTick) + 1
      ensures !old(IslandMoving(island)) && (forall b :: b in island ==> old(b.fixedVelocityTick) + 1 >= SLEEP_TICKS) ==>
                (forall b :: b in island ==> b.isSleeping) &&
                (forall b :: b in island && b.bodyType == Rigid ==> b.prevPosition == b.position && b.prevRotation == b.rotation) &&
                (forall p :: p in SoftParticles(island) ==> p.prevGlobalPosition == p.globalPosition)
      ensures !old(IslandMoving(island)) && !(forall b :: b in island ==> old(b.fixedVelocityTick) + 1 >= SLEEP_TICKS) ==>
                forall b :: b in island ==> b.isSleeping == old(b.isSleeping)
      ensures forall b :: b in island && b.isSleeping && !old(b.isSleeping) ==> b.fixedVelocityTick >= SLEEP_TICKS
    {
      var islandNeedsAwake := IslandNeedsAwake(island);
      if !islandNeedsAwake {
        var bodiesCanSleep := CountQuietStep(island);
        if bodiesCanSleep {
          FallAsleep(island);
        }
      } else {
        for i := 0 to |island|
          invariant forall k :: 0 <= k < i ==>
                      island[k].fixedVelocityTick == 0 && island[k].fixedAngularTick == 0 && !island[k].isSleeping
        {
          var body := island[i];
          body.fixedVelocityTick := 0;
          body.fixedAngularTick := 0;
          body.isSleeping := false;
        }
      }
    }

    /**
     * The sleep step of Update: the islands are generated afresh into
     * sleepingIslands and each goes through SleepIsland, so no body starts
     * sleeping before it has counted SLEEP_TICKS quiet steps.
     */
    method UpdateSleeping() returns (ghost groups: seq<seq<nat>>)
      requires Registered()
      modifies this`sleepingIslands
      modifies (set b | b in bodies)`fixedVelocityTick, (set b | b in bodies)`fixedAngularTick
      modifies (set b | b in bodies)`isSleeping, (set b | b in bodies)`prevPosition, (set b | b in bodies)`prevRotation
      modifies SoftParticles(bodies)`prevGlobalPosition
      ensures IslandsOf(bodies, sleepingIslands, groups)
      ensures forall b :: b in bodies && b.isSleeping && !old(b.isSleeping) ==> b.fixedVelocityTick >= SLEEP_TICKS
    {
      var islands;
      islands, groups := GenerateIslands();
      sleepingIslands := islands;
      for i := 0 to |islands|
        invariant sleepingIslands == islands && bodies == old(bodies)
        invariant forall b :: b in bodies && b.isSleeping && !old(b.isSleeping) ==> b.fixedVelocityTick >= SLEEP_TICKS
      {
        var island := islands[i];
        IslandDistinct(bodies, island, groups[i]);
        assert forall b :: b in island ==> b in bodies;
        SoftParticlesWithin(island, bodies);
        SleepIsland(island);
      }
    }

    /**
     * Update, as far as this model follows it: a disabled world returns at
     * once and nothing changes; an enabled one ends its step with the sleep
     * step when sleeping is enabled. The steps in between are not part of
     * this model.
     */
    method Update() returns (ghost groups: seq<seq<nat>>)
      requires Registered()
      modifies this`sleepingIslands
      modifies (set b | b in bodies)`fixedVelocityTick, (set b | b in bodies)`fixedAngularTick
      modifies (set b | b in bodies)`isSleeping, (set b | b in bodies)`prevPosition, (set b | b in bodies)`prevRotation
      modifies SoftParticles(bodies)`prevGlobalPosition
      ensures !old(enabled) || !old(enableSleeping) ==> unchanged(this) && unchanged(set b | b in bodies) && unchanged(SoftParticles(bodies))
      ensures old(enabled) && old(enableSleeping) ==>
                IslandsOf(bodies, sleepingIslands, groups) &&
                forall b :: b in bodies && b.isSleeping && !old(b.isSleeping) ==> b.fixedVelocityTick >= SLEEP_TICKS
    {
      if enabled == false {
        return [];
      }
      groups := [];
      if enableSleeping {
        groups := UpdateSleeping();
      }
    }
  }

  // ---------------------------------------------------------------- the island search on tables

  /** adj is a square table of side k and elig a list of length k. */
  predicate Shaped(adj: seq<seq<bool>>, elig: seq<bool>, k: nat)
  {
    |adj| == |elig| == k && forall i :: 0 <= i < k ==> |adj[i]| == k
  }

  /** The table is symmetric. */
  predicate Symmetric(adj: seq<seq<bool>>)
  {
    forall i, j :: 0 <= i < |adj| && 0 <= j < |adj| && j < |adj[i]| && i < |adj[j]| ==> adj[i][j] == adj[j][i]
  }

  /** Every eligible neighbour of n is marked in v. */
  predicate ClosedAt(adj: seq<seq<bool>>, elig: seq<bool>, v: seq<bool>, n: nat)
    requires Shaped(adj, elig, |v|) && n < |v|
  {
    forall j :: 0 <= j < |v| && adj[n][j] && elig[j] ==> v[j]
  }

  /** v marks everything v0 marks. */
  predicate Grown(v0: seq<bool>, v: seq<bool>)
  {
    |v0| == |v| && forall n :: 0 <= n < |v| && v0[n] ==> v[n]
  }

  /** The unmarked positions. */
  function UnvisitedIn(v: seq<bool>): set<nat>
  {
    set n | 0 <= n < |v| && !v[n]
  }

  /**
   * A finished search from marks v0 to marks v: it marked exactly the
   * positions in `added`, once each, all eligible, and each with all its
   * eligible neighbours marked.
   */
  predicate Searched(adj: seq<seq<bool>>, elig: seq<bool>, v0: seq<bool>, v: seq<bool>, added: seq<nat>)
  {
    Shaped(adj, elig, |v|) && Grown(v0, v) &&
    (forall n :: 0 <= n < |v| ==> (v[n] && !v0[n] <==> n in added)) &&
    Seqs.Distinct(added) &&
    (forall n :: n in added ==> n < |v|) &&
    (forall n :: n in added ==> elig[n] && ClosedAt(adj, elig, v, n))
  }

  /** A search from b that has looked at its first i neighbours. */
  predicate Partial(adj: seq<seq<bool>>, elig: seq<bool>, v0: seq<bool>, v: seq<bool>, added: seq<nat>, b: nat, i: nat)
  {
    Shaped(adj, elig, |v|) && b < |v| && i <= |v| && Grown(v0, v) && v[b] && !v0[b] && elig[b] &&
    (forall n :: 0 <= n < |v| ==> (v[n] && !v0[n] <==> n in added)) &&
    Seqs.Distinct(added) &&
    (forall n :: n in added ==> n < |v|) &&
    (forall n :: n in added ==> elig[n]) &&
    (forall n :: n in added && n != b ==> ClosedAt(adj, elig, v, n)) &&
    (forall j :: 0 <= j < i && adj[b][j] && elig[j] ==> v[j])
  }

  /** Marking the start of a search. */
  lemma StartSearch(adj: seq<seq<bool>>, elig: seq<bool>, v0: seq<bool>, v: seq<bool>, b: nat)
    requires Shaped(adj, elig, |v0|) && b < |v0| && !v0[b] && elig[b] && v == v0[b := true]
    ensures Partial(adj, elig, v0, v, [b], b, 0)
    ensures UnvisitedIn(v) < UnvisitedIn(v0)
  {
    assert b in UnvisitedIn(v0) && b !in UnvisitedIn(v);
  }

  /** A nested search from neighbour i keeps the outer search's facts and covers neighbour i. */
  lemma SearchStep(adj: seq<seq<bool>>, elig: seq<bool>, v0: seq<bool>, before: seq<bool>, after: seq<bool>,
                   added: seq<nat>, more: seq<nat>, b: nat, i: nat)
    requires Partial(adj, elig, v0, before, added, b, i) && i < |before| && adj[b][i]
    requires Searched(adj, elig, before, after, more) && (!before[i] && elig[i] ==> after[i])
    requires UnvisitedIn(before) < UnvisitedIn(v0)
    ensures Partial(adj, elig, v0, after, added + more, b, i + 1)
    ensures UnvisitedIn(after) < UnvisitedIn(v0)
  {
    assert UnvisitedIn(after) <= UnvisitedIn(before);
    forall n | n in added && n != b
      ensures ClosedAt(adj, elig, after, n)
    {
      assert ClosedAt(adj, elig, before, n);
    }
    forall n | 0 <= n < |after|
      ensures after[n] && !v0[n] <==> n in added + more
    {
      if n in more {
        assert !before[n];
      }
    }
    forall x, y | 0 <= x < y < |added + more|
      ensures (added + more)[x] != (added + more)[y]
    {
      if x < |added| <= y {
        assert (added + more)[x] in added && (added + more)[y] in more;
      }
    }
  }

  /** A position that is not a neighbour of b needs nothing. */
  lemma SearchSkip(adj: seq<seq<bool>>, elig: seq<bool>, v0: seq<bool>, v: seq<bool>, added: seq<nat>, b: nat, i: nat)
    requires Partial(adj, elig, v0, v, added, b, i) && i < |v| && !adj[b][i]
    ensures Partial(adj, elig, v0, v, added, b, i + 1)
  {
  }

  /** A search that has looked at all the neighbours of b is finished, b closed. */
  lemma FinishSearch(adj: seq<seq<bool>>, elig: seq<bool>, v0: seq<bool>, v: seq<bool>, added: seq<nat>, b: nat)
    requires Partial(adj, elig, v0, v, added, b, |v|)
    ensures Searched(adj, elig, v0, v, added)
  {
    assert ClosedAt(adj, elig, v, b);
  }

  /**
   * The state of GenerateIslands after the first i bodies: each marked
   * position is in exactly one group, groups hold only eligible positions
   * once each, marked positions are closed, no two groups are linked, and
   * every eligible position before i is marked.
   */
  predicate Grouped(adj: seq<seq<bool>>, elig: seq<bool>, v: seq<bool>, groups: seq<seq<nat>>, i: nat)
  {
    Shaped(adj, elig, |v|) && i <= |v| &&
    (forall k :: 0 <= k < |groups| ==> Seqs.Distinct(groups[k])) &&
    (forall k, n :: 0 <= k < |groups| && n in groups[k] ==> n < |v|) &&
    (forall k, n :: 0 <= k < |groups| && n in groups[k] ==> v[n] && elig[n]) &&
    (forall n :: 0 <= n < |v| && v[n] ==> exists k :: 0 <= k < |groups| && n in groups[k]) &&
    (forall k1, k2, n :: 0 <= k1 < |groups| && 0 <= k2 < |groups| && n in groups[k1] && n in groups[k2] ==> k1 == k2) &&
    (forall n :: 0 <= n < |v| && v[n] ==> ClosedAt(adj, elig, v, n)) &&
    (forall k1, k2, n, j ::
       0 <= k1 < |groups| && 0 <= k2 < |groups| && k1 != k2 && n in groups[k1] && j in groups[k2] && n < |v| && j < |v|
       ==> !adj[n][j]) &&
    (forall n :: 0 <= n < i && elig[n] ==> v[n])
  }

  /** Skipping a body that is ineligible or already marked. */
  lemma GroupSkip(adj: seq<seq<bool>>, elig: seq<bool>, v: seq<bool>, groups: seq<seq<nat>>, i: nat)
    requires Grouped(adj, elig, v, groups, i) && i < |v| && (elig[i] ==> v[i])
    ensures Grouped(adj, elig, v, groups, i + 1)
  {
    forall n | 0 <= n < i + 1 && elig[n]
      ensures v[n]
    {
    }
  }

  /** A new search from the unmarked eligible body i makes a new group. */
  lemma GroupStep(adj: seq<seq<bool>>, elig: seq<bool>, before: seq<bool>, after: seq<bool>,
                  groups: seq<seq<nat>>, members: seq<nat>, i: nat)
    requires Symmetric(adj) && Grouped(adj, elig, before, groups, i) && i < |before| && elig[i] && !before[i]
    requires Searched(adj, elig, before, after, members) && after[i]
    ensures Grouped(adj, elig, after, groups + [members], i + 1)
  {
    NewGroupMembers(adj, elig, before, after, groups, members, i);
    NewGroupCover(adj, elig, before, after, groups, members, i);
    NewGroupApart(adj, elig, before, after, groups, members, i);
    forall n | 0 <= n < |after| && after[n]
      ensures ClosedAt(adj, elig, after, n)
    {
      if before[n] {
        assert ClosedAt(adj, elig, before, n);
      }
    }
  }

  /** GroupStep, for membership: every group holds marked eligible positions, each in one group only. */
  lemma NewGroupMembers(adj: seq<seq<bool>>, elig: seq<bool>, before: seq<bool>, after: seq<bool>,
                        groups: seq<seq<nat>>, members: seq<nat>, i: nat)
    requires Grouped(adj, elig, before, groups, i) && i < |before|
    requires Searched(adj, elig, before, after, members)
    ensures forall k, n :: 0 <= k < |groups + [members]| && n in (groups + [members])[k] ==> n < |after|
    ensures forall k, n :: 0 <= k < |groups + [members]| && n in (groups + [members])[k] ==> after[n] && elig[n]
    ensures forall k1, k2, n ::
              0 <= k1 < |groups + [members]| && 0 <= k2 < |groups + [members]| &&
              n in (groups + [members])[k1] && n in (groups + [members])[k2]
              ==> k1 == k2
  {
    var gs := groups + [members];
    forall k, n | 0 <= k < |gs| && n in gs[k]
      ensures n < |after| && after[n] && elig[n]
    {
      if k < |groups| {
        assert n in groups[k] && before[n];
      } else {
        assert gs[k] == members && n in members;
      }
    }
    forall k1, k2, n | 0 <= k1 < |gs| && 0 <= k2 < |gs| && n in gs[k1] && n in gs[k2]
      ensures k1 == k2
    {
    }
  }

  /** GroupStep, for coverage: every marked position is in some group. */
  lemma NewGroupCover(adj: seq<seq<bool>>, elig: seq<bool>, before: seq<bool>, after: seq<bool>,
                      groups: seq<seq<nat>>, members: seq<nat>, i: nat)
    requires Grouped(adj, elig, before, groups, i) && i < |before|
    requires Searched(adj, elig, before, after, members)
    ensures forall n :: 0 <= n < |after| && after[n] ==> exists k :: 0 <= k < |groups + [members]| && n in (groups + [members])[k]
  {
    var gs := groups + [members];
    forall n | 0 <= n < |after| && after[n]
      ensures exists k :: 0 <= k < |gs| && n in gs[k]
    {
      if before[n] {
        var k :| 0 <= k < |groups| && n in groups[k];
        assert gs[k] == groups[k];
      } else {
        assert n in gs[|groups|];
      }
    }
  }

  /** GroupStep, for separation: no edge joins two different groups. */
  lemma NewGroupApart(adj: seq<seq<bool>>, elig: seq<bool>, before: seq<bool>, after: seq<bool>,
                      groups: seq<seq<nat>>, members: seq<nat>, i: nat)
    requires Symmetric(adj) && Grouped(adj, elig, before, groups, i) && i < |before|
    requires Searched(adj, elig, before, after, members)
    ensures forall k1, k2, n, j ::
              0 <= k1 < |groups + [members]| && 0 <= k2 < |groups + [members]| && k1 != k2 &&
              n in (groups + [members])[k1] && j in (groups + [members])[k2] && n < |after| && j < |after|
              ==> !adj[n][j]
  {
    var gs := groups + [members];
    forall k1, k2, n, j | 0 <= k1 < |gs| && 0 <= k2 < |gs| && k1 != k2 && n in gs[k1] && j in gs[k2] && n < |after| && j < |after|
      ensures !adj[n][j]
    {
      if k1 < |groups| && k2 < |groups| {
        assert n in groups[k1] && j in groups[k2];
      } else if k1 < |groups| {
        assert n in groups[k1] && before[n] && ClosedAt(adj, elig, before, n);
        assert gs[k2] == members && j in members && !before[j] && elig[j];
      } else {
        assert j in groups[k2] && before[j] && ClosedAt(adj, elig, before, j);
        assert gs[k1] == members && n in members && !before[n] && elig[n];
        assert adj[n][j] == adj[j][n];
      }
    }
  }

  /** At the end of GenerateIslands the groups partition the eligible positions into linked-closed parts. */
  lemma GroupsArePartition(adj: seq<seq<bool>>, elig: seq<bool>, v: seq<bool>, groups: seq<seq<nat>>)
    requires Grouped(adj, elig, v, groups, |v|)
    ensures forall n :: 0 <= n < |v| && elig[n] ==> exists k :: 0 <= k < |groups| && n in groups[k]
    ensures forall k, n, j :: 0 <= k < |groups| && n in groups[k] && n < |v| && 0 <= j < |v| && adj[n][j] && elig[j] ==> j in groups[k]
  {
    forall k, n, j | 0 <= k < |groups| && n in groups[k] && n < |v| && 0 <= j < |v| && adj[n][j] && elig[j]
      ensures j in groups[k]
    {
      assert ClosedAt(adj, elig, v, n);
      var k2 :| 0 <= k2 < |groups| && j in groups[k2];
    }
  }

  /** The row of Linked from a to each of bs. */
  ghost function LinkRow(w: World, a: Body, bs: seq<Body>): (r: seq<bool>)
    requires a.world == w
    reads a, w, set b | b in bs
    ensures |r| == |bs| && forall j :: 0 <= j < |bs| ==> r[j] == Linked(a, bs[j])
  {
    if bs == [] then [] else [Linked(a, bs[0])] + LinkRow(w, a, bs[1..])
  }

  /** The table of Linked from each of as to each of bs. */
  ghost function LinkTable(w: World, xs: seq<Body>, bs: seq<Body>): (r: seq<seq<bool>>)
    requires forall a :: a in xs ==> a.world == w
    reads w, set a | a in xs, set b | b in bs
    ensures |r| == |xs| && forall i :: 0 <= i < |xs| ==> r[i] == LinkRow(w, xs[i], bs)
  {
    if xs == [] then [] else [LinkRow(w, xs[0], bs)] + LinkTable(w, xs[1..], bs)
  }

  /** Eligible for each body. */
  ghost function EligibleList(bs: seq<Body>): (r: seq<bool>)
    reads set b | b in bs
    ensures |r| == |bs| && forall i :: 0 <= i < |bs| ==> r[i] == Eligible(bs[i])
  {
    if bs == [] then [] else [Eligible(bs[0])] + EligibleList(bs[1..])
  }

  /** The joints of `js` with the body at either end. */
  function JointsOf(js: seq<Joint>, body: Body?): (r: set<Joint>)
    reads set j | j in js
    ensures forall j :: j in js ==> (j in r <==> j.bodyA == body || j.bodyB == body)
    ensures r <= set j | j in js
  {
    set j | j in js && (j.bodyA == body || j.bodyB == body)
  }

  /** The particle lies in a mesh that belongs to the body. */
  predicate ParticleOwnedBy(p: Particle, body: Body?)
    reads p, p.ownerMesh
  {
    p.ownerMesh != null && p.ownerMesh.ownerBody == body
  }

  /** The spring has an end particle whose mesh belongs to the body. */
  predicate SpringOwnedBy(s: Spring, body: Body?)
    reads s, s.pA, s.pB, s.pA.ownerMesh, s.pB.ownerMesh
  {
    ParticleOwnedBy(s.pA, body) || ParticleOwnedBy(s.pB, body)
  }

  /** The springs of `ss` that RemoveMatchingSprings(body) erases. */
  function SpringsOfBody(ss: seq<Spring>, body: Body?): (r: set<Spring>)
    reads set s | s in ss, set s | s in ss :: s.pA, set s | s in ss :: s.pB
    reads set s | s in ss && s.pA.ownerMesh != null :: s.pA.ownerMesh
    reads set s | s in ss && s.pB.ownerMesh != null :: s.pB.ownerMesh
    ensures forall s :: s in ss ==> (s in r <==> SpringOwnedBy(s, body))
    ensures r <= set s | s in ss
  {
    set s | s in ss && SpringOwnedBy(s, body)
  }

  // ================================================================ joints and raycasts

  class Joint {
    var bodyA: Body?
    var bodyB: Body?
    var anchorA: Vec
    var anchorB: Vec
    var anchorGlobalA: Vec
    var anchorGlobalB: Vec
    var collisionsEnabled: bool
    var enabled: bool
    var rigidity: real
    var balance: real
    var distance: real
    var grooveEnabled: bool
    var world: World?

    /**
     * QJoint(bodyA, anchorA, anchorB, bodyB): the rest distance is the
     * distance between the two world anchors; each anchor is kept in its
     * body's frame (unrotated from the body's position), or as given for a
     * missing body. The joint takes body A's world, else body B's (the
     * world field has no initialiser in qjoint.h; the model starts it null),
     * and then disables collisions between its bodies.
     */
    constructor(num: Numerics, bodyA: Body?, anchorWorldPositionA: Vec, anchorWorldPositionB: Vec, bodyB: Body?)
      modifies Worlds(WorldOf(bodyA, bodyB))`collisionExceptions
      ensures this.bodyA == bodyA && this.bodyB == bodyB && world == WorldOf(bodyA, bodyB)
      ensures distance == Length(num, Sub(anchorWorldPositionA, anchorWorldPositionB))
      ensures anchorWorldPositionA == anchorWorldPositionB ==> distance == 0.0
      ensures anchorA == LocalAnchor(num, bodyA, anchorWorldPositionA)
      ensures anchorB == LocalAnchor(num, bodyB, anchorWorldPositionB)
      ensures anchorGlobalA == anchorWorldPositionA && anchorGlobalB == anchorWorldPositionB
      ensures !collisionsEnabled && enabled && rigidity == 1.0 && balance == 0.5 && !grooveEnabled
      ensures var w := old(WorldOf(bodyA, bodyB));
              w != null && bodyA != null && bodyB != null ==>
                w.collisionExceptions == old(w.collisionExceptions) + {Canonical(bodyA, bodyB)}
      ensures var w := old(WorldOf(bodyA, bodyB));
              w != null && (bodyA == null || bodyB == null) ==>
                w.collisionExceptions == old(w.collisionExceptions)
    {
      distance := Length(num, Sub(anchorWorldPositionA, anchorWorldPositionB));
      LengthZero(num, Sub(anchorWorldPositionA, anchorWorldPositionB));
      this.bodyA := bodyA;
      anchorA := LocalAnchor(num, bodyA, anchorWorldPositionA);
      anchorGlobalA := anchorWorldPositionA;
      this.bodyB := bodyB;
      anchorB := LocalAnchor(num, bodyB, anchorWorldPositionB);
      anchorGlobalB := anchorWorldPositionB;
      collisionsEnabled, enabled, rigidity, balance, grooveEnabled := false, true, 1.0, 0.5, false;
      var w: World? := null;
      if bodyA != null {
        if bodyA.world != null {
          w := bodyA.world;
        }
      }
      if w == null && bodyB != null {
        if bodyB.world != null {
          w := bodyB.world;
        }
      }
      world := w;
      new;
      var _ := SetCollisionEnabled(false);
    }

    /**
     * The destructor: a joint that disabled its bodies' collisions gives the
     * exception back to its world.
     */
    method Destroy()
      modifies Worlds(world)`collisionExceptions
      ensures world != null && !collisionsEnabled && bodyA != null && bodyB != null ==>
                world.collisionExceptions == old(world.collisionExceptions) - {Canonical(bodyA, bodyB)}
      ensures world != null && (collisionsEnabled || bodyA == null || bodyB == null) ==>
                world.collisionExceptions == old(world.collisionExceptions)
    {
      if !collisionsEnabled && world != null && bodyA != null && bodyB != null {
        world.RemoveCollisionException(bodyA, bodyB);
      }
    }

    /**
     * SetCollisionEnabled: stores the flag and, when the joint knows its
     * world and both bodies, removes (true) or adds (false) their collision
     * exception.
     */
    method SetCollisionEnabled(value: bool) returns (j: Joint)
      modifies this`collisionsEnabled, Worlds(world)`collisionExceptions
      ensures j == this && collisionsEnabled == value
      ensures world != null && bodyA != null && bodyB != null ==>
                world.collisionExceptions ==
                  if value then old(world.collisionExceptions) - {Canonical(bodyA, bodyB)}
                  else old(world.collisionExceptions) + {Canonical(bodyA, bodyB)}
      ensures world != null && bodyA != null && bodyB != null && Comparable(bodyA, bodyB) ==>
                world.CheckCollisionException(bodyA, bodyB) == !value &&
                world.CheckCollisionException(bodyB, bodyA) == !value
      ensures world != null && (bodyA == null || bodyB == null) ==>
                world.collisionExceptions == old(world.collisionExceptions)
    {
      collisionsEnabled := value;
      if world != null && bodyA != null && bodyB != null {
        if value {
          world.RemoveCollisionException(bodyA, bodyB);
        } else {
          world.AddCollisionException(bodyA, bodyB);
        }
      }
      return this;
    }

    /** Which of the early exits and which factor k Update takes for the current bodies. */
    function Gate(): Constraints.JointStep
      reads this`bodyA, this`bodyB, Present(bodyA, bodyB)`mode
    {
      Constraints.JointGate(bodyA != null, bodyA != null && bodyA.mode == Static,
                            bodyB != null, bodyB != null && bodyB.mode == Static)
    }

    /**
     * Update: stops when every present body is static; otherwise moves the
     * global anchors with their bodies and computes the correction along
     * the anchor axis (Constraints.JointForce). A groove joint shorter than
     * its distance is left alone after its anchors are updated. Body A is
     * handed the negated force and body B the force, each only when the
     * body is present and not static; the forces are the method's results
     * because QRigidBody::ApplyForce lives in module RigidBodies, which is
     * built on this one.
     */
    method Update(num: Numerics) returns (forceA: Option<Vec>, forceB: Option<Vec>)
      modifies this`anchorGlobalA, this`anchorGlobalB
      ensures Gate().NoCorrection? ==>
                anchorGlobalA == old(anchorGlobalA) && anchorGlobalB == old(anchorGlobalB) &&
                forceA.None? && forceB.None?
      ensures Gate().Correct? ==>
                anchorGlobalA == GlobalAnchor(num, bodyA, anchorA) && anchorGlobalB == GlobalAnchor(num, bodyB, anchorB)
      ensures Gate().Correct? ==>
                var f := Constraints.JointForce(num, anchorGlobalA, anchorGlobalB, distance, rigidity, Gate().k, grooveEnabled);
                forceA == (if f.Some? && bodyA != null && bodyA.mode != Static then Some(Neg(f.value)) else None) &&
                forceB == (if f.Some? && bodyB != null && bodyB.mode != Static then f else None)
      ensures forceA.Some? ==> bodyA != null && bodyA.mode != Static
      ensures forceB.Some? ==> bodyB != null && bodyB.mode != Static
      ensures forceA.Some? && forceB.Some? ==> forceA.value == Neg(forceB.value)
    {
      forceA, forceB := None, None;
      var gate := Gate();
      if gate.NoCorrection? {
        return;
      }
      anchorGlobalA := GlobalAnchor(num, bodyA, anchorA);
      anchorGlobalB := GlobalAnchor(num, bodyB, anchorB);
      var f := Constraints.JointForce(num, anchorGlobalA, anchorGlobalB, distance, rigidity, gate.k, grooveEnabled);
      if f.None? {
        return;
      }
      if bodyA != null && bodyA.mode != Static {
        forceA := Some(Neg(f.value));
      }
      if bodyB != null && bodyB.mode != Static {
        forceB := f;
      }
    }
  }

  /** The world a new joint takes: body A's, else body B's, else none. */
  function WorldOf(bodyA: Body?, bodyB: Body?): (w: World?)
    reads Present(bodyA, bodyB)`world
    ensures w != null ==> (bodyA != null && w == bodyA.world) || (bodyB != null && w == bodyB.world)
    ensures bodyA != null && bodyA.world != null ==> w == bodyA.world
  {
    if bodyA != null && bodyA.world != null then bodyA.world
    else if bodyB != null then bodyB.world
    else null
  }

  /** The bodies among the two that are present. */
  function Present(bodyA: Body?, bodyB: Body?): set<Body>
  {
    (if bodyA == null then {} else {bodyA}) + (if bodyB == null then {} else {bodyB})
  }

  /** A world anchor expressed in the body's frame; a missing body leaves it as given. */
  function LocalAnchor(num: Numerics, body: Body?, worldPosition: Vec): Vec
    reads body
  {
    if body == null then worldPosition else Rotated(num, Sub(worldPosition, body.position), -body.rotation)
  }

  /** A body-frame anchor carried to the world by the body's rotation and position. */
  function GlobalAnchor(num: Numerics, body: Body?, anchor: Vec): Vec
    reads body
  {
    if body == null then anchor else Add(body.position, Rotated(num, anchor, body.rotation))
  }

  // ---------------------------------------------------------------- raycasts

  /** QRaycast::Contact, with the hit body as the handle. */
  type RayContact = Raycasting.Contact<Body>

  /**
   * The collision behaviour RaycastTo reads from a mesh: GetCollisionBehavior
   * recomputes it when the flag is set and otherwise returns the stored one.
   */
  function CurrentBehavior(m: Mesh): (r: CollisionBehavior)
    reads m, m.ownerBody
    ensures !m.collisionBehaviorNeedsUpdate ==> r == m.collisionBehavior
    ensures m.collisionBehaviorNeedsUpdate && m.ownerBody != null ==>
              (r == Circles <==> m.closedPolygons == [])
  {
    if m.collisionBehaviorNeedsUpdate then m.DerivedBehavior() else m.collisionBehavior
  }

  /** What MeshShape reads of each mesh: the mesh, its owner, its particles and its closed polygons' particles. */
  function ShapeFootprint(ms: seq<Mesh>): set<object?>
    reads set m | m in ms
  {
    (set m | m in ms :: m as object?) + (set m | m in ms :: m.ownerBody as object?) +
    (set m, p | m in ms && p in m.particles :: p as object?) +
    (set m, p | m in ms && p in PolygonParticles(m.closedPolygons) :: p as object?)
  }

  /** What Targets reads: the bodies, and the footprint of each body's meshes. */
  function TargetFootprint(bs: seq<Body>): set<object?>
    reads (set b | b in bs), (set b, m | b in bs && m in b.meshes :: m)
  {
    (set b | b in bs :: b as object?) + (set b, o | b in bs && o in ShapeFootprint(b.meshes) :: o)
  }

  /** Everything Targets reads for a prefix of the bodies, or for the last body's meshes, it reads for the whole list. */
  lemma TargetFootprintSplits(bs: seq<Body>)
    requires bs != []
    ensures var init := bs[..|bs| - 1];
      (set b | b in init) <= (set b | b in bs) &&
      (set b, m | b in init && m in b.meshes :: m) <= (set b, m | b in bs && m in b.meshes :: m) &&
      TargetFootprint(init) <= TargetFootprint(bs) &&
      ShapeFootprint(bs[|bs| - 1].meshes) <= TargetFootprint(bs)
  {
    var init, last := bs[..|bs| - 1], bs[|bs| - 1];
    assert forall b :: b in init ==> b in bs;
    forall o | o in TargetFootprint(init)
      ensures o in TargetFootprint(bs)
    {
      if o !in (set b | b in init :: b as object?) {
        var b :| b in init && o in ShapeFootprint(b.meshes);
        assert b in bs;
      }
    }
    forall o | o in ShapeFootprint(last.meshes)
      ensures o in TargetFootprint(bs)
    {
      assert last in bs;
    }
  }

  /** What one mesh offers a ray: its particles as discs, its closed polygons' global vertices, or nothing. */
  function MeshShape(m: Mesh): (r: Raycasting.Shape)
    reads m, m.ownerBody, (set p | p in m.particles), PolygonParticles(m.closedPolygons)
    ensures CurrentBehavior(m) == Circles ==> r == Raycasting.CircleShape(ParticleDiscs(m.particles))
    ensures CurrentBehavior(m) == Polygons ==> r == Raycasting.PolygonShape(VertexLists(m.closedPolygons, false))
    ensures CurrentBehavior(m) == Polyline ==> r == Raycasting.NoShape
  {
    match CurrentBehavior(m)
    case Circles => Raycasting.CircleShape(ParticleDiscs(m.particles))
    case Polygons => Raycasting.PolygonShape(VertexLists(m.closedPolygons, false))
    case Polyline => Raycasting.NoShape
  }

  /** The shapes of a list of meshes, in order. */
  function MeshShapes(ms: seq<Mesh>): (r: seq<Raycasting.Shape>)
    reads ShapeFootprint(ms)
    ensures |r| == |ms| && forall i :: 0 <= i < |ms| ==> r[i] == MeshShape(ms[i])
  {
    if ms == [] then []
    else
      assert ShapeFootprint(ms[..|ms| - 1]) <= ShapeFootprint(ms);
      MeshShapes(ms[..|ms| - 1]) + [MeshShape(ms[|ms| - 1])]
  }

  /** The world's bodies as a raycast sees them: each body with its box and its meshes' shapes, in world order. */
  function Targets(bs: seq<Body>): (r: seq<Raycasting.Target<Body>>)
    reads (set b | b in bs), (set b, m | b in bs && m in b.meshes :: m), TargetFootprint(bs)
    ensures |r| == |bs|
    ensures forall i :: 0 <= i < |bs| ==> r[i] == Raycasting.Target(bs[i], bs[i].aabb, MeshShapes(bs[i].meshes))
  {
    if bs == [] then []
    else
      var init, last := bs[..|bs| - 1], bs[|bs| - 1];
      TargetFootprintSplits(bs);
      Targets(init) + [Raycasting.Target(last, last.aabb, MeshShapes(last.meshes))]
  }

  /**
   * QRaycast: a ray kept in the world, whose contacts the world refreshes
   * each step. The ray actually cast is the original vector turned by the
   * rotation; the setters keep it so.
   */
  class Raycast {
    var world: World?
    var position: Vec
    var ray: Vec
    var rayOriginal: Vec
    var rotation: real
    var enabledContainingBodies: bool
    var contacts: seq<RayContact>

    /** The cast ray is the original vector turned by the rotation. */
    ghost predicate Aimed(num: Numerics)
      reads this
    {
      ray == Rotated(num, rayOriginal, rotation)
    }

    /** QRaycast(position, rayVector, enableContainingBodies): unrotated, in no world, without contacts. */
    constructor(num: Numerics, position: Vec, rayVector: Vec, enableContainingBodies: bool)
      ensures this.position == position && ray == rayVector && rayOriginal == rayVector && rotation == 0.0
      ensures enabledContainingBodies == enableContainingBodies && world == null && contacts == []
      ensures Aimed(num)
    {
      this.position := position;
      ray, rayOriginal, rotation := rayVector, rayVector, 0.0;
      enabledContainingBodies := enableContainingBodies;
      world, contacts := null, [];
      new;
      RotatedByZero(num, rayVector);
    }

    method SetPosition(value: Vec) returns (r: Raycast)
      modifies this`position
      ensures r == this && position == value
    {
      position := value;
      return this;
    }

    /** SetRotation: turns the original vector by the new rotation. */
    method SetRotation(num: Numerics, value: real) returns (r: Raycast)
      modifies this`rotation, this`ray
      ensures r == this && rotation == value && Aimed(num)
    {
      rotation := value;
      ray := Rotated(num, rayOriginal, rotation);
      return this;
    }

    /** SetRayVector: replaces the original vector and turns it by the current rotation. */
    method SetRayVector(num: Numerics, value: Vec) returns (r: Raycast)
      modifies this`rayOriginal, this`ray
      ensures r == this && rayOriginal == value && Aimed(num)
      ensures rotation == 0.0 ==> ray == value
    {
      rayOriginal := value;
      ray := Rotated(num, rayOriginal, rotation);
      RotatedByZero(num, value);
      return this;
    }

    method SetEnabledContainingBodies(value: bool) returns (r: Raycast)
      modifies this`enabledContainingBodies
      ensures r == this && enabledContainingBodies == value
    {
      enabledContainingBodies := value;
      return this;
    }

    /**
     * UpdateContacts: outside a world nothing happens; inside one the
     * contacts become the world's hits for the current ray, on layer mask 1,
     * sorted by distance.
     */
    method UpdateContacts(num: Numerics)
      modifies this`contacts
      ensures world == null ==> contacts == old(contacts)
      ensures world != null ==>
                contacts == old(Raycasting.Cast(num, Targets(world.bodies), position, ray, enabledContainingBodies))
    {
      if world == null {
        return;
      }
      Recast(num);
    }

    /** The refresh proper, for a ray inside a world. */
    method Recast(num: Numerics)
      requires world != null
      modifies this`contacts
      ensures contacts == old(Raycasting.Cast(num, Targets(world.bodies), position, ray, enabledContainingBodies))
    {
      var targets := Targets(world.bodies);
      contacts := Raycasting.RaycastTo(num, targets, position, ray, 1, enabledContainingBodies);
    }
  }
}
