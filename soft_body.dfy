/**
 * QSoftBody (qsoftbody.h, qsoftbody.cpp): a mass-spring body whose
 * particles move one by one. Update integrates every particle (internal
 * ones may be left passive), optionally inflates the closed polygons
 * towards a target area (PreserveAreas, with its one-way stability latch),
 * and refreshes the box; ApplyShapeMatching pulls the particles towards the
 * undeformed shape placed at the particles' average position and rotation.
 */
module SoftBodies {
  import opened Vectors
  import opened Engine
  import RigidBodies
  import Seqs
  import Reals

  // ---------------------------------------------------------------- safe_asin

  /** safe_asin: asin of the argument clamped into [-1, 1]. */
  function SafeAsin(num: Numerics, value: real): (r: real)
    ensures r == num.asin(ClampUnit(value))
    ensures -1.0 <= value <= 1.0 ==> r == num.asin(value)
  {
    if value < -1.0 then num.asin(-1.0)
    else if value > 1.0 then num.asin(1.0)
    else num.asin(value)
  }

  // ---------------------------------------------------------------- integration

  /** What one integration step reads and writes of a particle. */
  datatype Kinetics = Kinetics(globalPosition: Vec, prevGlobalPosition: Vec, force: Vec)

  function KineticsOf(p: Particle): Kinetics
    reads p`globalPosition, p`prevGlobalPosition, p`force
  {
    Kinetics(p.globalPosition, p.prevGlobalPosition, p.force)
  }

  /**
   * One Verlet step of a particle: it moves by its velocity less the
   * air-friction share, by the gravity step and by its pending force; the
   * position it left becomes the previous one and the force is consumed.
   */
  function Integrated(k: Kinetics, airFriction: real, gravityStep: Vec): (r: Kinetics)
    ensures r.prevGlobalPosition == k.globalPosition && r.force == Zero()
    ensures Sub(r.globalPosition, k.globalPosition) ==
            Add(Add(RigidBodies.Damped(Sub(k.globalPosition, k.prevGlobalPosition), airFriction), gravityStep), k.force)
  {
    var vel := Sub(k.globalPosition, k.prevGlobalPosition);
    var g := Add(Add(Add(k.globalPosition, RigidBodies.Damped(vel, airFriction)), gravityStep), k.force);
    Kinetics(g, k.globalPosition, Zero())
  }

  /** A passive particle is left as it is; any other takes one Integrated step. */
  function Next(k: Kinetics, passive: bool, airFriction: real, gravityStep: Vec): Kinetics
  {
    if passive then k else Integrated(k, airFriction, gravityStep)
  }

  /** A particle at rest, without gravity and without a pending force, stays where it is. */
  lemma RestingParticleStaysPut(k: Kinetics, airFriction: real)
    requires k.globalPosition == k.prevGlobalPosition && k.force == Zero()
    ensures Integrated(k, airFriction, Zero()) == Kinetics(k.globalPosition, k.globalPosition, Zero())
  {
    var vel := Sub(k.globalPosition, k.prevGlobalPosition);
    assert vel == Zero();
    assert RigidBodies.Damped(vel, airFriction) == Zero();
  }

  // ---------------------------------------------------------------- area preservation

  /**
   * The stability latch of PreserveAreas on one mesh's area deficit: until
   * the latch is set, a negative deficit counts as 0, and the first
   * nonnegative deficit sets the latch; once set, the deficit passes as it is.
   */
  function Stabilized(stable: bool, delta: real): (r: (real, bool))
    ensures r.1 == (stable || 0.0 <= delta)
    ensures stable ==> r.0 == delta
    ensures !stable ==> 0.0 <= r.0
    ensures r.0 == delta || (r.0 == 0.0 && delta < 0.0 && !r.1)
  {
    if stable then (delta, true)
    else if delta < 0.0 then (0.0, false)
    else (delta, true)
  }

  /** The latch after the deficits `ds` of successive meshes, starting from `stable`. */
  function Latch(stable: bool, ds: seq<real>): bool
  {
    if ds == [] then stable else Stabilized(Latch(stable, ds[..|ds| - 1]), ds[|ds| - 1]).1
  }

  /** Once set, the latch is never cleared. */
  lemma {:induction false} LatchNeverCleared(ds: seq<real>)
    ensures Latch(true, ds)
  {
    if ds != [] {
      LatchNeverCleared(ds[..|ds| - 1]);
    }
  }

  /** From an unset latch, the latch ends set exactly when some deficit was nonnegative. */
  lemma {:induction false} LatchSetIff(ds: seq<real>)
    ensures Latch(false, ds) <==> exists k :: 0 <= k < |ds| && 0.0 <= ds[k]
  {
    if ds != [] {
      var front := ds[..|ds| - 1];
      LatchSetIff(front);
      if Latch(false, front) {
        var k :| 0 <= k < |front| && 0.0 <= front[k];
        assert ds[k] == front[k];
      } else if exists k :: 0 <= k < |ds| && 0.0 <= ds[k] {
        var k :| 0 <= k < |ds| && 0.0 <= ds[k];
        if k < |front| {
          assert front[k] == ds[k];
        }
      }
    }
  }

  /** One more deficit: the latch is the Stabilized flag of the latch so far. */
  lemma LatchSnoc(stable: bool, ds: seq<real>, d: real)
    ensures Latch(stable, ds + [d]) == Stabilized(Latch(stable, ds), d).1
  {
    assert (ds + [d])[..|ds|] == ds;
  }

  /** Appending leaves every prefix of the original as it was. */
  lemma PrefixesOfSnoc(ds: seq<real>, d: real)
    ensures forall k :: 0 <= k <= |ds| ==> (ds + [d])[..k] == ds[..k]
  {
    forall k | 0 <= k <= |ds|
      ensures (ds + [d])[..k] == ds[..k]
    {
      assert forall n :: 0 <= n < k ==> (ds + [d])[..k][n] == ds[..k][n];
    }
  }

  /**
   * The pressure on a mesh: the deficit per unit of circumference times the
   * rigidity. A zero circumference (the engine divides by it) gives 0 here.
   */
  function Pressure(delta: real, circumference: real, rigidity: real): (r: real)
    ensures delta == 0.0 || rigidity == 0.0 ==> r == 0.0
    ensures 0.0 < circumference && 0.0 < rigidity ==> (0.0 < r <==> 0.0 < delta) && (r < 0.0 <==> delta < 0.0)
  {
    if circumference == 0.0 then 0.0
    else
      var perLength := delta / circumference;
      assert 0.0 < circumference ==> (0.0 < perLength <==> 0.0 < delta) && (perLength < 0.0 <==> delta < 0.0);
      perLength * rigidity
  }

  /** Before the latch is set, a mesh is never pulled inwards: the pressure is never negative. */
  lemma NoSuctionBeforeLatch(delta: real, circumference: real, rigidity: real)
    requires 0.0 < circumference && 0.0 < rigidity
    ensures 0.0 <= Pressure(Stabilized(false, delta).0, circumference, rigidity)
  {
  }

  /**
   * The volume force of the n-th vertex of a polygon: the pressure times the
   * unit normal of the chord from the previous to the next vertex, times the
   * time scale.
   */
  function PressureForce(num: Numerics, pp: Vec, np: Vec, pressure: real, ts: real): (r: Vec)
    ensures pressure == 0.0 || ts == 0.0 ==> r == Zero()
  {
    Scale(Scale(Normalized(num, Perpendicular(Sub(np, pp))), pressure), ts)
  }

  /** The volume force is normal to the chord it comes from. */
  lemma PressureForceIsNormal(num: Numerics, pp: Vec, np: Vec, pressure: real, ts: real)
    ensures Dot(PressureForce(num, pp, np, pressure, ts), Sub(np, pp)) == 0.0
  {
    var chord := Sub(np, pp);
    var normal := Perpendicular(chord);
    PerpendicularLaws(chord);
    DotLaws(normal, chord, chord, 0.0);
    if LengthSquared(normal) != 0.0 {
      var k := NormalizedFactor(num, normal);
      DotLaws(normal, chord, chord, k);
      DotLaws(Scale(normal, k), chord, chord, pressure);
      DotLaws(Scale(Scale(normal, k), pressure), chord, chord, ts);
    } else {
      assert Normalized(num, normal) == Zero();
    }
  }

  /** The neighbours of vertex n of a polygon of size `size`, as PreserveAreas indexes them. */
  function Before(n: nat, size: nat): nat
    requires n < size
  {
    (n - 1 + size) % size
  }

  function After(n: nat, size: nat): nat
    requires n < size
  {
    (n + 1) % size
  }

  /** The volume force of vertex n of a polygon, from the global positions of its two neighbours. */
  function VolumeForceAt(num: Numerics, polygon: seq<Particle>, n: nat, pressure: real, ts: real): Vec
    requires n < |polygon|
    reads polygon[Before(n, |polygon|)], polygon[After(n, |polygon|)]
  {
    PressureForce(num, polygon[Before(n, |polygon|)].globalPosition, polygon[After(n, |polygon|)].globalPosition,
                  pressure, ts)
  }

  /** The global positions of a set of particles, as a map. */
  function PositionsOf(ps: set<Particle>): (r: map<Particle, Vec>)
    reads ps
    ensures r.Keys == ps && forall p :: p in ps ==> r[p] == p.globalPosition
  {
    map p | p in ps :: p.globalPosition
  }

  /** The sub-convex polygons of a mesh once refreshed: decomposed afresh when stale, the stored ones otherwise. */
  function Decomposed(mesh: Mesh, decompose: Decomposer): seq<seq<Particle>>
    reads mesh`subConvexPolygonsNeedsUpdate, mesh`subConvexPolygons, mesh`closedPolygons
  {
    if mesh.subConvexPolygonsNeedsUpdate then decompose(mesh.closedPolygons) else mesh.subConvexPolygons
  }

  /** The vertex positions of each polygon of `polys`, read from `pos` rather than from the particles. */
  function ListsAt(pos: map<Particle, Vec>, polys: seq<seq<Particle>>): (r: seq<seq<Vec>>)
    requires forall poly, p :: poly in polys && p in poly ==> p in pos
    ensures |r| == |polys| && forall i :: 0 <= i < |polys| ==> |r[i]| == |polys[i]|
  {
    seq(|polys|, i requires 0 <= i < |polys| =>
      assert polys[i] in polys;
      seq(|polys[i]|, n requires 0 <= n < |polys[i]| => assert polys[i][n] in polys[i]; pos[polys[i][n]]))
  }

  /** With `pos` holding the particles' positions, the polygon areas read from `pos` are the current ones. */
  lemma ListsAtHere(polys: seq<seq<Particle>>, pos: map<Particle, Vec>)
    requires forall poly, p :: poly in polys && p in poly ==> p in pos && pos[p] == p.globalPosition
    ensures SumPolygonAreas(polys, false) == AreaSum(ListsAt(pos, polys))
  {
    var here, there := VertexLists(polys, false), ListsAt(pos, polys);
    forall i | 0 <= i < |polys|
      ensures here[i] == there[i]
    {
      assert polys[i] in polys;
      forall n | 0 <= n < |polys[i]|
        ensures here[i][n] == there[i][n]
      {
        assert polys[i][n] in polys[i];
      }
    }
    assert here == there;
  }

  /** The volume forces of a polygon on the positions `pos`, one per vertex, all from the same positions. */
  function PolygonForces(num: Numerics, pos: map<Particle, Vec>, polygon: seq<Particle>, pressure: real, ts: real)
    : (r: seq<Vec>)
    requires forall p :: p in polygon ==> p in pos
    ensures |r| == |polygon|
    ensures forall n :: 0 <= n < |polygon| ==>
              r[n] == PressureForce(num, pos[polygon[Before(n, |polygon|)]], pos[polygon[After(n, |polygon|)]], pressure, ts)
  {
    seq(|polygon|, n requires 0 <= n < |polygon| =>
      PressureForce(num, pos[polygon[Before(n, |polygon|)]], pos[polygon[After(n, |polygon|)]], pressure, ts))
  }

  /**
   * One turn of the second polygon loop on positions: force n applied at the
   * midpoint of the chord from the previous to the next vertex, split
   * between its two ends by SegmentRates; a chord of zero length is skipped.
   */
  function PressureStep(num: Numerics, pos: map<Particle, Vec>, polygon: seq<Particle>, forces: seq<Vec>, n: nat)
    : (r: map<Particle, Vec>)
    requires n < |polygon| == |forces| && forall p :: p in polygon ==> p in pos
    ensures r.Keys == pos.Keys
    ensures forall p :: p in pos && p != polygon[Before(n, |polygon|)] && p != polygon[After(n, |polygon|)] ==>
              r[p] == pos[p]
    ensures forces[n] == Zero() ==> r == pos
  {
    var pp, np := polygon[Before(n, |polygon|)], polygon[After(n, |polygon|)];
    var a, b := pos[pp], pos[np];
    if Length(num, Sub(b, a)) == 0.0 then pos
    else
      var (rateA, rateB) := SegmentRates(num, a, b, Scale(Add(b, a), 0.5));
      pos[pp := Add(a, Scale(forces[n], rateA))][np := Add(b, Scale(forces[n], rateB))]
  }

  /** The first n turns of the second polygon loop. */
  function PressureFold(num: Numerics, pos: map<Particle, Vec>, polygon: seq<Particle>, forces: seq<Vec>, n: nat)
    : (r: map<Particle, Vec>)
    requires n <= |polygon| == |forces| && forall p :: p in polygon ==> p in pos
    ensures r.Keys == pos.Keys
    ensures forall p :: p in pos && p !in polygon ==> r[p] == pos[p]
  {
    if n == 0 then pos else PressureStep(num, PressureFold(num, pos, polygon, forces, n - 1), polygon, forces, n - 1)
  }

  /** The positions after one polygon of PreserveAreas: its forces from `pos`, then every turn of the second loop. */
  function Pressurized(num: Numerics, pos: map<Particle, Vec>, polygon: seq<Particle>, pressure: real, ts: real)
    : (r: map<Particle, Vec>)
    requires forall p :: p in polygon ==> p in pos
  {
    PressureFold(num, pos, polygon, PolygonForces(num, pos, polygon, pressure, ts), |polygon|)
  }

  /** The positions after the first i closed polygons of a mesh, each pressurized from what the previous left. */
  function Inflated(num: Numerics, pos: map<Particle, Vec>, polygons: seq<seq<Particle>>, pressure: real, ts: real, i: nat)
    : (r: map<Particle, Vec>)
    requires i <= |polygons| && PolygonParticles(polygons) <= pos.Keys
    ensures r.Keys == pos.Keys
  {
    if i == 0 then pos
    else
      var q := Inflated(num, pos, polygons, pressure, ts, i - 1);
      assert forall p :: p in polygons[i - 1] ==> p in PolygonParticles(polygons);
      PressureFold(num, q, polygons[i - 1], PolygonForces(num, q, polygons[i - 1], pressure, ts), |polygons[i - 1]|)
  }

  /**
   * A turn that is not skipped moves only the two ends of its chord, and
   * their displacements add up to the volume force: no force is lost or
   * created by the split.
   */
  lemma PressureStepSplitsForce(num: Numerics, pos: map<Particle, Vec>, polygon: seq<Particle>, forces: seq<Vec>, n: nat)
    requires n < |polygon| == |forces| && forall p :: p in polygon ==> p in pos
    requires Length(num, Sub(pos[polygon[After(n, |polygon|)]], pos[polygon[Before(n, |polygon|)]])) != 0.0
    ensures var pp, np := polygon[Before(n, |polygon|)], polygon[After(n, |polygon|)];
            var r := PressureStep(num, pos, polygon, forces, n);
            pp != np && Add(Sub(r[pp], pos[pp]), Sub(r[np], pos[np])) == forces[n]
  {
    var pp, np := polygon[Before(n, |polygon|)], polygon[After(n, |polygon|)];
    var a, b := pos[pp], pos[np];
    var (rateA, rateB) := SegmentRates(num, a, b, Scale(Add(b, a), 0.5));
    SegmentRatesSplitForce(num, a, b, Scale(Add(b, a), 0.5), forces[n]);
    var f := forces[n];
    assert Sub(Add(a, Scale(f, rateA)), a) == Scale(f, rateA);
    assert Sub(Add(b, Scale(f, rateB)), b) == Scale(f, rateB);
  }

  /** With no force to apply, the second polygon loop moves nothing. */
  lemma {:induction false} PressureFoldOfZero(num: Numerics, pos: map<Particle, Vec>, polygon: seq<Particle>, forces: seq<Vec>, n: nat)
    requires n <= |polygon| == |forces| && forall p :: p in polygon ==> p in pos
    requires forall k :: 0 <= k < |forces| ==> forces[k] == Zero()
    ensures PressureFold(num, pos, polygon, forces, n) == pos
  {
    if n > 0 {
      PressureFoldOfZero(num, pos, polygon, forces, n - 1);
    }
  }

  /** A zero pressure leaves every closed polygon where it is. */
  lemma {:induction false} InflatedAtZero(num: Numerics, pos: map<Particle, Vec>, polygons: seq<seq<Particle>>, ts: real, i: nat)
    requires i <= |polygons| && PolygonParticles(polygons) <= pos.Keys
    ensures Inflated(num, pos, polygons, 0.0, ts, i) == pos
  {
    if i > 0 {
      InflatedAtZero(num, pos, polygons, ts, i - 1);
      assert forall p :: p in polygons[i - 1] ==> p in PolygonParticles(polygons);
      PressureFoldOfZero(num, pos, polygons[i - 1], PolygonForces(num, pos, polygons[i - 1], 0.0, ts), |polygons[i - 1]|);
    }
  }

  // ---------------------------------------------------------------- shape matching

  /** std::min(a, b) as the standard library writes it: b only when b < a. */
  function Min(a: real, b: real): real
  {
    if b < a then b else a
  }

  /** The magnitude of a shape-matching pull over a distance `len`: quadratic for short distances, never above len * ts. */
  function PullMagnitude(len: real, rate: real, ts: real): (f: real)
    ensures f <= len * ts
    ensures f == len * ts || f == len * len * 0.002 * rate * ts
  {
    Min(len * len * 0.002 * rate * ts, len * ts)
  }

  /** The pull on a particle at distance vector `d` from its target: along the unit vector of d. */
  function PullForce(num: Numerics, d: Vec, rate: real, ts: real): Vec
  {
    Scale(Normalized(num, d), PullMagnitude(Length(num, d), rate, ts))
  }

  /**
   * With nonnegative rate and time scale and an exact square root, the pull
   * points towards the target and is never longer than the distance times
   * the time scale.
   */
  lemma PullBounded(num: Numerics, d: Vec, rate: real, ts: real)
    requires 0.0 <= rate && 0.0 <= ts && ExactSqrt(num, LengthSquared(d))
    ensures exists k: real :: 0.0 <= k && PullForce(num, d, rate, ts) == Scale(d, k)
    ensures LengthSquared(PullForce(num, d, rate, ts)) <= (Length(num, d) * ts) * (Length(num, d) * ts)
  {
    var len := Length(num, d);
    PullMagnitudeRange(len, rate, ts);
    if LengthSquared(d) == 0.0 {
      assert Normalized(num, d) == Zero();
      assert PullForce(num, d, rate, ts) == Scale(d, 0.0) == Zero();
      Reals.SquareNonnegative(len * ts);
    } else {
      PullAlong(num, d, rate, ts);
      PullShort(num, d, rate, ts);
    }
  }

  /** A pull on a nonzero distance is a nonnegative multiple of it. */
  lemma PullAlong(num: Numerics, d: Vec, rate: real, ts: real)
    requires LengthSquared(d) != 0.0 && 0.0 <= PullMagnitude(Length(num, d), rate, ts)
    ensures exists k: real :: 0.0 <= k && PullForce(num, d, rate, ts) == Scale(d, k)
  {
    var f := PullMagnitude(Length(num, d), rate, ts);
    var k := NormalizedFactor(num, d);
    Reals.ProductNonnegative(k, f);
    assert Scale(Scale(d, k), f) == Scale(d, k * f);
  }

  /** A pull on a nonzero distance with an exact length is no longer than len * ts. */
  lemma PullShort(num: Numerics, d: Vec, rate: real, ts: real)
    requires LengthSquared(d) != 0.0 && ExactSqrt(num, LengthSquared(d))
    requires 0.0 <= PullMagnitude(Length(num, d), rate, ts) <= Length(num, d) * ts
    ensures LengthSquared(PullForce(num, d, rate, ts)) <= (Length(num, d) * ts) * (Length(num, d) * ts)
  {
    NormalizedIsUnit(num, d);
    UnitPullBound(Normalized(num, d), PullMagnitude(Length(num, d), rate, ts), Length(num, d) * ts);
  }

  /** For a nonnegative distance, rate and time scale the pull magnitude lies in [0, len * ts]. */
  lemma PullMagnitudeRange(len: real, rate: real, ts: real)
    requires 0.0 <= len && 0.0 <= rate && 0.0 <= ts
    ensures 0.0 <= PullMagnitude(len, rate, ts) <= len * ts
  {
    Reals.ProductNonnegative(len, ts);
    Reals.ProductNonnegative(len, len);
    Reals.ProductNonnegative(len * len, 0.002);
    Reals.ProductNonnegative(len * len * 0.002, rate);
    Reals.ProductNonnegative(len * len * 0.002 * rate, ts);
  }

  /** A unit vector scaled by f in [0, b] is no longer than b. */
  lemma UnitPullBound(u: Vec, f: real, b: real)
    requires LengthSquared(u) == 1.0 && 0.0 <= f <= b
    ensures LengthSquared(Scale(u, f)) <= b * b
  {
    ScaledLengthSquared(u, f);
    SquareBelow(f, b);
  }

  lemma ScaledLengthSquared(u: Vec, f: real)
    ensures LengthSquared(Scale(u, f)) == f * f * LengthSquared(u)
  {
    assert (u.x * f) * (u.x * f) == f * f * (u.x * u.x);
    assert (u.y * f) * (u.y * f) == f * f * (u.y * u.y);
  }

  /** Far from its target (len * ts below the quadratic term), the pull covers the whole distance times ts. */
  lemma FarPullIsWholeDistance(num: Numerics, d: Vec, rate: real, ts: real)
    requires LengthSquared(d) != 0.0
    requires Length(num, d) * ts < Length(num, d) * Length(num, d) * 0.002 * rate * ts
    ensures PullForce(num, d, rate, ts) == Scale(d, ts)
  {
    var len := Length(num, d);
    NormalizedScale(num, d);
    var u := Normalized(num, d);
    assert Scale(u, len * ts) == Scale(Scale(u, len), ts);
  }

  lemma SquareBelow(a: real, b: real)
    requires 0.0 <= a <= b
    ensures a * a <= b * b
  {
    assert a * a <= a * b;
    assert a * b <= b * b;
  }

  // ---------------------------------------------------------------- particle lists

  /** The global positions of a list of particles, in order. */
  function Globals(ps: seq<Particle>): (r: seq<Vec>)
    reads (set p | p in ps)`globalPosition
    ensures |r| == |ps| && forall i :: 0 <= i < |ps| ==> r[i] == ps[i].globalPosition
  {
    if ps == [] then [] else Globals(ps[..|ps| - 1]) + [ps[|ps| - 1].globalPosition]
  }

  /** The local positions of a list of particles, in order. */
  function Locals(ps: seq<Particle>): (r: seq<Vec>)
    reads (set p | p in ps)`position
    ensures |r| == |ps| && forall i :: 0 <= i < |ps| ==> r[i] == ps[i].position
  {
    if ps == [] then [] else Locals(ps[..|ps| - 1]) + [ps[|ps| - 1].position]
  }

  /** The polygons of a mesh laid end to end, as ApplyShapeMatching gathers them for a polyline mesh. */
  function Joined(polys: seq<seq<Particle>>): (r: seq<Particle>)
    ensures forall p :: p in r ==> p in PolygonParticles(polys)
  {
    if polys == [] then [] else Joined(polys[..|polys| - 1]) + polys[|polys| - 1]
  }

  /** The positions `g0` holds for a list of particles, in order. */
  function GlobalsIn(g0: map<Particle, Vec>, ps: seq<Particle>): (r: seq<Vec>)
    requires forall p :: p in ps ==> p in g0
    ensures |r| == |ps| && forall i :: 0 <= i < |ps| ==> r[i] == g0[ps[i]]
  {
    seq(|ps|, i requires 0 <= i < |ps| => g0[ps[i]])
  }

  /** Particles still at the positions `g0` records have those positions as their Globals. */
  lemma GlobalsFromMap(ps: seq<Particle>, g0: map<Particle, Vec>)
    requires forall p :: p in ps ==> p in g0 && p.globalPosition == g0[p]
    ensures Globals(ps) == GlobalsIn(g0, ps)
  {
  }

  /** The particles ApplyShapeMatching works on in a mesh: the closed polygons end to end for a polyline mesh, else all of them. */
  function MatchList(m: Mesh, behavior: CollisionBehavior): seq<Particle>
    reads m`closedPolygons, m`particles
  {
    if behavior == Polyline then Joined(m.closedPolygons) else m.particles
  }

  /** The particles of the closed polygons of a list of meshes. */
  function ClosedParticlesOf(ms: seq<Mesh>): (r: set<Particle>)
    reads (set m | m in ms)`closedPolygons
    ensures forall m :: m in ms ==> PolygonParticles(m.closedPolygons) <= r
  {
    set m, poly, p | m in ms && poly in m.closedPolygons && p in poly :: p
  }

  /** Every mesh's closed polygons, and its sub-convex polygons once refreshed, are made of its own particles. */
  ghost predicate OwnPolygons(ms: seq<Mesh>, decompose: Decomposer)
    reads (set m | m in ms)`particles, (set m | m in ms)`closedPolygons
    reads (set m | m in ms)`subConvexPolygons, (set m | m in ms)`subConvexPolygonsNeedsUpdate
  {
    forall m :: m in ms ==> PolygonParticles(m.closedPolygons) <= (set p | p in m.particles) &&
                            PolygonParticles(Decomposed(m, decompose)) <= (set p | p in m.particles)
  }

  /** With separate meshes made of their own particles, no other mesh holds a particle of mesh ms[i]'s closed polygons. */
  lemma OthersApart(ms: seq<Mesh>, decompose: Decomposer, i: nat)
    requires Separate(ms) && OwnPolygons(ms, decompose) && i < |ms|
    ensures forall j, p :: 0 <= j < |ms| && j != i && p in ms[j].particles ==> p !in PolygonParticles(ms[i].closedPolygons)
  {
    assert ms[i] in ms;
  }

  /**
   * What PreserveAreas records of the state it starts from: the latch, the
   * positions of the closed polygons' particles (`g0`) and of all the
   * meshes' particles (`all`), and each mesh's area and refreshed
   * sub-convex polygons.
   */
  datatype AreaStart = AreaStart(stable: bool, g0: map<Particle, Vec>, all: map<Particle, Vec>,
                                 areas: map<Mesh, real>, d0: map<Mesh, seq<seq<Particle>>>)

  /** PreserveAreas so far: the meshes with springs met, their indices among the meshes, and their deficits. */
  datatype AreaRun = AreaRun(springy: seq<Mesh>, idx: seq<nat>, deltas: seq<real>)

  /** The record `s` covers the meshes `ms`: each one's area is the area of its recorded polygons at the positions `all`. */
  ghost predicate Snapshot(ms: seq<Mesh>, s: AreaStart)
    reads (set m | m in ms)`particles
  {
    && (forall p :: p in s.g0 ==> p in s.all && s.g0[p] == s.all[p])
    && forall m :: m in ms ==>
      m in s.areas && m in s.d0 &&
      (forall poly, p :: poly in s.d0[m] && p in poly ==> p in m.particles && p in s.all) &&
      s.areas[m] == AreaSum(ListsAt(s.all, s.d0[m]))
  }

  /** `r` has met the meshes ms[..i]: the ones with springs, in order, with their indices and one deficit each. */
  ghost predicate RunShape(ms: seq<Mesh>, i: nat, r: AreaRun)
    reads (set m | m in ms)`springs
  {
    && i <= |ms| && r.springy == Springy(ms[..i]) && |r.deltas| == |r.springy| == |r.idx|
    && forall k :: 0 <= k < |r.idx| ==> r.idx[k] < i && r.springy[k] == ms[r.idx[k]] && ms[r.idx[k]].springs != []
  }

  /** The meshes are made of their own particles, their closed polygons' particles are recorded, and their sub-convex polygons are the recorded ones. */
  ghost predicate AreasPlaced(ms: seq<Mesh>, decompose: Decomposer, s: AreaStart)
    reads set m | m in ms
  {
    && OwnPolygons(ms, decompose)
    && (forall m :: m in ms ==> PolygonParticles(m.closedPolygons) <= s.g0.Keys)
    && (forall j :: 0 <= j < |ms| ==> ms[j] in s.d0 && Decomposed(ms[j], decompose) == s.d0[ms[j]])
  }

  /** The meshes from ms[i] on, and those without springs, are where they were recorded. */
  ghost predicate AreasUntouched(ms: seq<Mesh>, i: nat, s: AreaStart)
    reads (set m | m in ms)`particles, (set m | m in ms)`springs, s.all.Keys`globalPosition
  {
    forall j, p :: 0 <= j < |ms| && (i <= j || ms[j].springs == []) && p in ms[j].particles ==>
      p in s.all && p.globalPosition == s.all[p]
  }

  /** The meshes PreserveAreas works on: those with at least one spring, in order. */
  function Springy(ms: seq<Mesh>): (r: seq<Mesh>)
    reads (set m | m in ms)`springs
    ensures |r| <= |ms|
  {
    if ms == [] then []
    else Springy(ms[..|ms| - 1]) + (if ms[|ms| - 1].springs != [] then [ms[|ms| - 1]] else [])
  }

  // ---------------------------------------------------------------- averages

  /**
   * The cosine and sine one particle contributes to the average rotation: the
   * dot and perpendicular dot of its displacement from the centres, over the
   * product of their lengths, or (0, 0) when that product is 0.
   */
  function Alignment(num: Numerics, relative: Vec, original: Vec): Turn
  {
    var dotLength := Length(num, relative) * Length(num, original);
    if dotLength == 0.0 then Turn(0.0, 0.0)
    else Turn(Dot(relative, original) / dotLength, Dot(relative, Perpendicular(original)) / dotLength)
  }

  /** A cosine and a sine, or their sums over several particles. */
  datatype Turn = Turn(cos: real, sin: real)

  /** The sums of the cosines and of the sines of the first particles' alignments. */
  function AlignmentSums(num: Numerics, globals: seq<Vec>, locals: seq<Vec>, average: Vec, center: Vec): Turn
    requires |globals| == |locals|
  {
    if globals == [] then Turn(0.0, 0.0)
    else
      var sums := AlignmentSums(num, globals[..|globals| - 1], locals[..|locals| - 1], average, center);
      var last := Alignment(num, Sub(globals[|globals| - 1], average), Sub(locals[|locals| - 1], center));
      Turn(sums.cos + last.cos, sums.sin + last.sin)
  }

  lemma AlignmentSumsSnoc(num: Numerics, globals: seq<Vec>, locals: seq<Vec>, average: Vec, center: Vec, i: nat)
    requires |globals| == |locals| && i < |globals|
    ensures var sums := AlignmentSums(num, globals[..i], locals[..i], average, center);
            var next := Alignment(num, Sub(globals[i], average), Sub(locals[i], center));
            AlignmentSums(num, globals[..i + 1], locals[..i + 1], average, center) == Turn(sums.cos + next.cos, sums.sin + next.sin)
  {
    assert globals[..i + 1][..i] == globals[..i];
    assert locals[..i + 1][..i] == locals[..i];
  }

  /**
   * The rotation GetAveragePositionAndRotation estimates for particles with
   * global positions `globals` and local positions `locals`: atan2 of the
   * safe asin of the mean sine and of the mean cosine.
   */
  function AverageRotation(num: Numerics, globals: seq<Vec>, locals: seq<Vec>): real
    requires |globals| == |locals| && globals != []
  {
    var n := |globals| as real;
    var sums := AlignmentSums(num, globals, locals, Mean(globals), Mean(locals));
    num.atan2(SafeAsin(num, sums.sin / n), sums.cos / n)
  }

  // ---------------------------------------------------------------- shape matching

  /** The placement of the undeformed shape: its local centre, and where and at what angle it is put. */
  datatype Pose = Pose(center: Vec, position: Vec, rotation: real)

  /** Where shape matching aims a particle at local position `local`: its offset from the centre, turned by -rotation, carried to the position. */
  function ShapeTarget(num: Numerics, local: Vec, pose: Pose): Vec
  {
    Add(Rotated(num, Sub(local, pose.center), -pose.rotation), pose.position)
  }

  /**
   * The pose ApplyShapeMatching matches a particle list to: the fixed one
   * (about the local origin) when the fixed transform is on, otherwise the
   * mean local position as centre and GetAveragePositionAndRotation's
   * result, which for a single particle is its own position and no turn.
   */
  function MatchPose(num: Numerics, globals: seq<Vec>, locals: seq<Vec>,
                     fixed: bool, fixedPosition: Vec, fixedRotation: real): Pose
    requires |globals| == |locals| && globals != []
  {
    if fixed then Pose(Zero(), fixedPosition, fixedRotation)
    else if |globals| == 1 then Pose(Mean(locals), globals[0], 0.0)
    else Pose(Mean(locals), Mean(globals), AverageRotation(num, globals, locals))
  }

  /** A particle's global position after one shape-matching pull towards its target. */
  function Pulled(num: Numerics, global: Vec, local: Vec, pose: Pose, rate: real, ts: real): Vec
  {
    Add(global, PullForce(num, Sub(ShapeTarget(num, local, pose), global), rate, ts))
  }

  /**
   * The positions after the force loop has pulled the first n listed
   * particles in turn, each from where the loop has left it so far: a
   * particle listed twice (a vertex shared by two closed polygons) is pulled
   * twice.
   */
  function PullFold(num: Numerics, pos: map<Particle, Vec>, ps: seq<Particle>, locals: seq<Vec>, pose: Pose,
                    rate: real, ts: real, n: nat): (r: map<Particle, Vec>)
    requires n <= |ps| == |locals| && forall p :: p in ps ==> p in pos
    ensures r.Keys == pos.Keys
    ensures forall p :: p in pos && p !in ps[..n] ==> r[p] == pos[p]
  {
    if n == 0 then pos
    else
      var q := PullFold(num, pos, ps, locals, pose, rate, ts, n - 1);
      assert forall p :: p in pos && p !in ps[..n] ==> p !in ps[..n - 1] && p != ps[n - 1];
      q[ps[n - 1] := Pulled(num, q[ps[n - 1]], locals[n - 1], pose, rate, ts)]
  }

  /** In a list without repeats, each particle is pulled exactly once, from where `pos` has it. */
  lemma {:induction false} PullFoldOnce(num: Numerics, pos: map<Particle, Vec>, ps: seq<Particle>, locals: seq<Vec>,
                                        pose: Pose, rate: real, ts: real, n: nat)
    requires n <= |ps| == |locals| && (forall p :: p in ps ==> p in pos) && Seqs.Distinct(ps)
    ensures forall i :: 0 <= i < n ==>
              PullFold(num, pos, ps, locals, pose, rate, ts, n)[ps[i]] == Pulled(num, pos[ps[i]], locals[i], pose, rate, ts)
  {
    if n > 0 {
      PullFoldOnce(num, pos, ps, locals, pose, rate, ts, n - 1);
      assert ps[n - 1] !in ps[..n - 1];
    }
  }

  /** Every listed particle sits where the force loop, started from the positions `g`, leaves it. */
  ghost predicate PulledAll(num: Numerics, ps: seq<Particle>, g: map<Particle, Vec>, pose: Pose, rate: real, ts: real)
    reads (set p | p in ps)`globalPosition, (set p | p in ps)`position
  {
    (forall p :: p in ps ==> p in g) &&
    forall p :: p in ps ==> p.globalPosition == PullFold(num, g, ps, Locals(ps), pose, rate, ts, |ps|)[p]
  }

  /** The listed particles, which were at the positions `g`, were pulled by the force loop towards MatchPose of that list. */
  ghost predicate ShapeMatched(num: Numerics, ps: seq<Particle>, g: map<Particle, Vec>, fixed: bool, fixedPosition: Vec,
                               fixedRotation: real, rate: real, ts: real)
    reads (set p | p in ps)`globalPosition, (set p | p in ps)`position
  {
    ps != [] && (forall p :: p in ps ==> p in g) &&
    PulledAll(num, ps, g, MatchPose(num, GlobalsIn(g, ps), Locals(ps), fixed, fixedPosition, fixedRotation), rate, ts)
  }

  /**
   * A shape-matched list without repeats: each particle took exactly one
   * pull from where it was, so PulledWithinReach bounds its move.
   */
  lemma ShapeMatchedOnce(num: Numerics, ps: seq<Particle>, g: map<Particle, Vec>, fixed: bool, fixedPosition: Vec,
                         fixedRotation: real, rate: real, ts: real)
    requires ShapeMatched(num, ps, g, fixed, fixedPosition, fixedRotation, rate, ts) && Seqs.Distinct(ps)
    ensures var pose := MatchPose(num, GlobalsIn(g, ps), Locals(ps), fixed, fixedPosition, fixedRotation);
            forall i :: 0 <= i < |ps| ==> ps[i].globalPosition == Pulled(num, g[ps[i]], ps[i].position, pose, rate, ts)
  {
    var pose := MatchPose(num, GlobalsIn(g, ps), Locals(ps), fixed, fixedPosition, fixedRotation);
    PullFoldOnce(num, g, ps, Locals(ps), pose, rate, ts, |ps|);
  }

  /**
   * A pull never carries a particle further than its distance to the target
   * times ts, and always along the line to the target.
   */
  lemma PulledWithinReach(num: Numerics, global: Vec, local: Vec, pose: Pose, rate: real, ts: real)
    requires 0.0 <= rate && 0.0 <= ts
    requires ExactSqrt(num, LengthSquared(Sub(ShapeTarget(num, local, pose), global)))
    ensures var d := Sub(ShapeTarget(num, local, pose), global);
            var step := Sub(Pulled(num, global, local, pose, rate, ts), global);
            (exists k: real :: 0.0 <= k && step == Scale(d, k)) &&
            LengthSquared(step) <= (Length(num, d) * ts) * (Length(num, d) * ts)
  {
    var d := Sub(ShapeTarget(num, local, pose), global);
    var f := PullForce(num, d, rate, ts);
    assert Sub(Add(global, f), global) == f;
    PullBounded(num, d, rate, ts);
  }

  /** A particle already at its target is not moved. */
  lemma AtTargetStaysPut(num: Numerics, global: Vec, local: Vec, pose: Pose, rate: real, ts: real)
    requires global == ShapeTarget(num, local, pose)
    ensures Pulled(num, global, local, pose, rate, ts) == global
  {
    var d := Sub(ShapeTarget(num, local, pose), global);
    assert d == Zero();
    assert Normalized(num, d) == Zero();
  }

  /** The sum of elementwise sums is the sum of the two sums. */
  lemma {:induction false} SumOfSums(globals: seq<Vec>, locals: seq<Vec>, shifts: seq<Vec>)
    requires |globals| == |locals| == |shifts|
    requires forall i :: 0 <= i < |globals| ==> globals[i] == Add(locals[i], shifts[i])
    ensures Sum(globals) == Add(Sum(locals), Sum(shifts))
  {
    if globals != [] {
      var n := |globals| - 1;
      SumOfSums(globals[..n], locals[..n], shifts[..n]);
    }
  }

  /** The mean of a translated list is the translated mean. */
  lemma MeanTranslated(globals: seq<Vec>, locals: seq<Vec>, t: Vec)
    requires |globals| == |locals| && globals != []
    requires forall i :: 0 <= i < |globals| ==> globals[i] == Add(locals[i], t)
    ensures Mean(globals) == Add(Mean(locals), t)
  {
    var shifts := seq(|globals|, _ => t);
    SumOfSums(globals, locals, shifts);
    SumOfEqual(shifts, t);
    QuotientShifted(Sum(locals), t, |globals| as real);
  }

  /** Dividing s + n * t by n gives s / n + t. */
  lemma QuotientShifted(s: Vec, t: Vec, n: real)
    requires n != 0.0
    ensures DivScalar(Add(s, Scale(t, n)), n) == Add(DivScalar(s, n), t)
  {
    Reals.QuotientOfShift(s.x, t.x, n, t.x * n);
    Reals.QuotientOfShift(s.y, t.y, n, t.y * n);
  }

  /** A displacement measured against itself has no sine and a nonnegative cosine. */
  lemma SelfAlignment(num: Numerics, o: Vec)
    ensures Alignment(num, o, o).sin == 0.0 && 0.0 <= Alignment(num, o, o).cos
  {
    var dotLength := Length(num, o) * Length(num, o);
    Reals.ProductNonnegative(Length(num, o), Length(num, o));
    assert Dot(o, Perpendicular(o)) == 0.0;
    Reals.SquareNonnegative(o.x);
    Reals.SquareNonnegative(o.y);
    if dotLength != 0.0 {
      Reals.QuotientNonnegative(Dot(o, o), dotLength);
    }
  }

  /** When every global offset equals its local offset, the sines sum to 0 and the cosines to a nonnegative number. */
  lemma {:induction false} UnturnedSums(num: Numerics, globals: seq<Vec>, locals: seq<Vec>, average: Vec, center: Vec)
    requires |globals| == |locals|
    requires forall i :: 0 <= i < |globals| ==> Sub(globals[i], average) == Sub(locals[i], center)
    ensures AlignmentSums(num, globals, locals, average, center).sin == 0.0
    ensures 0.0 <= AlignmentSums(num, globals, locals, average, center).cos
  {
    if globals != [] {
      var n := |globals| - 1;
      UnturnedSums(num, globals[..n], locals[..n], average, center);
      SelfAlignment(num, Sub(locals[n], center));
    }
  }

  /**
   * The undeformed shape is a resting point of shape matching: when every
   * particle sits at its local position moved by one common translation t,
   * with a math library for which asin(0) = 0 and atan2(0, c) = 0 for c >= 0,
   * the matched pose puts every particle exactly at its target.
   */
  lemma TranslatedShapeIsMatched(num: Numerics, globals: seq<Vec>, locals: seq<Vec>, t: Vec,
                                 fixedPosition: Vec, fixedRotation: real)
    requires |globals| == |locals| && globals != []
    requires forall i :: 0 <= i < |globals| ==> globals[i] == Add(locals[i], t)
    requires num.asin(0.0) == 0.0 && forall c :: 0.0 <= c ==> num.atan2(0.0, c) == 0.0
    ensures var pose := MatchPose(num, globals, locals, false, fixedPosition, fixedRotation);
            forall i :: 0 <= i < |globals| ==> ShapeTarget(num, locals[i], pose) == globals[i]
  {
    var pose := MatchPose(num, globals, locals, false, fixedPosition, fixedRotation);
    MeanTranslated(globals, locals, t);
    if |globals| == 1 {
      assert locals[..0] == [];
      assert Sum(locals) == Add(Zero(), locals[0]);
      assert Mean(locals) == DivScalar(locals[0], 1.0) == locals[0];
    } else {
      var ml := Mean(locals);
      assert forall i :: 0 <= i < |globals| ==> Sub(globals[i], Mean(globals)) == Sub(locals[i], ml);
      UnturnedSums(num, globals, locals, Mean(globals), ml);
      var sums := AlignmentSums(num, globals, locals, Mean(globals), ml);
      var c, s := sums.cos, sums.sin;
      var n := |globals| as real;
      Reals.QuotientNonnegative(c, n);
      assert s / n == 0.0;
      assert pose.rotation == 0.0;
    }
    forall i | 0 <= i < |globals|
      ensures ShapeTarget(num, locals[i], pose) == globals[i]
    {
      assert -pose.rotation == 0.0;
    }
  }

  /** The meshes ms[..i] of a soft body whose matching from g0 at time scale ts is carried over a step. */
  datatype MatchScope = MatchScope(sb: SoftBody, num: Numerics, ms: seq<Mesh>, i: nat, g0: map<Particle, Vec>, ts: real)

  /**
   * Once mesh ms[i] has been matched, touching only its own particles (and
   * none of them when it has fewer than two) and its own fields, the meshes
   * before it stay Matched, and the particles of the meshes after it and of
   * every small mesh are still at `g0`.
   */
  twostate lemma MatchTurnKept(s: MatchScope)
    requires s.i < |s.ms|
    requires s.sb.enableShapeMatchingFixedTransform == old(s.sb.enableShapeMatchingFixedTransform)
    requires s.sb.shapeMatchingFixedPosition == old(s.sb.shapeMatchingFixedPosition)
    requires s.sb.shapeMatchingFixedRotation == old(s.sb.shapeMatchingFixedRotation)
    requires s.sb.shapeMatchingRate == old(s.sb.shapeMatchingRate)
    requires old(s.sb.MatchedUpTo(s.num, s.ms, s.i, s.ts, s.g0))
    requires forall j :: 0 <= j < |s.ms| ==> s.ms[j].particles == old(s.ms[j].particles)
    requires forall j :: 0 <= j < s.i ==>
               old(s.sb.Matched(s.num, s.ms[j], s.g0, s.ts)) &&
               s.ms[j].collisionBehavior == old(s.ms[j].collisionBehavior) && s.ms[j].closedPolygons == old(s.ms[j].closedPolygons) &&
               PolygonParticles(s.ms[j].closedPolygons) <= set p | p in s.ms[j].particles
    requires forall j, p :: 0 <= j < |s.ms| && j != s.i && p in old(s.ms[j].particles) ==>
               p.globalPosition == old(p.globalPosition) && p.position == old(p.position)
    requires |s.ms[s.i].particles| < 2 ==> forall p :: p in old(s.ms[s.i].particles) ==> p.globalPosition == old(p.globalPosition)
    ensures s.sb.MatchedUpTo(s.num, s.ms, s.i + 1, s.ts, s.g0)
    ensures forall j {:trigger s.sb.Matched(s.num, s.ms[j], s.g0, s.ts)} :: 0 <= j < s.i ==> s.sb.Matched(s.num, s.ms[j], s.g0, s.ts)
  {
    UpToKept(s);
    MatchedKept(s);
  }

  /** The particles of the meshes after ms[i], and of every small mesh, are still at `g0` once ms[i] is matched. */
  twostate lemma UpToKept(s: MatchScope)
    requires s.i < |s.ms|
    requires old(s.sb.MatchedUpTo(s.num, s.ms, s.i, s.ts, s.g0))
    requires forall j :: 0 <= j < |s.ms| ==> s.ms[j].particles == old(s.ms[j].particles)
    requires forall j, p :: 0 <= j < |s.ms| && j != s.i && p in old(s.ms[j].particles) ==> p.globalPosition == old(p.globalPosition)
    requires |s.ms[s.i].particles| < 2 ==> forall p :: p in old(s.ms[s.i].particles) ==> p.globalPosition == old(p.globalPosition)
    ensures s.sb.MatchedUpTo(s.num, s.ms, s.i + 1, s.ts, s.g0)
  {
  }

  /** Meshes ms[..i] whose own fields and particles did not change stay Matched. */
  twostate lemma MatchedKept(s: MatchScope)
    requires s.i < |s.ms|
    requires s.sb.enableShapeMatchingFixedTransform == old(s.sb.enableShapeMatchingFixedTransform)
    requires s.sb.shapeMatchingFixedPosition == old(s.sb.shapeMatchingFixedPosition)
    requires s.sb.shapeMatchingFixedRotation == old(s.sb.shapeMatchingFixedRotation)
    requires s.sb.shapeMatchingRate == old(s.sb.shapeMatchingRate)
    requires forall j :: 0 <= j < |s.ms| ==> s.ms[j].particles == old(s.ms[j].particles)
    requires forall j :: 0 <= j < s.i ==>
               old(s.sb.Matched(s.num, s.ms[j], s.g0, s.ts)) &&
               s.ms[j].collisionBehavior == old(s.ms[j].collisionBehavior) && s.ms[j].closedPolygons == old(s.ms[j].closedPolygons) &&
               PolygonParticles(s.ms[j].closedPolygons) <= set p | p in s.ms[j].particles
    requires forall j, p :: 0 <= j < |s.ms| && j != s.i && p in old(s.ms[j].particles) ==>
               p.globalPosition == old(p.globalPosition) && p.position == old(p.position)
    ensures forall j {:trigger s.sb.Matched(s.num, s.ms[j], s.g0, s.ts)} :: 0 <= j < s.i ==> s.sb.Matched(s.num, s.ms[j], s.g0, s.ts)
  {
    forall j | 0 <= j < s.i
      ensures forall p :: p in MatchList(s.ms[j], s.ms[j].collisionBehavior) ==> p in s.ms[j].particles
    {
      SoftBody.MatchListWithin(s.ms[j]);
    }
  }

  /**
   * Before mesh ms[i] is processed, its area is the recorded one and its
   * closed polygons' particles are at their recorded positions.
   */
  lemma StepReady(ms: seq<Mesh>, decompose: Decomposer, i: nat, s: AreaStart)
    requires i < |ms| && Snapshot(ms, s) && AreasPlaced(ms, decompose, s) && AreasUntouched(ms, i, s)
    ensures ms[i] in s.areas && SumPolygonAreas(Decomposed(ms[i], decompose), false) == s.areas[ms[i]]
    ensures forall p :: p in PolygonParticles(ms[i].closedPolygons) ==> p in s.g0 && s.g0[p] == p.globalPosition
  {
    assert ms[i] in ms;
    ListsAtHere(s.d0[ms[i]], s.all);
    forall p | p in PolygonParticles(ms[i].closedPolygons)
      ensures p in s.g0 && s.g0[p] == p.globalPosition
    {
      assert p in ms[i].particles;
    }
  }

  /** `r` with mesh `m`, found at index `i`, and its deficit added. */
  function RunGrown(r: AreaRun, m: Mesh, i: nat, delta: real): AreaRun
  {
    AreaRun(r.springy + [m], r.idx + [i], r.deltas + [delta])
  }

  /** Adding a mesh with springs to the run keeps its shape. */
  lemma RunGrows(ms: seq<Mesh>, i: nat, r: AreaRun, delta: real)
    requires i < |ms| && ms[i].springs != [] && RunShape(ms, i, r)
    ensures RunShape(ms, i + 1, RunGrown(r, ms[i], i, delta))
  {
    assert ms[..i + 1][..i] == ms[..i];
  }

  /**
   * One mesh of PreserveAreas: the soft body, the mesh, the positions `g` it
   * is inflated from, the particles `others` watched while unlatched, and the
   * deficit it was found to have.
   */
  datatype MeshScope = MeshScope(sb: SoftBody, num: Numerics, decompose: Decomposer, mesh: Mesh, ts: real,
                                 g: map<Particle, Vec>, others: set<Particle>, delta: real)

  /**
   * What preserving the area of one mesh does, from the state before to the
   * state after: the deficit is the target area times the rate less the
   * area of the mesh's sub-convex polygons (refreshed if stale); it passes
   * through the latch; the circumference is cached, and kept if it already
   * was; every mesh keeps its particles, springs, closed polygons and
   * refreshed sub-convex polygons; the particles of the mesh's closed
   * polygons are inflated from `g` by the pressure of the deficit; and no
   * other particle moves, none of `others` while the latch stays unset.
   */
  twostate predicate MeshPreserved(c: MeshScope)
    reads *
  {
    && c.sb.body.meshes == old(c.sb.body.meshes) && c.mesh in c.sb.body.meshes
    && c.sb.areaPreservingRigidity == old(c.sb.areaPreservingRigidity)
    && c.sb.TargetArea() == old(c.sb.TargetArea())
    && c.delta == c.sb.TargetArea() - old(SumPolygonAreas(Decomposed(c.mesh, c.decompose), false))
    && c.delta <= c.sb.TargetArea()
    && c.sb.enableAreaStability == Stabilized(old(c.sb.enableAreaStability), c.delta).1
    && !c.sb.body.circumferenceNeedsUpdate
    && (!old(c.sb.body.circumferenceNeedsUpdate) ==> c.sb.body.circumference == old(c.sb.body.circumference))
    && (forall m :: m in old(c.sb.body.meshes) ==>
          m.particles == old(m.particles) && m.springs == old(m.springs) && m.closedPolygons == old(m.closedPolygons))
    && (forall m :: m in old(c.sb.body.meshes) ==> Decomposed(m, c.decompose) == old(Decomposed(m, c.decompose)))
    && PolygonParticles(c.mesh.closedPolygons) <= c.g.Keys
    && (forall p :: p in PolygonParticles(c.mesh.closedPolygons) ==>
          p.globalPosition ==
            Inflated(c.num, c.g, c.mesh.closedPolygons,
                     Pressure(Stabilized(old(c.sb.enableAreaStability), c.delta).0,
                              c.sb.body.circumference, c.sb.areaPreservingRigidity),
                     c.ts, |c.mesh.closedPolygons|)[p])
    && (!c.sb.enableAreaStability ==> forall p :: p in c.others ==> p.globalPosition == old(p.globalPosition))
    && (forall m, p :: m in old(c.sb.body.meshes) && p in old(m.particles) && p !in PolygonParticles(c.mesh.closedPolygons) ==>
          p.globalPosition == old(p.globalPosition))
  }

  /** One turn of PreserveAreas, on mesh ms[i], against the record `s` and the run `r` before it. */
  datatype AreaScope = AreaScope(m: MeshScope, ms: seq<Mesh>, i: nat, s: AreaStart, r: AreaRun)

  /** The turn preserved the area of mesh ms[i], which has springs, inflating it from the recorded positions. */
  ghost predicate TurnOf(c: AreaScope)
    reads c.m.sb, c.m.sb.body, c.m.mesh
  {
    c.ms == c.m.sb.body.meshes && c.i < |c.ms| && c.m.mesh == c.ms[c.i] && c.m.mesh.springs != [] &&
    c.m.g == c.s.g0 && c.m.others == c.s.g0.Keys
  }

  /** Meshes whose particles, closed polygons and sub-convex polygons are kept stay placed. */
  twostate lemma PlacedKept(c: AreaScope)
    requires TurnOf(c) && MeshPreserved(c.m) == true && old(AreasPlaced(c.ms, c.m.decompose, c.s))
    ensures AreasPlaced(c.ms, c.m.decompose, c.s)
  {
  }

  /** When only the particles of mesh ms[i]'s closed polygons moved, the meshes after it are still untouched. */
  twostate lemma UntouchedKept(c: AreaScope)
    requires TurnOf(c) && MeshPreserved(c.m) == true && Separate(c.ms) && OwnPolygons(c.ms, c.m.decompose)
    requires old(AreasUntouched(c.ms, c.i, c.s))
    ensures AreasUntouched(c.ms, c.i + 1, c.s)
  {
    OthersApart(c.ms, c.m.decompose, c.i);
    forall j, p | 0 <= j < |c.ms| && (c.i + 1 <= j || c.ms[j].springs == []) && p in c.ms[j].particles
      ensures p in c.s.all && p.globalPosition == c.s.all[p]
    {
      assert c.ms[j] in old(c.m.sb.body.meshes) && p in old(c.ms[j].particles);
    }
  }

  /** The latch moves by the new deficit; unlatched, nothing recorded has moved. */
  twostate lemma LatchKept(c: AreaScope)
    requires TurnOf(c) && MeshPreserved(c.m) == true && old(c.m.sb.LatchUpTo(c.s, c.r))
    ensures c.m.sb.LatchUpTo(c.s, RunGrown(c.r, c.ms[c.i], c.i, c.m.delta))
  {
    LatchSnoc(c.s.stable, c.r.deltas, c.m.delta);
  }

  /** Each deficit met stays the recorded one, and the new one is taken on the recorded area of mesh ms[i]. */
  twostate lemma DeficitsGrow(c: AreaScope)
    requires TurnOf(c) && MeshPreserved(c.m) == true && old(c.m.sb.Deficits(c.s, c.r)) && |c.r.deltas| == |c.r.springy|
    requires c.ms[c.i] in c.s.areas && old(SumPolygonAreas(Decomposed(c.ms[c.i], c.m.decompose), false)) == c.s.areas[c.ms[c.i]]
    ensures c.m.sb.Deficits(c.s, RunGrown(c.r, c.ms[c.i], c.i, c.m.delta))
  {
  }

  /** The meshes pushed before stay where they were pushed, and mesh ms[i] is pushed by its own deficit. */
  twostate lemma PushedGrows(c: AreaScope)
    requires TurnOf(c) && MeshPreserved(c.m) == true && RunShape(c.ms, c.i, c.r) && Separate(c.ms) && OwnPolygons(c.ms, c.m.decompose)
    requires old(c.m.sb.Pushed(c.m.num, c.m.ts, c.s, c.r)) && old(c.m.sb.LatchUpTo(c.s, c.r))
    ensures c.m.sb.Pushed(c.m.num, c.m.ts, c.s, RunGrown(c.r, c.ms[c.i], c.i, c.m.delta))
  {
    OthersApart(c.ms, c.m.decompose, c.i);
    PrefixesOfSnoc(c.r.deltas, c.m.delta);
    assert c.ms[c.i] in c.ms;
    forall k | 0 <= k < |c.r.springy|
      ensures c.r.springy[k] in c.ms && c.r.idx[k] != c.i
    {
    }
  }

  /** No mesh's particles change, so the meshes stay separate and the record still covers them. */
  twostate lemma HeldKept(c: AreaScope)
    requires TurnOf(c) && MeshPreserved(c.m) == true && old(Separate(c.ms)) && old(Snapshot(c.ms, c.s))
    ensures Separate(c.ms) && Snapshot(c.ms, c.s)
  {
    assert forall m :: m in c.ms ==> m.particles == old(m.particles);
  }

  /**
   * One turn of PreserveAreas on a mesh with springs keeps AreaHeld, with the mesh and its deficit added to the run.
   * (The `== true` forms make the caller establish each predicate as a whole rather than conjunct by conjunct.)
   */
  twostate lemma TurnKept(c: AreaScope)
    requires TurnOf(c) == true && MeshPreserved(c.m) == true
    requires old(c.m.sb.AreaHeld(c.m.num, c.m.decompose, c.ms, c.i, c.m.ts, c.s, c.r)) == true
    requires c.ms[c.i] in c.s.areas && old(SumPolygonAreas(Decomposed(c.ms[c.i], c.m.decompose), false)) == c.s.areas[c.ms[c.i]]
    ensures c.m.sb.AreaHeld(c.m.num, c.m.decompose, c.ms, c.i + 1, c.m.ts, c.s, RunGrown(c.r, c.ms[c.i], c.i, c.m.delta)) == true
  {
    HeldKept(c);
    PlacedKept(c);
    RunGrows(c.ms, c.i, c.r, c.m.delta);
    UntouchedKept(c);
    LatchKept(c);
    DeficitsGrow(c);
    PushedGrows(c);
  }

  // ---------------------------------------------------------------- the body

  class SoftBody {
    const body: Body
    var rigidity: real
    var enableAreaPreserving: bool
    var areaPreservingRate: real
    var areaPreservingRigidity: real
    var targetPreservationArea: real
    var particleSpesificMass: real
    var enableParticleSpesificMass: bool
    var enableAreaStability: bool
    var enablePassivationOfInternalSprings: bool
    var enableSelfCollisions: bool
    var enableShapeMatching: bool
    var shapeMatchingRate: real
    var applyShapeMatchingInternals: bool
    var enableShapeMatchingFixedTransform: bool
    var shapeMatchingFixedPosition: Vec
    var shapeMatchingFixedRotation: real

    /** QSoftBody(): a mass-spring model, soft-type body with the option defaults of qsoftbody.h. */
    constructor(pointer: nat)
      ensures fresh(body) && body.id == pointer && body.world == null && body.meshes == []
      ensures body.simulationModel == MassSpring && body.bodyType == Soft && body.mode == Dynamic && !body.isSleeping
      ensures rigidity == 1.0 && !enableAreaPreserving && areaPreservingRate == 0.8 && areaPreservingRigidity == 1.0
      ensures targetPreservationArea == 0.0 && particleSpesificMass == 1.0 && !enableParticleSpesificMass
      ensures !enableAreaStability && !enablePassivationOfInternalSprings && !enableSelfCollisions
      ensures !enableShapeMatching && shapeMatchingRate == 0.4 && !applyShapeMatchingInternals
      ensures !enableShapeMatchingFixedTransform && shapeMatchingFixedPosition == Zero()
      ensures shapeMatchingFixedRotation == 0.0
    {
      body := new Body(pointer);
      rigidity, enableAreaPreserving, areaPreservingRate, areaPreservingRigidity := 1.0, false, 0.8, 1.0;
      targetPreservationArea, particleSpesificMass, enableParticleSpesificMass := 0.0, 1.0, false;
      enableAreaStability, enablePassivationOfInternalSprings, enableSelfCollisions := false, false, false;
      enableShapeMatching, shapeMatchingRate, applyShapeMatchingInternals := false, 0.4, false;
      enableShapeMatchingFixedTransform, shapeMatchingFixedPosition := false, Zero();
      shapeMatchingFixedRotation := 0.0;
      new;
      body.simulationModel := MassSpring;
      body.bodyType := Soft;
    }

    /**
     * SetAreaPreservingEnabled: stores the option; enabling it also takes the
     * total area of the undeformed polygons as the target area, disabling it
     * leaves the target and the meshes alone.
     */
    method SetAreaPreservingEnabled(value: bool, decompose: Decomposer) returns (r: SoftBody)
      requires Seqs.Distinct(body.meshes)
      modifies this`enableAreaPreserving, this`targetPreservationArea
      modifies (set m | m in body.meshes)`subConvexPolygons, (set m | m in body.meshes)`subConvexPolygonsNeedsUpdate
      ensures r == this && enableAreaPreserving == value
      ensures value ==> targetPreservationArea == MeshAreas(body.meshes, InitialPolygonsArea)
      ensures !value ==> targetPreservationArea == old(targetPreservationArea) && unchanged(set m | m in body.meshes)
    {
      enableAreaPreserving := value;
      if value {
        var area := body.GetTotalArea(InitialPolygonsArea, decompose);
        label summed:
        targetPreservationArea := area;
        SumFramed@summed(MeshSum(body.meshes, MeshArea(InitialPolygonsArea)));
      }
      return this;
    }

    /** SetShapeMatchingEnabled: stores the option; internal particles take part unless `withoutInternals`. */
    method SetShapeMatchingEnabled(value: bool, withoutInternals: bool) returns (r: SoftBody)
      modifies this`enableShapeMatching, this`applyShapeMatchingInternals
      ensures r == this && enableShapeMatching == value && applyShapeMatchingInternals == !withoutInternals
    {
      enableShapeMatching := value;
      applyShapeMatchingInternals := !withoutInternals;
      return this;
    }

    /** GetMass: the particle-specific mass exactly when that option is on, else the body's mass. */
    function GetMass(): (r: real)
      reads this`enableParticleSpesificMass, this`particleSpesificMass, body`mass
      ensures enableParticleSpesificMass ==> r == particleSpesificMass
      ensures !enableParticleSpesificMass ==> r == body.mass
    {
      if enableParticleSpesificMass then particleSpesificMass else body.mass
    }

    /** The area PreserveAreas aims at: the target area times the rate. */
    function TargetArea(): real
      reads this`targetPreservationArea, this`areaPreservingRate
    {
      targetPreservationArea * areaPreservingRate
    }

    /** A static or sleeping body is left alone by Update. */
    predicate Held()
      reads body`mode, body`isSleeping
    {
      body.mode == Static || body.isSleeping
    }

    /** The time scale of a step: the body's own when enabled, else the world's, else 1. */
    function TimeScale(): real
      reads body`enableBodySpecificTimeScale, body`bodySpecificTimeScale, body`world, body.world
    {
      if body.enableBodySpecificTimeScale then body.bodySpecificTimeScale
      else if body.world != null then body.world.timeScale
      else 1.0
    }

    /** The displacement gravity adds to every integrated particle: the body's mass times the world's gravity times ts. */
    function GravityStep(): Vec
      requires body.world != null
      reads body`mass, body`world, body.world, body`enableBodySpecificTimeScale, body`bodySpecificTimeScale
    {
      Scale(Scale(body.world.gravity, body.mass), TimeScale())
    }

    /** With passivation of internal springs on, an internal particle is not integrated. */
    predicate Passive(p: Particle)
      reads this`enablePassivationOfInternalSprings, p`isInternal
    {
      enablePassivationOfInternalSprings && p.isInternal
    }

    /** The particles of the closed polygons of the meshes. */
    function ClosedParticles(): set<Particle>
      reads body`meshes, (set m | m in body.meshes)`closedPolygons
    {
      ClosedParticlesOf(body.meshes)
    }

    /**
     * Update: a static or sleeping body keeps every particle, its latch and
     * its box. Otherwise every particle that is not passive takes one
     * Integrated step (its force consumed, its previous position the one it
     * left), a passive one keeps its state; then, with area preservation on,
     * PreserveAreas pushes the closed polygons' particles, and the box is
     * recomputed.
     */
    method Update(num: Numerics, decompose: Decomposer)
      requires body.Wired() && OwnPolygons(body.meshes, decompose)
      requires Held() || body.world != null
      modifies body.MeshParticles()`globalPosition, body.MeshParticles()`prevGlobalPosition
      modifies body.MeshParticles()`force, body.MeshParticles()`aabbNeedsUpdate, body.MeshParticles()`position
      modifies ClosedParticles()`globalPosition
      modifies body`inertiaNeedsUpdate, body`circumferenceNeedsUpdate, body`isSleeping, body`aabb
      modifies body`circumference, this`enableAreaStability
      modifies (set m | m in body.meshes)`subConvexPolygons, (set m | m in body.meshes)`subConvexPolygonsNeedsUpdate
      ensures old(Held()) ==> unchanged(body.MeshParticles()) && unchanged(ClosedParticles()) && unchanged(body)
      ensures old(Held()) ==> enableAreaStability == old(enableAreaStability)
      ensures !old(Held()) ==>
                forall p :: p in old(body.MeshParticles()) ==>
                  var k := old(Next(KineticsOf(p), Passive(p), body.airFriction, GravityStep()));
                  p.prevGlobalPosition == k.prevGlobalPosition && p.force == k.force
      ensures !old(Held()) && !enableAreaPreserving ==>
                forall p :: p in old(body.MeshParticles()) ==>
                  KineticsOf(p) == old(Next(KineticsOf(p), Passive(p), body.airFriction, GravityStep()))
      ensures !old(Held()) && !enableAreaPreserving ==> enableAreaStability == old(enableAreaStability)
      ensures old(enableAreaStability) ==> enableAreaStability
      ensures !old(Held()) ==> body.Boxed() && !body.isSleeping
    {
      if body.mode == Static {
        return;
      }
      if body.isSleeping {
        return;
      }
      AdvanceBoxed(num, decompose, body.airFriction, GravityStep());
    }

    /** The step of Update for a body that is neither static nor asleep: Advance, then the box. */
    method AdvanceBoxed(num: Numerics, decompose: Decomposer, airFriction: real, gravityStep: Vec)
      requires body.Wired() && OwnPolygons(body.meshes, decompose) && !body.isSleeping
      modifies body.MeshParticles()`globalPosition, body.MeshParticles()`prevGlobalPosition
      modifies body.MeshParticles()`force, body.MeshParticles()`aabbNeedsUpdate, body.MeshParticles()`position
      modifies ClosedParticles()`globalPosition
      modifies body`inertiaNeedsUpdate, body`circumferenceNeedsUpdate, body`isSleeping, body`aabb
      modifies body`circumference, this`enableAreaStability
      modifies (set m | m in body.meshes)`subConvexPolygons, (set m | m in body.meshes)`subConvexPolygonsNeedsUpdate
      ensures forall p :: p in old(body.MeshParticles()) ==>
                var k := old(Next(KineticsOf(p), Passive(p), airFriction, gravityStep));
                p.prevGlobalPosition == k.prevGlobalPosition && p.force == k.force
      ensures !enableAreaPreserving ==>
                forall p :: p in old(body.MeshParticles()) ==>
                  KineticsOf(p) == old(Next(KineticsOf(p), Passive(p), airFriction, gravityStep))
      ensures !enableAreaPreserving ==> enableAreaStability == old(enableAreaStability)
      ensures old(enableAreaStability) ==> enableAreaStability
      ensures body.Boxed() && !body.isSleeping
    {
      Advance(num, decompose, airFriction, gravityStep);
      label advanced:
      body.UpdateAABB();
      forall p | p in old(body.MeshParticles())
        ensures KineticsOf(p) == old@advanced(KineticsOf(p))
      {
      }
    }

    /** The step of Update for a body that is neither static nor asleep, up to its box. */
    method Advance(num: Numerics, decompose: Decomposer, airFriction: real, gravityStep: Vec)
      requires body.Wired() && OwnPolygons(body.meshes, decompose) && !body.isSleeping
      modifies body.MeshParticles()`globalPosition, body.MeshParticles()`prevGlobalPosition
      modifies body.MeshParticles()`force, body.MeshParticles()`aabbNeedsUpdate, body.MeshParticles()`position
      modifies ClosedParticles()`globalPosition
      modifies body`inertiaNeedsUpdate, body`circumferenceNeedsUpdate, body`isSleeping
      modifies body`circumference, this`enableAreaStability
      modifies (set m | m in body.meshes)`subConvexPolygons, (set m | m in body.meshes)`subConvexPolygonsNeedsUpdate
      ensures forall p :: p in old(body.MeshParticles()) ==>
                var k := old(Next(KineticsOf(p), Passive(p), airFriction, gravityStep));
                p.prevGlobalPosition == k.prevGlobalPosition && p.force == k.force
      ensures !enableAreaPreserving ==>
                forall p :: p in old(body.MeshParticles()) ==>
                  KineticsOf(p) == old(Next(KineticsOf(p), Passive(p), airFriction, gravityStep))
      ensures !enableAreaPreserving ==> enableAreaStability == old(enableAreaStability)
      ensures old(enableAreaStability) ==> enableAreaStability
      ensures !body.isSleeping
    {
      IntegrateAll(airFriction, gravityStep);
      if enableAreaPreserving {
        PreserveAreasLatched(num, decompose);
      }
    }

    /** PreserveAreas as Update sees it: the stability latch is never cleared, and no particle's previous position or force changes. */
    method PreserveAreasLatched(num: Numerics, decompose: Decomposer)
      requires body.Wired() && OwnPolygons(body.meshes, decompose)
      modifies this`enableAreaStability, body`circumference, body`circumferenceNeedsUpdate
      modifies (set m | m in body.meshes)`subConvexPolygons, (set m | m in body.meshes)`subConvexPolygonsNeedsUpdate
      modifies ClosedParticles()`globalPosition
      ensures old(enableAreaStability) ==> enableAreaStability
      ensures forall p :: p in body.MeshParticles() ==>
                p.prevGlobalPosition == old(p.prevGlobalPosition) && p.force == old(p.force)
    {
      ghost var springy, deltas, g0 := PreserveAreas(num, decompose);
      if old(enableAreaStability) {
        LatchNeverCleared(deltas);
      }
    }

    /** The integration loop of Update over the meshes. */
    method IntegrateAll(airFriction: real, gravityStep: Vec)
      requires body.Wired()
      modifies body.MeshParticles()`globalPosition, body.MeshParticles()`prevGlobalPosition
      modifies body.MeshParticles()`force, body.MeshParticles()`aabbNeedsUpdate, body.MeshParticles()`position
      modifies body`inertiaNeedsUpdate, body`circumferenceNeedsUpdate, body`isSleeping
      ensures forall p :: p in body.MeshParticles() ==>
                KineticsOf(p) == Next(old(KineticsOf(p)), Passive(p), airFriction, gravityStep)
      ensures body.isSleeping ==> old(body.isSleeping)
    {
      var ms := body.meshes;
      for i := 0 to |ms|
        invariant forall j, p :: 0 <= j < i && p in ms[j].particles ==>
                    KineticsOf(p) == Next(old(KineticsOf(p)), Passive(p), airFriction, gravityStep)
        invariant forall j, p :: i <= j < |ms| && p in ms[j].particles ==> KineticsOf(p) == old(KineticsOf(p))
        invariant body.isSleeping ==> old(body.isSleeping)
      {
        IntegrateMesh(ms[i], airFriction, gravityStep);
      }
    }

    /** The integration loop of Update over one mesh's particles. */
    method IntegrateMesh(m: Mesh, airFriction: real, gravityStep: Vec)
      requires m in body.meshes && body.Wired()
      modifies (set p | p in m.particles)`globalPosition, (set p | p in m.particles)`prevGlobalPosition
      modifies (set p | p in m.particles)`force, (set p | p in m.particles)`aabbNeedsUpdate
      modifies (set p | p in m.particles)`position
      modifies body`inertiaNeedsUpdate, body`circumferenceNeedsUpdate, body`isSleeping
      ensures forall p :: p in m.particles ==>
                KineticsOf(p) == Next(old(KineticsOf(p)), Passive(p), airFriction, gravityStep)
      ensures body.isSleeping ==> old(body.isSleeping)
    {
      var ps := m.particles;
      for n := 0 to |ps|
        invariant forall j :: 0 <= j < n ==>
                    KineticsOf(ps[j]) == Next(old(KineticsOf(ps[j])), Passive(ps[j]), airFriction, gravityStep)
        invariant forall j :: n <= j < |ps| ==> KineticsOf(ps[j]) == old(KineticsOf(ps[j]))
        invariant body.isSleeping ==> old(body.isSleeping)
      {
        var particle := ps[n];
        if Passive(particle) {
          continue;
        }
        Integrate(particle, airFriction, gravityStep);
      }
    }

    /**
     * PreserveAreas: for each mesh with springs, in order, the deficit of its
     * polygon area against the target (times the rate) goes through the
     * stability latch, and the resulting pressure pushes the particles of
     * each of its closed polygons outwards. `springy` lists the meshes with
     * springs and `deltas` their deficits before the latch, each measured on
     * the positions the call started from (no mesh moves another's
     * particles); mesh k is inflated from those positions with the pressure
     * of its deficit after the latch of the deficits before it, over the
     * circumference as cached once the first mesh asked for it. Meshes
     * without springs, and everything while the latch stays unset, keep
     * their positions.
     */
    method PreserveAreas(num: Numerics, decompose: Decomposer)
      returns (ghost springy: seq<Mesh>, ghost deltas: seq<real>, ghost g0: map<Particle, Vec>)
      requires body.Wired() && OwnPolygons(body.meshes, decompose)
      modifies this`enableAreaStability, body`circumference, body`circumferenceNeedsUpdate
      modifies (set m | m in body.meshes)`subConvexPolygons, (set m | m in body.meshes)`subConvexPolygonsNeedsUpdate
      modifies ClosedParticles()`globalPosition
      ensures springy == Springy(body.meshes) && |deltas| == |springy|
      ensures forall k :: 0 <= k < |springy| ==> springy[k] in body.meshes && springy[k].springs != []
      ensures g0 == old(PositionsOf(ClosedParticles()))
      ensures enableAreaStability == Latch(old(enableAreaStability), deltas)
      ensures forall k :: 0 <= k < |springy| ==>
                deltas[k] == TargetArea() - old(SumPolygonAreas(Decomposed(springy[k], decompose), false))
      ensures forall k, p :: 0 <= k < |springy| && p in PolygonParticles(springy[k].closedPolygons) ==>
                p.globalPosition ==
                  Inflated(num, g0, springy[k].closedPolygons,
                           Pressure(Stabilized(Latch(old(enableAreaStability), deltas[..k]), deltas[k]).0,
                                    body.circumference, areaPreservingRigidity),
                           old(TimeScale()), |springy[k].closedPolygons|)[p]
      ensures forall m, p :: m in body.meshes && m.springs == [] && p in PolygonParticles(m.closedPolygons) ==>
                p in g0 && p.globalPosition == g0[p]
      ensures !enableAreaStability ==> forall p :: p in g0 ==> p.globalPosition == g0[p]
    {
      var ts := TimeScale();
      var ms := body.meshes;
      g0 := PositionsOf(ClosedParticles());
      ghost var s := AreaStart(enableAreaStability, g0, PositionsOf(body.MeshParticles()),
                               map m | m in ms :: SumPolygonAreas(Decomposed(m, decompose), false),
                               map m | m in ms :: Decomposed(m, decompose));
      body.SeparateMeshes();
      ghost var r := AreaPass(num, decompose, ms, ts, s);
      springy, deltas := r.springy, r.deltas;
    }

    /**
     * The pass of PreserveAreas over the meshes, from the record `s` of the
     * state it starts from: what each mesh with springs has become, and
     * that the others have kept their positions.
     */
    method AreaPass(num: Numerics, decompose: Decomposer, ms: seq<Mesh>, ts: real, ghost s: AreaStart)
      returns (ghost r: AreaRun)
      requires ms == body.meshes && Seqs.Distinct(ms) && Separate(ms) && OwnPolygons(ms, decompose)
      requires s.g0 == PositionsOf(ClosedParticles()) && s.all == PositionsOf(body.MeshParticles())
      requires s.areas == (map m | m in body.meshes :: SumPolygonAreas(Decomposed(m, decompose), false))
      requires s.d0 == (map m | m in body.meshes :: Decomposed(m, decompose))
      requires s.stable == enableAreaStability
      modifies this`enableAreaStability, body`circumference, body`circumferenceNeedsUpdate
      modifies (set m | m in ms)`subConvexPolygons, (set m | m in ms)`subConvexPolygonsNeedsUpdate
      modifies ClosedParticlesOf(ms)`globalPosition
      ensures AreasListed(ms, s, r) && AreasPushed(num, ms, ts, s, r)
    {
      StartHolds(num, decompose, ts, s);
      r := AreaLoop(num, decompose, ms, ts, s);
      AreasDone(num, decompose, ms, ts, s, r);
      AreasDonePushed(num, decompose, ms, ts, s, r);
    }

    /** The loop of PreserveAreas: the meshes in order, against the record `s` of the state it started from. */
    method AreaLoop(num: Numerics, decompose: Decomposer, ms: seq<Mesh>, ts: real, ghost s: AreaStart)
      returns (ghost r: AreaRun)
      requires ms == body.meshes && Seqs.Distinct(ms) && Separate(ms) && Snapshot(ms, s)
      requires AreaInv(num, decompose, ms, 0, ts, s, AreaRun([], [], []))
      modifies this`enableAreaStability, body`circumference, body`circumferenceNeedsUpdate
      modifies (set m | m in ms)`subConvexPolygons, (set m | m in ms)`subConvexPolygonsNeedsUpdate
      modifies ClosedParticlesOf(ms)`globalPosition
      ensures Snapshot(ms, s) && AreaInv(num, decompose, ms, |ms|, ts, s, r)
    {
      r := AreaRun([], [], []);
      for i := 0 to |ms|
        invariant AreaHeld(num, decompose, ms, i, ts, s, r)
      {
        if |ms[i].springs| == 0 {
          SkipSpringless(num, decompose, ms, i, ts, s, r);
          continue;
        }
        r := AreaStep(num, decompose, ms, i, ts, s, r);
      }
    }

    /** The record PreserveAreas takes as it starts, and the empty run, meet the invariant of its loop. */
    lemma StartHolds(num: Numerics, decompose: Decomposer, ts: real, s: AreaStart)
      requires OwnPolygons(body.meshes, decompose)
      requires s.g0 == PositionsOf(ClosedParticles()) && s.all == PositionsOf(body.MeshParticles())
      requires s.areas == (map m | m in body.meshes :: SumPolygonAreas(Decomposed(m, decompose), false))
      requires s.d0 == (map m | m in body.meshes :: Decomposed(m, decompose))
      requires s.stable == enableAreaStability
      ensures Snapshot(body.meshes, s) && AreaInv(num, decompose, body.meshes, 0, ts, s, AreaRun([], [], []))
    {
      var ms := body.meshes;
      forall m | m in ms
        ensures forall poly, p :: poly in s.d0[m] && p in poly ==> p in m.particles && p in s.all
        ensures s.areas[m] == AreaSum(ListsAt(s.all, s.d0[m]))
      {
        forall poly, p | poly in s.d0[m] && p in poly
          ensures p in m.particles && p in s.all
        {
          assert p in PolygonParticles(s.d0[m]);
        }
        ListsAtHere(s.d0[m], s.all);
      }
      forall p | p in s.g0
        ensures p in s.all
      {
        var m, poly :| m in ms && poly in m.closedPolygons && p in poly;
        assert p in PolygonParticles(m.closedPolygons);
      }
      assert ms[..0] == [];
    }

    /**
     * After PreserveAreas's loop: the meshes with springs, in order, each
     * with its deficit against the recorded area; the latch over those
     * deficits; and, unlatched, no closed polygon has moved.
     */
    ghost predicate AreasListed(ms: seq<Mesh>, s: AreaStart, r: AreaRun)
      reads this, (set m | m in ms)`springs, s.g0.Keys
    {
      && r.springy == Springy(ms) && |r.deltas| == |r.springy|
      && (forall k :: 0 <= k < |r.springy| ==> r.springy[k] in ms && r.springy[k].springs != [])
      && enableAreaStability == Latch(s.stable, r.deltas)
      && (forall k :: 0 <= k < |r.springy| ==>
            r.springy[k] in s.areas && r.deltas[k] == TargetArea() - s.areas[r.springy[k]])
      && (!enableAreaStability ==> forall p :: p in s.g0 ==> p.globalPosition == s.g0[p])
    }

    /**
     * After PreserveAreas's loop: each mesh with springs is inflated from
     * the recorded positions by the pressure of its own deficit under the
     * latch before it; the closed polygons of a mesh without springs stay.
     */
    ghost predicate AreasPushed(num: Numerics, ms: seq<Mesh>, ts: real, s: AreaStart, r: AreaRun)
      reads this, body, (set m | m in ms)`springs, (set m | m in ms)`closedPolygons, (set m | m in r.springy)`closedPolygons
      reads s.g0.Keys
    {
      && |r.deltas| == |r.springy|
      && (forall k :: 0 <= k < |r.springy| ==> PolygonParticles(r.springy[k].closedPolygons) <= s.g0.Keys)
      && (forall k, p :: 0 <= k < |r.springy| && p in PolygonParticles(r.springy[k].closedPolygons) ==>
            p.globalPosition ==
              Inflated(num, s.g0, r.springy[k].closedPolygons,
                       Pressure(Stabilized(Latch(s.stable, r.deltas[..k]), r.deltas[k]).0,
                                body.circumference, areaPreservingRigidity),
                       ts, |r.springy[k].closedPolygons|)[p])
      && (forall m, p :: m in ms && m.springs == [] && p in PolygonParticles(m.closedPolygons) ==>
            p in s.g0 && p.globalPosition == s.g0[p])
    }

    /** The invariant of PreserveAreas's loop after the last mesh, spelled out: the meshes with springs, their deficits and the latch. */
    lemma AreasDone(num: Numerics, decompose: Decomposer, ms: seq<Mesh>, ts: real, s: AreaStart, r: AreaRun)
      requires Snapshot(ms, s) && AreaInv(num, decompose, ms, |ms|, ts, s, r)
      ensures AreasListed(ms, s, r)
    {
      assert ms[..|ms|] == ms;
      forall k | 0 <= k < |r.springy|
        ensures r.springy[k] in ms
      {
        assert ms[r.idx[k]] in ms;
      }
    }

    /** The invariant of PreserveAreas's loop after the last mesh, spelled out: where the closed polygons' particles are. */
    lemma AreasDonePushed(num: Numerics, decompose: Decomposer, ms: seq<Mesh>, ts: real, s: AreaStart, r: AreaRun)
      requires Snapshot(ms, s) && AreaInv(num, decompose, ms, |ms|, ts, s, r)
      ensures AreasPushed(num, ms, ts, s, r)
    {
      forall m, p | m in ms && m.springs == [] && p in PolygonParticles(m.closedPolygons)
        ensures p in s.g0 && p.globalPosition == s.g0[p]
      {
        var j :| 0 <= j < |ms| && ms[j] == m;
      }
    }

    /** The latch is the latch of the deficits met; unlatched, no closed polygon has moved; the circumference is cached once asked for. */
    ghost predicate LatchUpTo(s: AreaStart, r: AreaRun)
      reads this, body, s.g0.Keys
    {
      && enableAreaStability == Latch(s.stable, r.deltas)
      && (!enableAreaStability ==> forall p :: p in s.g0 ==> p.globalPosition == s.g0[p])
      && (r.springy != [] ==> !body.circumferenceNeedsUpdate)
    }

    /** Each deficit met is the target area times the rate less the recorded area of its mesh. */
    ghost predicate Deficits(s: AreaStart, r: AreaRun)
      reads this`targetPreservationArea, this`areaPreservingRate
    {
      forall k :: 0 <= k < |r.springy| && k < |r.deltas| ==>
        r.springy[k] in s.areas && r.deltas[k] == TargetArea() - s.areas[r.springy[k]]
    }

    /** Each mesh met is inflated from the recorded positions by the pressure of its own deficit, under the latch before it. */
    ghost predicate Pushed(num: Numerics, ts: real, s: AreaStart, r: AreaRun)
      reads this, body, (set m | m in r.springy), s.g0.Keys
    {
      forall k :: 0 <= k < |r.springy| && k < |r.deltas| ==>
        && PolygonParticles(r.springy[k].closedPolygons) <= s.g0.Keys
        && forall p :: p in PolygonParticles(r.springy[k].closedPolygons) ==>
             p.globalPosition ==
               Inflated(num, s.g0, r.springy[k].closedPolygons,
                        Pressure(Stabilized(Latch(s.stable, r.deltas[..k]), r.deltas[k]).0,
                                 body.circumference, areaPreservingRigidity),
                        ts, |r.springy[k].closedPolygons|)[p]
    }

    /**
     * PreserveAreas after the meshes ms[..i], against the record `s` of the
     * state it started from, with `r` the meshes with springs met so far.
     */
    ghost predicate AreaInv(num: Numerics, decompose: Decomposer, ms: seq<Mesh>, i: nat, ts: real, s: AreaStart, r: AreaRun)
      reads this, body, (set m | m in ms), (set m | m in r.springy), s.all.Keys, s.g0.Keys
    {
      && RunShape(ms, i, r) && AreasPlaced(ms, decompose, s) && AreasUntouched(ms, i, s)
      && LatchUpTo(s, r) && Deficits(s, r) && Pushed(num, ts, s, r)
    }

    /** AreaInv, with the meshes separate and the record `s` covering them. */
    ghost predicate AreaHeld(num: Numerics, decompose: Decomposer, ms: seq<Mesh>, i: nat, ts: real, s: AreaStart, r: AreaRun)
      reads this, body, (set m | m in ms), (set m | m in r.springy), s.all.Keys, s.g0.Keys
    {
      Separate(ms) && Snapshot(ms, s) && AreaInv(num, decompose, ms, i, ts, s, r)
    }

    /** A mesh without springs is passed over: nothing changes. */
    lemma SkipSpringless(num: Numerics, decompose: Decomposer, ms: seq<Mesh>, i: nat, ts: real, s: AreaStart, r: AreaRun)
      requires i < |ms| && ms[i].springs == [] && AreaInv(num, decompose, ms, i, ts, s, r)
      ensures AreaInv(num, decompose, ms, i + 1, ts, s, r)
    {
      assert ms[..i + 1][..i] == ms[..i];
    }

    /** One turn of PreserveAreas on mesh ms[i], which has springs: its deficit is added to the run. */
    method AreaStep(num: Numerics, decompose: Decomposer, ms: seq<Mesh>, i: nat, ts: real, ghost s: AreaStart,
                    ghost r: AreaRun)
      returns (ghost r': AreaRun)
      requires ms == body.meshes && Seqs.Distinct(ms) && i < |ms| && ms[i].springs != []
      requires AreaHeld(num, decompose, ms, i, ts, s, r)
      modifies this`enableAreaStability, body`circumference, body`circumferenceNeedsUpdate
      modifies (set m | m in ms)`subConvexPolygons, (set m | m in ms)`subConvexPolygonsNeedsUpdate
      modifies PolygonParticles(ms[i].closedPolygons)`globalPosition
      // AreaHeld as one fact, as TurnKept gives it
      ensures AreaHeld(num, decompose, ms, i + 1, ts, s, r') == true
    {
      ghost var delta := TargetArea() - SumPolygonAreas(Decomposed(ms[i], decompose), false);
      ghost var c := AreaScope(MeshScope(this, num, decompose, ms[i], ts, s.g0, s.g0.Keys, delta), ms, i, s, r);
      StepReady(ms, decompose, i, s);
      ghost var found := PreserveMesh(num, decompose, ms[i], ts, s.g0, s.g0.Keys);
      assert found == delta;
      r' := RunGrown(r, ms[i], i, delta);
      TurnKept(c);
    }

    /**
     * One mesh of PreserveAreas: its deficit (the target area minus the area
     * of its sub-convex polygons, refreshed first) passes through the latch,
     * and the pressure from it and the body's circumference inflates the
     * mesh's closed polygons in turn, from the positions `g`. The deficit
     * before the latch is returned. The circumference is cached afterwards,
     * and kept if it already was; every mesh keeps its refreshed sub-convex
     * polygons.
     */
    method PreserveMesh(num: Numerics, decompose: Decomposer, mesh: Mesh, ts: real, ghost g: map<Particle, Vec>,
                        ghost others: set<Particle>)
      returns (ghost delta: real)
      requires mesh in body.meshes && Seqs.Distinct(body.meshes)
      requires forall p :: p in PolygonParticles(mesh.closedPolygons) ==> p in g && g[p] == p.globalPosition
      modifies this`enableAreaStability, body`circumference, body`circumferenceNeedsUpdate
      modifies (set m | m in body.meshes)`subConvexPolygons, (set m | m in body.meshes)`subConvexPolygonsNeedsUpdate
      modifies PolygonParticles(mesh.closedPolygons)`globalPosition
      ensures delta == TargetArea() - old(SumPolygonAreas(Decomposed(mesh, decompose), false))
      ensures MeshPreserved(MeshScope(this, num, decompose, mesh, ts, g, others, delta))
    {
      var pressure;
      pressure, delta := MeshPressure(num, decompose, mesh);
      InflateMesh(num, mesh.closedPolygons, pressure, ts, g);
    }

    /**
     * The first half of PreserveMesh: the deficit of the mesh, the latch it
     * passes through, and the pressure from what the latch lets through and
     * the circumference. The deficit before the latch is returned.
     */
    method MeshPressure(num: Numerics, decompose: Decomposer, mesh: Mesh) returns (pressure: real, ghost delta: real)
      requires mesh in body.meshes && Seqs.Distinct(body.meshes)
      modifies this`enableAreaStability, body`circumference, body`circumferenceNeedsUpdate
      modifies (set m | m in body.meshes)`subConvexPolygons, (set m | m in body.meshes)`subConvexPolygonsNeedsUpdate
      ensures delta == TargetArea() - old(SumPolygonAreas(Decomposed(mesh, decompose), false)) && delta <= TargetArea()
      ensures enableAreaStability == Stabilized(old(enableAreaStability), delta).1
      ensures pressure == Pressure(Stabilized(old(enableAreaStability), delta).0, body.circumference, areaPreservingRigidity)
      ensures !body.circumferenceNeedsUpdate
      ensures !old(body.circumferenceNeedsUpdate) ==> body.circumference == old(body.circumference)
      ensures forall m :: m in body.meshes ==> Decomposed(m, decompose) == old(Decomposed(m, decompose))
    {
      var deltaArea, circumference := MeasureMesh(num, decompose, mesh);
      delta := deltaArea;
      if !enableAreaStability {
        if deltaArea < 0.0 {
          deltaArea := 0.0;
        } else {
          enableAreaStability := true;
        }
      }
      pressure := Pressure(deltaArea, circumference, areaPreservingRigidity);
    }

    /**
     * The measures of one mesh in PreserveAreas: the deficit of its polygon
     * area (on the sub-convex polygons, refreshed if stale) against the
     * target times the rate, and the body's circumference, cached from then
     * on. Every mesh keeps its refreshed sub-convex polygons.
     */
    method MeasureMesh(num: Numerics, decompose: Decomposer, mesh: Mesh) returns (deltaArea: real, circumference: real)
      requires mesh in body.meshes && Seqs.Distinct(body.meshes)
      modifies body`circumference, body`circumferenceNeedsUpdate
      modifies (set m | m in body.meshes)`subConvexPolygons, (set m | m in body.meshes)`subConvexPolygonsNeedsUpdate
      ensures deltaArea == TargetArea() - old(SumPolygonAreas(Decomposed(mesh, decompose), false))
      ensures deltaArea <= TargetArea()
      ensures circumference == body.circumference && !body.circumferenceNeedsUpdate
      ensures !old(body.circumferenceNeedsUpdate) ==> circumference == old(body.circumference)
      ensures forall m :: m in body.meshes ==> Decomposed(m, decompose) == old(Decomposed(m, decompose))
    {
      var currentMeshesArea := PolygonsAreaOf(decompose, mesh);
      circumference := CircumferenceOf(num, decompose);
      deltaArea := TargetArea() - currentMeshesArea;
    }

    /** Body.GetCircumference as PreserveAreas calls it: cached from then on, and refreshing meshes keeps what Decomposed gives. */
    method CircumferenceOf(num: Numerics, decompose: Decomposer) returns (r: real)
      requires Seqs.Distinct(body.meshes)
      modifies body`circumference, body`circumferenceNeedsUpdate
      modifies (set m | m in body.meshes)`subConvexPolygons, (set m | m in body.meshes)`subConvexPolygonsNeedsUpdate
      ensures r == body.circumference && !body.circumferenceNeedsUpdate
      ensures !old(body.circumferenceNeedsUpdate) ==> r == old(body.circumference)
      ensures forall m :: m in old(body.meshes) ==> Decomposed(m, decompose) == old(Decomposed(m, decompose))
    {
      r := body.GetCircumference(num, decompose);
      forall m | m in old(body.meshes)
        ensures Decomposed(m, decompose) == old(Decomposed(m, decompose))
      {
        assert m.closedPolygons == old(m.closedPolygons);
        if old(body.circumferenceNeedsUpdate) {
          assert Refreshed(m, decompose);
        } else {
          assert unchanged(m);
        }
      }
    }

    /** Mesh.GetPolygonsArea as PreserveAreas calls it: the area of the refreshed sub-convex polygons. */
    static method PolygonsAreaOf(decompose: Decomposer, mesh: Mesh) returns (r: real)
      modifies mesh`subConvexPolygons, mesh`subConvexPolygonsNeedsUpdate
      ensures mesh.subConvexPolygons == old(Decomposed(mesh, decompose)) && !mesh.subConvexPolygonsNeedsUpdate
      ensures r == old(SumPolygonAreas(Decomposed(mesh, decompose), false)) && 0.0 <= r
    {
      ghost var polys := Decomposed(mesh, decompose);
      ghost var area := SumPolygonAreas(polys, false);
      r := mesh.GetPolygonsArea(decompose);
      assert mesh.subConvexPolygons == polys;
      assert unchanged(PolygonParticles(polys));
    }

    /** The polygon loop of PreserveAreas for one mesh: every closed polygon in turn. `pos` holds their positions on entry. */
    static method InflateMesh(num: Numerics, polygons: seq<seq<Particle>>, pressure: real, ts: real,
                              ghost pos: map<Particle, Vec>)
      requires PolygonParticles(polygons) <= pos.Keys
      requires forall p :: p in PolygonParticles(polygons) ==> pos[p] == p.globalPosition
      modifies PolygonParticles(polygons)`globalPosition
      ensures forall p :: p in PolygonParticles(polygons) ==>
                p.globalPosition == Inflated(num, pos, polygons, pressure, ts, |polygons|)[p]
      ensures pressure == 0.0 ==>
                forall p :: p in PolygonParticles(polygons) ==> p.globalPosition == old(p.globalPosition)
    {
      for i := 0 to |polygons|
        invariant forall p :: p in PolygonParticles(polygons) ==>
                    p.globalPosition == Inflated(num, pos, polygons, pressure, ts, i)[p]
      {
        ghost var q := Inflated(num, pos, polygons, pressure, ts, i);
        assert forall p :: p in polygons[i] ==> p in PolygonParticles(polygons);
        ApplyPressure(num, polygons[i], pressure, ts, q);
      }
      if pressure == 0.0 {
        InflatedAtZero(num, pos, polygons, ts, |polygons|);
      }
    }

    /**
     * The volume forces of one polygon, all computed before any is applied,
     * then each applied to the chord from the previous to the next vertex at
     * its midpoint. A chord of zero length is skipped (the engine divides by
     * its length). `pos` holds the polygon's positions on entry.
     */
    static method ApplyPressure(num: Numerics, polygon: seq<Particle>, pressure: real, ts: real,
                                ghost pos: map<Particle, Vec>)
      requires forall p :: p in polygon ==> p in pos && pos[p] == p.globalPosition
      modifies (set p | p in polygon)`globalPosition
      ensures forall p :: p in polygon ==> p.globalPosition == Pressurized(num, pos, polygon, pressure, ts)[p]
      ensures pressure == 0.0 ==> forall p :: p in polygon ==> p.globalPosition == old(p.globalPosition)
    {
      var volumeForces := VolumeForces(num, polygon, pressure, ts);
      ghost var forces := PolygonForces(num, pos, polygon, pressure, ts);
      assert volumeForces == forces;
      var size := |polygon|;
      for n := 0 to size
        invariant forall p :: p in polygon ==> p.globalPosition == PressureFold(num, pos, polygon, forces, n)[p]
      {
        PressureTurn(num, polygon, volumeForces, n, PressureFold(num, pos, polygon, forces, n));
      }
      if pressure == 0.0 {
        PressureFoldOfZero(num, pos, polygon, forces, size);
      }
    }

    /** One turn of the second polygon loop: the force of vertex n applied to the chord around it. */
    static method PressureTurn(num: Numerics, polygon: seq<Particle>, volumeForces: seq<Vec>, n: nat,
                               ghost cur: map<Particle, Vec>)
      requires n < |polygon| == |volumeForces|
      requires forall p :: p in polygon ==> p in cur && cur[p] == p.globalPosition
      modifies (set p | p in polygon)`globalPosition
      ensures forall p :: p in polygon ==> p.globalPosition == PressureStep(num, cur, polygon, volumeForces, n)[p]
    {
      var size := |polygon|;
      var pp := polygon[Before(n, size)];
      var np := polygon[After(n, size)];
      var centerPos := Scale(Add(np.globalPosition, pp.globalPosition), 0.5);
      if Length(num, Sub(np.globalPosition, pp.globalPosition)) != 0.0 {
        ApplyForceToParticleSegment(num, pp, np, volumeForces[n], centerPos);
      }
    }

    /** The first loop of the polygon step: one volume force per vertex, from its neighbours' positions. */
    static method VolumeForces(num: Numerics, polygon: seq<Particle>, pressure: real, ts: real)
      returns (forces: seq<Vec>)
      ensures |forces| == |polygon|
      ensures forall n :: 0 <= n < |polygon| ==> forces[n] == VolumeForceAt(num, polygon, n, pressure, ts)
    {
      var size := |polygon|;
      forces := [];
      for n := 0 to size
        invariant |forces| == n
        invariant forall j :: 0 <= j < n ==> forces[j] == VolumeForceAt(num, polygon, j, pressure, ts)
      {
        var pp := polygon[Before(n, size)];
        var np := polygon[After(n, size)];
        var vec := Sub(np.globalPosition, pp.globalPosition);
        var force := Scale(Scale(Normalized(num, Perpendicular(vec)), pressure), ts);
        assert force == VolumeForceAt(num, polygon, n, pressure, ts);
        forces := forces + [force];
      }
    }

    /** One integrated particle (the body of Update's inner loop). */
    method Integrate(p: Particle, airFriction: real, gravityStep: Vec)
      requires p.OwnerBody() == body
      modifies p`globalPosition, p`prevGlobalPosition, p`force, p`aabbNeedsUpdate, p`position
      modifies body`inertiaNeedsUpdate, body`circumferenceNeedsUpdate, body`isSleeping
      ensures KineticsOf(p) == Integrated(old(KineticsOf(p)), airFriction, gravityStep)
      ensures p.position == old(p.position) && !body.isSleeping
    {
      var vel := Sub(p.globalPosition, p.prevGlobalPosition);
      p.SetPreviousGlobalPosition(p.globalPosition);
      p.ApplyForce(Sub(vel, Scale(vel, airFriction)));
      p.ApplyForce(gravityStep);
      p.ApplyForce(p.force);
      p.SetForce(Zero());
    }

    // ------------------------------------------------------------ shape matching

    /**
     * GetAveragePositionAndRotation: a single particle gives its own global
     * position and no turn; otherwise the mean global position and the
     * AverageRotation of the particles.
     */
    static method GetAveragePositionAndRotation(num: Numerics, particles: seq<Particle>) returns (position: Vec, rotation: real)
      requires particles != []
      ensures |particles| == 1 ==> position == particles[0].globalPosition && rotation == 0.0
      ensures |particles| != 1 ==> position == Mean(Globals(particles)) &&
                                   rotation == AverageRotation(num, Globals(particles), Locals(particles))
    {
      if |particles| == 1 {
        return particles[0].globalPosition, 0.0;
      }
      var averagePosition, localCenterPosition := Centers(particles);
      var averageCosA, averageSinA := AlignmentTotals(num, particles, averagePosition, localCenterPosition);
      var n := |particles| as real;
      averageCosA := averageCosA / n;
      averageSinA := averageSinA / n;
      var aSin := SafeAsin(num, averageSinA);
      rotation := num.atan2(aSin, averageCosA);
      position := averagePosition;
    }

    /** The first loop of GetAveragePositionAndRotation: the mean global and the mean local position. */
    static method Centers(particles: seq<Particle>) returns (averagePosition: Vec, localCenterPosition: Vec)
      requires particles != []
      ensures averagePosition == Mean(Globals(particles)) && localCenterPosition == Mean(Locals(particles))
    {
      ghost var globals, locals := Globals(particles), Locals(particles);
      averagePosition, localCenterPosition := Zero(), Zero();
      for i := 0 to |particles|
        invariant averagePosition == Sum(globals[..i]) && localCenterPosition == Sum(locals[..i])
      {
        SumSnoc(globals, i);
        SumSnoc(locals, i);
        averagePosition := Add(averagePosition, particles[i].globalPosition);
        localCenterPosition := Add(localCenterPosition, particles[i].position);
      }
      assert globals[..|particles|] == globals && locals[..|particles|] == locals;
      averagePosition := DivScalar(averagePosition, |particles| as real);
      localCenterPosition := DivScalar(localCenterPosition, |particles| as real);
    }

    /** The second loop of GetAveragePositionAndRotation: the sums of the particles' alignment cosines and sines. */
    static method AlignmentTotals(num: Numerics, particles: seq<Particle>, averagePosition: Vec, localCenterPosition: Vec)
      returns (averageCosA: real, averageSinA: real)
      ensures Turn(averageCosA, averageSinA) ==
              AlignmentSums(num, Globals(particles), Locals(particles), averagePosition, localCenterPosition)
    {
      ghost var globals, locals := Globals(particles), Locals(particles);
      averageCosA, averageSinA := 0.0, 0.0;
      for i := 0 to |particles|
        invariant averageCosA == AlignmentSums(num, globals[..i], locals[..i], averagePosition, localCenterPosition).cos
        invariant averageSinA == AlignmentSums(num, globals[..i], locals[..i], averagePosition, localCenterPosition).sin
      {
        averageCosA, averageSinA := AlignmentStep(num, particles, i, averagePosition, localCenterPosition, averageCosA, averageSinA);
      }
      assert globals[..|particles|] == globals && locals[..|particles|] == locals;
    }

    /** One turn of the second loop of GetAveragePositionAndRotation: particle i's cosine and sine added to the sums. */
    static method AlignmentStep(num: Numerics, particles: seq<Particle>, i: nat, averagePosition: Vec, localCenterPosition: Vec,
                                cosSum: real, sinSum: real)
      returns (cosSum': real, sinSum': real)
      requires i < |particles|
      requires Turn(cosSum, sinSum) ==
               AlignmentSums(num, Globals(particles)[..i], Locals(particles)[..i], averagePosition, localCenterPosition)
      ensures Turn(cosSum', sinSum') ==
              AlignmentSums(num, Globals(particles)[..i + 1], Locals(particles)[..i + 1], averagePosition, localCenterPosition)
    {
      ghost var globals, locals := Globals(particles), Locals(particles);
      AlignmentSumsSnoc(num, globals, locals, averagePosition, localCenterPosition, i);
      assert particles[i].globalPosition == globals[i] && particles[i].position == locals[i];
      var originalPos := Sub(particles[i].position, localCenterPosition);
      var relativePos := Sub(particles[i].globalPosition, averagePosition);
      var turn := Alignment(num, relativePos, originalPos);
      cosSum', sinSum' := cosSum + turn.cos, sinSum + turn.sin;
    }

    /** The mean local position of the particles, as ApplyShapeMatching accumulates it. */
    static method LocalCenter(particles: seq<Particle>) returns (center: Vec)
      requires particles != []
      ensures center == Mean(Locals(particles))
    {
      ghost var locals := Locals(particles);
      center := Zero();
      for i := 0 to |particles|
        invariant center == Sum(locals[..i])
      {
        SumSnoc(locals, i);
        center := Add(center, particles[i].position);
      }
      assert locals[..|particles|] == locals;
      center := DivScalar(center, |particles| as real);
    }

    /** The closed polygons of a polyline mesh appended one after the other. */
    static method JoinPolygons(polygons: seq<seq<Particle>>) returns (particles: seq<Particle>)
      ensures particles == Joined(polygons)
    {
      particles := [];
      for n := 0 to |polygons|
        invariant particles == Joined(polygons[..n])
      {
        assert polygons[..n + 1][..n] == polygons[..n];
        particles := particles + polygons[n];
      }
      assert polygons[..|polygons|] == polygons;
    }

    /**
     * ApplyShapeMatching: every mesh with at least two particles pulls its
     * matched particles (the closed polygons' for a polyline mesh, else all)
     * towards the undeformed shape at the matched pose; a smaller mesh is
     * left alone.
     */
    method ApplyShapeMatching(num: Numerics)
      requires body.Wired()
      requires forall m :: m in body.meshes ==> PolygonParticles(m.closedPolygons) <= set p | p in m.particles
      modifies (set m | m in body.meshes)`collisionBehavior, (set m | m in body.meshes)`collisionBehaviorNeedsUpdate
      modifies body.MeshParticles()`globalPosition, body.MeshParticles()`aabbNeedsUpdate, body.MeshParticles()`position
      modifies body`inertiaNeedsUpdate, body`circumferenceNeedsUpdate
      ensures forall m, p :: m in old(body.meshes) && |m.particles| < 2 && p in old(m.particles) ==>
                p.globalPosition == old(p.globalPosition)
      ensures forall p :: p in old(body.MeshParticles()) ==> p.position == old(p.position)
      ensures forall m :: m in body.meshes ==> Matched(num, m, old(PositionsOf(body.MeshParticles())), TimeScale())
    {
      var ts := TimeScale();
      ghost var g0 := PositionsOf(body.MeshParticles());
      body.SeparateMeshes();
      MatchAll(num, body.meshes, ts, g0);
      assert g0 == old(PositionsOf(body.MeshParticles())) && ts == TimeScale();
      forall m | m in body.meshes
        ensures Matched(num, m, g0, ts)
      {
        var j :| 0 <= j < |body.meshes| && body.meshes[j] == m;
      }
    }

    /** ApplyShapeMatching's loop over the meshes `ms`, whose particles start at `g0`. */
    method MatchAll(num: Numerics, ms: seq<Mesh>, ts: real, ghost g0: map<Particle, Vec>)
      requires ms == body.meshes && body.Wired() && Separate(ms)
      requires forall m :: m in ms ==> PolygonParticles(m.closedPolygons) <= set p | p in m.particles
      requires forall p :: p in body.MeshParticles() ==> p in g0 && p.globalPosition == g0[p]
      modifies (set m | m in ms)`collisionBehavior, (set m | m in ms)`collisionBehaviorNeedsUpdate
      modifies body.MeshParticles()`globalPosition, body.MeshParticles()`aabbNeedsUpdate, body.MeshParticles()`position
      modifies body`inertiaNeedsUpdate, body`circumferenceNeedsUpdate
      ensures MatchedUpTo(num, ms, |ms|, ts, g0)
      ensures forall j, p :: 0 <= j < |ms| && p in ms[j].particles ==> p.position == old(p.position)
      ensures forall j {:trigger Matched(num, ms[j], g0, ts)} :: 0 <= j < |ms| ==> Matched(num, ms[j], g0, ts)
    {
      for i := 0 to |ms|
        invariant MatchedUpTo(num, ms, i, ts, g0)
        invariant forall j, p :: 0 <= j < |ms| && p in ms[j].particles ==> p.position == old(p.position)
        invariant forall j {:trigger Matched(num, ms[j], g0, ts)} :: 0 <= j < i ==> Matched(num, ms[j], g0, ts)
      {
        MatchStep(num, ms, i, ms[i], ts, g0);
      }
    }

    /**
     * Mesh ms[i] is none of the other meshes, and shares no particle with
     * them nor with the matched lists of the meshes before it.
     */
    static lemma StepApart(ms: seq<Mesh>, i: nat)
      requires i < |ms| && Seqs.Distinct(ms) && Separate(ms)
      requires forall m :: m in ms ==> PolygonParticles(m.closedPolygons) <= set p | p in m.particles
      ensures forall j :: 0 <= j < |ms| && j != i ==> ms[j] != ms[i]
      ensures forall j, p :: 0 <= j < |ms| && j != i && p in ms[j].particles ==> p !in ms[i].particles
      ensures forall j, p :: 0 <= j < i && p in MatchList(ms[j], ms[j].collisionBehavior) ==> p !in ms[i].particles
    {
      forall j | 0 <= j < i {
        MatchListWithin(ms[j]);
      }
    }

    /**
     * The particles of the meshes ms[i..], and of every mesh of `ms` with
     * fewer than two particles, are still at `g0`.
     */
    ghost predicate MatchedUpTo(num: Numerics, ms: seq<Mesh>, i: nat, ts: real, g0: map<Particle, Vec>)
      reads (set m | m in ms)`particles, (set m | m in ms, p | p in m.particles :: p)`globalPosition
    {
      forall j, p :: 0 <= j < |ms| && (i <= j || |ms[j].particles| < 2) && p in ms[j].particles ==>
        p in g0 && p.globalPosition == g0[p]
    }

    /** Mesh m, if it has two particles or more and a nonempty matched list, has that list shape-matched from the positions g0. */
    ghost predicate Matched(num: Numerics, m: Mesh, g0: map<Particle, Vec>, ts: real)
      reads this`enableShapeMatchingFixedTransform, this`shapeMatchingFixedPosition, this`shapeMatchingFixedRotation
      reads this`shapeMatchingRate, m`collisionBehavior, m`closedPolygons, m`particles
      reads (set p | p in MatchList(m, m.collisionBehavior))`globalPosition
      reads (set p | p in MatchList(m, m.collisionBehavior))`position
    {
      var ps := MatchList(m, m.collisionBehavior);
      2 <= |m.particles| && ps != [] ==>
        ShapeMatched(num, ps, g0, enableShapeMatchingFixedTransform, shapeMatchingFixedPosition,
                     shapeMatchingFixedRotation, shapeMatchingRate, ts)
    }

    /** One turn of ApplyShapeMatching's loop: mesh i is matched, the meshes before it stay matched and the particles of the later ones stay at `g0`. */
    method MatchStep(num: Numerics, ms: seq<Mesh>, i: nat, mesh: Mesh, ts: real, ghost g0: map<Particle, Vec>)
      requires i < |ms| && mesh == ms[i] && ms == body.meshes && body.Wired() && Separate(ms)
      requires forall m :: m in ms ==> PolygonParticles(m.closedPolygons) <= set p | p in m.particles
      requires MatchedUpTo(num, ms, i, ts, g0)
      requires forall j {:trigger Matched(num, ms[j], g0, ts)} :: 0 <= j < i ==> Matched(num, ms[j], g0, ts)
      modifies mesh`collisionBehavior, mesh`collisionBehaviorNeedsUpdate
      modifies (set p | p in mesh.particles)`globalPosition, (set p | p in mesh.particles)`aabbNeedsUpdate
      modifies (set p | p in mesh.particles)`position, body`inertiaNeedsUpdate, body`circumferenceNeedsUpdate
      ensures MatchedUpTo(num, ms, i + 1, ts, g0)
      ensures forall p :: p in old(mesh.particles) ==> p.position == old(p.position)
      ensures forall j {:trigger Matched(num, ms[j], g0, ts)} :: 0 <= j < i + 1 ==> Matched(num, ms[j], g0, ts)
    {
      StepApart(ms, i);
      label before:
      MatchMesh(num, mesh, ts, g0);
      MatchTurnKept@before(MatchScope(this, num, ms, i, g0, ts));
    }

    /** The matched list of a mesh whose closed polygons are made of its own particles holds only its own particles. */
    static lemma MatchListWithin(m: Mesh)
      requires PolygonParticles(m.closedPolygons) <= set p | p in m.particles
      ensures forall b, p :: p in MatchList(m, b) ==> p in m.particles
    {
    }

    /**
     * One mesh of ApplyShapeMatching, whose particles are at the positions
     * `g`. With fewer than two particles nothing changes. Otherwise the
     * collision behaviour is brought up to date and, when the matched list is
     * not empty, the force loop pulls its particles towards MatchPose of the
     * list as it was.
     */
    method MatchMesh(num: Numerics, mesh: Mesh, ts: real, ghost g: map<Particle, Vec>)
      requires mesh in body.meshes && body.Wired()
      requires PolygonParticles(mesh.closedPolygons) <= set p | p in mesh.particles
      requires forall p :: p in mesh.particles ==> p in g && p.globalPosition == g[p]
      modifies mesh`collisionBehavior, mesh`collisionBehaviorNeedsUpdate
      modifies (set p | p in mesh.particles)`globalPosition, (set p | p in mesh.particles)`aabbNeedsUpdate
      modifies (set p | p in mesh.particles)`position, body`inertiaNeedsUpdate, body`circumferenceNeedsUpdate
      ensures |mesh.particles| < 2 ==> forall p :: p in old(mesh.particles) ==> p.globalPosition == old(p.globalPosition)
      ensures forall p :: p in old(mesh.particles) ==> p.position == old(p.position)
      ensures 2 <= |mesh.particles| ==>
                mesh.collisionBehavior ==
                  old(if mesh.collisionBehaviorNeedsUpdate then mesh.DerivedBehavior() else mesh.collisionBehavior)
      ensures Matched(num, mesh, g, ts)
    {
      if |mesh.particles| < 2 {
        return;
      }
      var behavior := mesh.GetCollisionBehavior();
      MatchBehaving(num, mesh, behavior, ts, g);
    }

    /** MatchMesh once the collision behaviour is known: the matched list is gathered and, unless empty, matched. */
    method MatchBehaving(num: Numerics, mesh: Mesh, behavior: CollisionBehavior, ts: real, ghost g: map<Particle, Vec>)
      requires mesh in body.meshes && body.Wired()
      requires PolygonParticles(mesh.closedPolygons) <= set p | p in mesh.particles
      requires forall p :: p in mesh.particles ==> p in g && p.globalPosition == g[p]
      modifies (set p | p in mesh.particles)`globalPosition, (set p | p in mesh.particles)`aabbNeedsUpdate
      modifies (set p | p in mesh.particles)`position, body`inertiaNeedsUpdate, body`circumferenceNeedsUpdate
      ensures forall p :: p in mesh.particles ==> p.position == old(p.position)
      ensures var ps := MatchList(mesh, behavior);
              ps != [] ==>
                ShapeMatched(num, ps, g, enableShapeMatchingFixedTransform, shapeMatchingFixedPosition,
                             shapeMatchingFixedRotation, shapeMatchingRate, ts)
    {
      var particles := GatherMatchList(mesh, behavior);
      if particles == [] {
        return;
      }
      MatchParticles(num, particles, ts, g);
    }

    /** The list ApplyShapeMatching matches: the joined closed polygons of a polyline mesh, else all its particles. */
    static method GatherMatchList(mesh: Mesh, behavior: CollisionBehavior) returns (particles: seq<Particle>)
      requires PolygonParticles(mesh.closedPolygons) <= set p | p in mesh.particles
      ensures particles == MatchList(mesh, behavior)
      ensures forall p :: p in particles ==> p in mesh.particles
    {
      MatchListWithin(mesh);
      if behavior == Polyline {
        particles := JoinPolygons(mesh.closedPolygons);
      } else {
        particles := mesh.particles;
      }
    }

    /**
     * The pose and pull of one mesh's matched particles, which are at the
     * positions `g`: the force loop pulls them towards MatchPose of the list
     * as it was.
     */
    method MatchParticles(num: Numerics, particles: seq<Particle>, ts: real, ghost g: map<Particle, Vec>)
      requires particles != [] && forall p :: p in particles ==> p.OwnerBody() == body
      requires forall p :: p in particles ==> p in g && p.globalPosition == g[p]
      modifies (set p | p in particles)`globalPosition, (set p | p in particles)`aabbNeedsUpdate
      modifies (set p | p in particles)`position, body`inertiaNeedsUpdate, body`circumferenceNeedsUpdate
      ensures forall p :: p in particles ==> p.position == old(p.position)
      ensures ShapeMatched(num, particles, g, enableShapeMatchingFixedTransform,
                           shapeMatchingFixedPosition, shapeMatchingFixedRotation, shapeMatchingRate, ts)
    {
      var pose := MatchingPose(num, particles);
      GlobalsFromMap(particles, g);
      ghost var locals := Locals(particles);
      PullParticles(num, particles, pose, shapeMatchingRate, ts, g);
      assert Locals(particles) == locals;
    }

    /** The centre, position and rotation ApplyShapeMatching matches a nonempty particle list to. */
    method MatchingPose(num: Numerics, particles: seq<Particle>) returns (pose: Pose)
      requires particles != []
      ensures pose == MatchPose(num, Globals(particles), Locals(particles), enableShapeMatchingFixedTransform,
                                shapeMatchingFixedPosition, shapeMatchingFixedRotation)
    {
      var localCenterPosition := LocalCenter(particles);
      var averagePosition, averageRotation;
      if enableShapeMatchingFixedTransform {
        localCenterPosition := Zero();
        averagePosition := shapeMatchingFixedPosition;
        averageRotation := shapeMatchingFixedRotation;
      } else {
        averagePosition, averageRotation := GetAveragePositionAndRotation(num, particles);
      }
      pose := Pose(localCenterPosition, averagePosition, averageRotation);
    }

    /** The force loop of ApplyShapeMatching: each listed particle in turn is pulled towards its target. */
    method PullParticles(num: Numerics, particles: seq<Particle>, pose: Pose, rate: real, ts: real,
                         ghost g: map<Particle, Vec>)
      requires forall p :: p in particles ==> p.OwnerBody() == body
      requires forall p :: p in particles ==> p in g && p.globalPosition == g[p]
      modifies (set p | p in particles)`globalPosition, (set p | p in particles)`aabbNeedsUpdate
      modifies (set p | p in particles)`position, body`inertiaNeedsUpdate, body`circumferenceNeedsUpdate
      ensures forall p :: p in particles ==> p.position == old(p.position)
      ensures PulledAll(num, particles, g, pose, rate, ts)
    {
      ghost var locals := Locals(particles);
      for n := 0 to |particles|
        invariant forall p :: p in particles ==> p.position == old(p.position)
        invariant forall i :: 0 <= i < |particles| ==> particles[i].position == locals[i]
        invariant forall p :: p in particles ==>
                    p.globalPosition == PullFold(num, g, particles, locals, pose, rate, ts, n)[p]
      {
        PullStep(num, particles, n, pose, rate, ts, g, locals);
      }
      assert Locals(particles) == locals;
    }

    /** One turn of the force loop: particle n is pulled, from where the turns before it left it. */
    method PullStep(num: Numerics, particles: seq<Particle>, n: nat, pose: Pose, rate: real, ts: real,
                    ghost g: map<Particle, Vec>, ghost locals: seq<Vec>)
      requires n < |particles| == |locals| && locals[n] == particles[n].position
      requires forall p :: p in particles ==> p.OwnerBody() == body && p in g
      requires forall p :: p in particles ==> p.globalPosition == PullFold(num, g, particles, locals, pose, rate, ts, n)[p]
      modifies {particles[n]}`globalPosition, {particles[n]}`aabbNeedsUpdate, {particles[n]}`position
      modifies body`inertiaNeedsUpdate, body`circumferenceNeedsUpdate
      ensures forall p :: p in particles ==> p.position == old(p.position)
      ensures forall p :: p in particles ==> p.globalPosition == PullFold(num, g, particles, locals, pose, rate, ts, n + 1)[p]
    {
      ghost var before := PullFold(num, g, particles, locals, pose, rate, ts, n);
      Pull(num, particles[n], pose, rate, ts);
      forall p | p in particles
        ensures p.globalPosition == before[particles[n] := Pulled(num, before[particles[n]], locals[n], pose, rate, ts)][p]
      {
        if p != particles[n] {
          assert p.globalPosition == old(p.globalPosition);
        }
      }
    }

    /** One particle of the force loop: it moves by the pull towards its target. */
    method Pull(num: Numerics, particle: Particle, pose: Pose, rate: real, ts: real)
      requires particle.OwnerBody() == body
      modifies particle`globalPosition, particle`aabbNeedsUpdate, particle`position
      modifies body`inertiaNeedsUpdate, body`circumferenceNeedsUpdate
      ensures particle.position == old(particle.position)
      ensures particle.globalPosition == Pulled(num, old(particle.globalPosition), particle.position, pose, rate, ts)
    {
      var targetPos := Add(Rotated(num, Sub(particle.position, pose.center), -pose.rotation), pose.position);
      var distance := Sub(targetPos, particle.globalPosition);
      var distanceUnit := Normalized(num, distance);
      var distanceLen := Length(num, distance);
      var forceLinear := PullMagnitude(distanceLen, rate, ts);
      var force := Scale(distanceUnit, forceLinear);
      particle.ApplyForce(force);
    }
  }
}
