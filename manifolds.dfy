/**
 * QManifold: the contacts found between two bodies in one step and how they
 * are resolved. Solve pushes the two contact partners apart along the
 * contact normals, registers contacts with area bodies and asks both bodies
 * whether the collision may be resolved; SolveFrictionAndVelocities corrects
 * the velocities of a bouncing pair and applies friction.
 *
 * The forces are not applied to the bodies here: each operation returns,
 * per contact, the pushes the engine makes, in the order it makes them. A
 * rigid push names the contact point `at`; the engine applies it as
 * QRigidBody::ApplyForce(force, at - position, true). A segment push is
 * QParticle::ApplyForceToParticleSegment and a particle push
 * QParticle::ApplyForce.
 *
 * The collision hooks (QBody::OnCollision and the collision event
 * listener) are given together as `accept`: the verdict of the hook and of
 * the listener on one collision record, AND-ed. QBody::ComputeFriction is
 * given as `friction`, a function of the values it reads.
 */
module Manifolds {
  import opened Vectors
  import opened Engine
  import AreaBodies

  // ================================================================ keys

  /** QManifoldKey: the two bodies of a manifold, the lower pointer first. */
  datatype ManifoldKey = ManifoldKey(bodyA: Body, bodyB: Body)

  function Key(a: Body, b: Body): (k: ManifoldKey)
    ensures (k.bodyA, k.bodyB) == (a, b) || (k.bodyA, k.bodyB) == (b, a)
    ensures a.id != b.id ==> k.bodyA.id < k.bodyB.id
  {
    var (first, second) := Canonical(a, b);
    ManifoldKey(first, second)
  }

  /** Both argument orders give the same key. */
  lemma KeyIgnoresOrder(a: Body, b: Body)
    requires Comparable(a, b)
    ensures Key(a, b) == Key(b, a)
  {
    CanonicalSymmetric(a, b);
  }

  /** operator< on keys: by the first pointer, then by the second. */
  predicate KeyLess(k1: ManifoldKey, k2: ManifoldKey)
  {
    k1.bodyA.id < k2.bodyA.id || (k1.bodyA == k2.bodyA && k1.bodyB.id < k2.bodyB.id)
  }

  /** The pointers of corresponding bodies of two keys compare as the bodies do. */
  predicate Distinguishable(k1: ManifoldKey, k2: ManifoldKey)
  {
    Comparable(k1.bodyA, k2.bodyA) && Comparable(k1.bodyB, k2.bodyB)
  }

  /** The key order is a strict order ... */
  lemma KeyOrderStrict(k1: ManifoldKey, k2: ManifoldKey, k3: ManifoldKey)
    ensures !KeyLess(k1, k1)
    ensures KeyLess(k1, k2) ==> !KeyLess(k2, k1)
    ensures KeyLess(k1, k2) && KeyLess(k2, k3) ==> KeyLess(k1, k3)
  {
  }

  /** ... and a total one on keys whose pointers tell their bodies apart, so a std::map can hold manifolds. */
  lemma KeyOrderTotal(k1: ManifoldKey, k2: ManifoldKey)
    requires Distinguishable(k1, k2)
    ensures k1 == k2 || KeyLess(k1, k2) || KeyLess(k2, k1)
  {
  }

  // ================================================================ contacts

  /**
   * A contact as the manifold holds it: the incident particle, the contact
   * point, the normal, the penetration, the reference particles (one, or
   * the two ends of the edge that was hit) and whether a response was given.
   */
  datatype Contact = Contact(particle: Particle, position: Vec, normal: Vec, penetration: real,
                             referenceParticles: seq<Particle>, solved: bool)

  /** The particles a contact names. */
  function Named(c: Contact): set<Particle>
  {
    {c.particle} + set p | p in c.referenceParticles
  }

  /** The particles whose owners name the contact's bodies: the incident particle and the first reference particle. */
  function Ends(c: Contact): set<Particle>
  {
    {c.particle} + (if c.referenceParticles == [] then {} else {c.referenceParticles[0]})
  }

  /** The owner mesh of a particle, as a set. */
  function MeshOf(p: Particle): set<Mesh>
    reads p
  {
    if p.ownerMesh == null then {} else {p.ownerMesh}
  }

  /** The owner meshes of those particles. */
  function Meshes(c: Contact): set<Mesh>
    reads Ends(c)
  {
    MeshOf(c.particle) + (if c.referenceParticles == [] then {} else MeshOf(c.referenceParticles[0]))
  }

  /** The source dereferences the owner mesh and body of the incident particle and of the first reference particle. */
  predicate Owned(c: Contact)
    reads Ends(c), Meshes(c)
  {
    c.referenceParticles != [] && c.referenceParticles[0].OwnerBody() != null && c.particle.OwnerBody() != null
  }

  /** The body of the first reference particle. */
  function Reference(c: Contact): Body
    requires Owned(c)
    reads Ends(c), Meshes(c)
  {
    c.referenceParticles[0].OwnerBody()
  }

  /** The body of the incident particle. */
  function Incident(c: Contact): Body
    requires Owned(c)
    reads Ends(c), Meshes(c)
  {
    c.particle.OwnerBody()
  }

  /** The two bodies of an owned contact, as a footprint. */
  function Bodies(c: Contact): set<Body>
    reads Ends(c), Meshes(c)
  {
    if Owned(c) then {Reference(c), Incident(c)} else {}
  }

  /** The particles whose owners a list of contacts names. */
  function EndsAll(cs: seq<Contact>): (r: set<Particle>)
    ensures forall k :: 0 <= k < |cs| ==> Ends(cs[k]) <= r
  {
    if cs == [] then {} else EndsAll(cs[..|cs| - 1]) + Ends(cs[|cs| - 1])
  }

  /** Their owner meshes. */
  function MeshesAll(cs: seq<Contact>): (r: set<Mesh>)
    reads EndsAll(cs)
    ensures forall k :: 0 <= k < |cs| ==> Meshes(cs[k]) <= r
  {
    if cs == [] then {} else MeshesAll(cs[..|cs| - 1]) + Meshes(cs[|cs| - 1])
  }

  /** The bodies of the owned contacts of a list. */
  function BodiesAll(cs: seq<Contact>): (r: set<Body>)
    reads EndsAll(cs), MeshesAll(cs)
    ensures forall k :: 0 <= k < |cs| ==> Bodies(cs[k]) <= r
  {
    if cs == [] then {} else BodiesAll(cs[..|cs| - 1]) + Bodies(cs[|cs| - 1])
  }

  /** Every contact of the list is owned. */
  predicate AllOwned(cs: seq<Contact>)
    reads EndsAll(cs), MeshesAll(cs)
  {
    forall k :: 0 <= k < |cs| ==> Owned(cs[k])
  }

  /**
   * The partners of one contact as Solve sees them: the reference and
   * incident bodies with their body types, masses and kinematic flags, and
   * whether each may be pushed by the other. Solve and the friction pass
   * change none of these.
   */
  datatype Touch = Touch(ref: Body, inc: Body, refType: BodyType, incType: BodyType,
                         refMass: real, incMass: real, refKinematic: bool, incKinematic: bool,
                         refPushable: bool, incPushable: bool)

  /** The touch of an owned contact. */
  function TouchOf(c: Contact): (t: Touch)
    requires Owned(c)
    reads Ends(c), Meshes(c), Bodies(c)
    ensures t.ref == Reference(c) && t.inc == Incident(c)
    ensures t.refType == t.ref.bodyType && t.incType == t.inc.bodyType
    ensures t.refMass == t.ref.mass && t.incMass == t.inc.mass
    ensures t.refKinematic == t.ref.isKinematic && t.incKinematic == t.inc.isKinematic
    ensures t.refPushable <==> t.inc.CanGiveCollisionResponseTo(t.ref)
    ensures t.incPushable <==> t.ref.CanGiveCollisionResponseTo(t.inc)
  {
    var ref, inc := Reference(c), Incident(c);
    Touch(ref, inc, ref.bodyType, inc.bodyType, ref.mass, inc.mass, ref.isKinematic, inc.isKinematic,
          inc.CanGiveCollisionResponseTo(ref), ref.CanGiveCollisionResponseTo(inc))
  }

  /** The touches of a list of owned contacts. */
  function Touches(cs: seq<Contact>): (r: seq<Touch>)
    requires AllOwned(cs)
    reads EndsAll(cs), MeshesAll(cs), BodiesAll(cs)
    ensures |r| == |cs| && forall k :: 0 <= k < |cs| ==> r[k] == TouchOf(cs[k])
  {
    if cs == [] then [] else Touches(cs[..|cs| - 1]) + [TouchOf(cs[|cs| - 1])]
  }

  /** The per-step displacement of each particle. */
  function Steps(ps: seq<Particle>): (r: seq<Vec>)
    reads set p | p in ps
    ensures |r| == |ps|
    ensures forall i :: 0 <= i < |ps| ==> r[i] == Sub(ps[i].globalPosition, ps[i].prevGlobalPosition)
  {
    if ps == [] then []
    else Steps(ps[..|ps| - 1]) + [Sub(ps[|ps| - 1].globalPosition, ps[|ps| - 1].prevGlobalPosition)]
  }

  /**
   * GetRelativeVelocity for the contact's reference body `ref` and incident
   * body `inc`: the velocity of the reference side at the arm `rRef` minus
   * that of the incident side at `rInc`. A rigid body moves by its position
   * and turns by its rotation since the last step; a soft reference moves by
   * the mean step of its reference particles and a soft incident by the
   * step of its particle, neither turning.
   */
  function RelativeVelocity(c: Contact, ref: Body, inc: Body, rRef: Vec, rInc: Vec): Vec
    requires c.referenceParticles != []
    reads ref, inc, Named(c)
  {
    var velRef := if ref.simulationModel == RigidBody then Sub(ref.position, ref.prevPosition)
                  else Mean(Steps(c.referenceParticles));
    var angRef := if ref.simulationModel == RigidBody then ref.rotation - ref.prevRotation else 0.0;
    var velInc := if inc.simulationModel == RigidBody then Sub(inc.position, inc.prevPosition)
                  else Sub(c.particle.globalPosition, c.particle.prevGlobalPosition);
    var angInc := if inc.simulationModel == RigidBody then inc.rotation - inc.prevRotation else 0.0;
    Sub(Add(velRef, Scale(Perpendicular(rRef), -angRef)), Add(velInc, Scale(Perpendicular(rInc), -angInc)))
  }

  /**
   * GetRelativeVelocity as the engine computes it: the soft reference side
   * sums the steps of its reference particles one by one before dividing
   * by their number.
   */
  method GetRelativeVelocity(c: Contact, ref: Body, inc: Body, rRef: Vec, rInc: Vec) returns (v: Vec)
    requires c.referenceParticles != []
    ensures v == RelativeVelocity(c, ref, inc, rRef, rInc)
  {
    var velRef := Zero();
    var velInc := Zero();
    var angRef := 0.0;
    var angInc := 0.0;
    if ref.simulationModel == RigidBody {
      angRef := ref.rotation - ref.prevRotation;
      velRef := Sub(ref.position, ref.prevPosition);
    } else {
      var ps := c.referenceParticles;
      ghost var steps := Steps(ps);
      var i := 0;
      while i < |ps|
        invariant 0 <= i <= |ps|
        invariant velRef == Sum(steps[..i])
      {
        SumSnoc(steps, i);
        velRef := Add(velRef, Sub(ps[i].globalPosition, ps[i].prevGlobalPosition));
        i := i + 1;
      }
      assert steps[..|ps|] == steps;
      velRef := DivScalar(velRef, |ps| as real);
    }
    if inc.simulationModel == RigidBody {
      angInc := inc.rotation - inc.prevRotation;
      velInc := Sub(inc.position, inc.prevPosition);
    } else {
      velInc := Sub(c.particle.globalPosition, c.particle.prevGlobalPosition);
    }
    v := Sub(Add(velRef, Scale(Perpendicular(rRef), -angRef)), Add(velInc, Scale(Perpendicular(rInc), -angInc)));
  }

  /** Has every participant of a contact stayed where it was in the last step? */
  predicate AtRest(c: Contact, ref: Body, inc: Body)
    reads ref, inc, Named(c)
  {
    (ref.simulationModel == RigidBody ==> ref.position == ref.prevPosition && ref.rotation == ref.prevRotation) &&
    (ref.simulationModel != RigidBody ==>
       forall i :: 0 <= i < |c.referenceParticles| ==>
         c.referenceParticles[i].globalPosition == c.referenceParticles[i].prevGlobalPosition) &&
    (inc.simulationModel == RigidBody ==> inc.position == inc.prevPosition && inc.rotation == inc.prevRotation) &&
    (inc.simulationModel != RigidBody ==> c.particle.globalPosition == c.particle.prevGlobalPosition)
  }

  /** Partners that did not move have no relative velocity, whatever the arms. */
  lemma RestingPairHasNoRelativeVelocity(c: Contact, ref: Body, inc: Body, rRef: Vec, rInc: Vec)
    requires c.referenceParticles != [] && AtRest(c, ref, inc)
    ensures RelativeVelocity(c, ref, inc, rRef, rInc) == Zero()
  {
    if ref.simulationModel != RigidBody {
      var steps := Steps(c.referenceParticles);
      assert forall i :: 0 <= i < |steps| ==> steps[i] == Zero();
      MeanOfEqual(steps, Zero());
    }
    NoTurnIsStill(rRef, if ref.simulationModel == RigidBody then ref.rotation - ref.prevRotation else 0.0);
    NoTurnIsStill(rInc, if inc.simulationModel == RigidBody then inc.rotation - inc.prevRotation else 0.0);
  }

  /** An arm that does not turn contributes nothing. */
  lemma NoTurnIsStill(r: Vec, ang: real)
    requires ang == 0.0
    ensures Scale(Perpendicular(r), -ang) == Zero()
  {
  }

  // ================================================================ the response

  /** The values Solve and SolveFrictionAndVelocities read from the manifold itself. */
  datatype Setup = Setup(restitution: real, invMass: real, oneSide: bool, rigidPair: bool, softPair: bool, count: nat)

  /** How much of the penetration a pair resolves in one step. */
  function Factor(s: Setup): real
  {
    if s.rigidPair then 0.75 else if s.softPair then 0.5 else 1.0
  }

  /** The penetration Solve resolves and stores back: scaled for the pair, and never negative. */
  function Scaled(s: Setup, penetration: real): (r: real)
    ensures 0.0 <= r
    ensures penetration <= 0.0 ==> r == 0.0
    ensures 0.0 < penetration ==> r == penetration * Factor(s)
  {
    var p := if s.rigidPair then penetration * 0.75 else if s.softPair then penetration * 0.5 else penetration;
    if p < 0.0 then 0.0 else p
  }

  /**
   * The response force of one contact: along the normal by the penetration,
   * doubled for a bouncing pair, and shared among the contacts of a rigid pair.
   */
  function Response(s: Setup, normal: Vec, penetration: real): (f: Vec)
    requires s.count > 0
    ensures f == Scale(normal, penetration * (if s.restitution > 0.0 then 2.0 else 1.0) /
                                (if s.rigidPair then s.count as real else 1.0))
  {
    var f := Scale(normal, penetration);
    var f := if s.restitution > 0.0 then Scale(f, 2.0) else f;
    if s.rigidPair then DivScalar(f, s.count as real) else f
  }

  /** A two-sided collision gives each body the share of a force that the other body's mass `otherMass` weighs. */
  function Share(s: Setup, v: Vec, otherMass: real): Vec
  {
    if s.oneSide then v else Scale(v, otherMass * s.invMass)
  }

  /** The shares of the two partners add up to the whole force. */
  lemma SharesAddUp(s: Setup, v: Vec, refMass: real, incMass: real)
    requires !s.oneSide && s.invMass * (refMass + incMass) == 1.0
    ensures Add(Share(s, v, refMass), Share(s, v, incMass)) == v
  {
    assert v.x * (refMass * s.invMass) + v.x * (incMass * s.invMass) == v.x * (s.invMass * (refMass + incMass));
    assert v.y * (refMass * s.invMass) + v.y * (incMass * s.invMass) == v.y * (s.invMass * (refMass + incMass));
  }

  /** A push the engine makes on one side of a contact. */
  datatype Push =
    | RigidPush(body: Body, force: Vec, at: Vec)
    | SegmentPush(a: Particle, b: Particle, force: Vec, from: Vec)
    | ParticlePush(particle: Particle, force: Vec)

  /** A push on the reference side: the rigid body, the edge hit, or the one reference particle. */
  function RefPush(c: Contact, t: Touch, force: Vec, from: Vec): (p: Push)
    requires c.referenceParticles != []
    ensures p.force == force
  {
    if t.refType == Rigid then RigidPush(t.ref, force, c.position)
    else if |c.referenceParticles| == 2 then SegmentPush(c.referenceParticles[0], c.referenceParticles[1], force, from)
    else ParticlePush(c.referenceParticles[0], force)
  }

  /** A push on the incident side: the rigid body or the incident particle. */
  function IncPush(c: Contact, t: Touch, force: Vec): (p: Push)
    ensures p.force == force
  {
    if t.incType == Rigid then RigidPush(t.inc, force, c.position) else ParticlePush(c.particle, force)
  }

  /** The collision record passed to a body's hook and listener. */
  datatype CollisionInfo = CollisionInfo(position: Vec, body: Body, normal: Vec, penetration: real)

  /** Does an area body take part in the contact? */
  predicate InvolvesArea(t: Touch)
  {
    t.refType == Area || t.incType == Area
  }

  /** Do both bodies let the collision at penetration `pen` be resolved? The reference side is told the reversed normal. */
  predicate Accepted(c: Contact, t: Touch, pen: real, accept: (Body, CollisionInfo) -> bool)
  {
    accept(t.ref, CollisionInfo(c.position, t.inc, Neg(c.normal), pen)) &&
    accept(t.inc, CollisionInfo(c.position, t.ref, c.normal, pen))
  }

  /** Is the contact resolved at all (no area body, and both bodies accept)? */
  predicate Proceeds(s: Setup, c: Contact, t: Touch, accept: (Body, CollisionInfo) -> bool)
  {
    !InvolvesArea(t) && Accepted(c, t, Scaled(s, c.penetration), accept)
  }

  /**
   * The pushes Solve makes for a contact with touch `t`: none when it is
   * cancelled; otherwise the reference side gets its share of the reversed
   * response if the incident body may push it, and then the incident side
   * its share of the response if the reference body may push it.
   */
  function SolvePushes(s: Setup, c: Contact, t: Touch, accept: (Body, CollisionInfo) -> bool): seq<Push>
    requires c.referenceParticles != [] && s.count > 0
  {
    if !Proceeds(s, c, t, accept) then []
    else SharedPushes(s, c, t, Response(s, c.normal, Scaled(s, c.penetration)))
  }

  /** The pushes of a contact that proceeds with response `f`: each side that the other may push gets its share. */
  function SharedPushes(s: Setup, c: Contact, t: Touch, f: Vec): seq<Push>
    requires c.referenceParticles != []
  {
    (if t.refPushable then [RefPush(c, t, Share(s, Neg(f), t.incMass), c.position)] else []) +
    (if t.incPushable then [IncPush(c, t, Share(s, f, t.refMass))] else [])
  }

  /** The contact as Solve leaves it: the scaled penetration, and solved once either body may respond. */
  function Resolved(s: Setup, c: Contact, t: Touch, accept: (Body, CollisionInfo) -> bool): Contact
  {
    c.(penetration := Scaled(s, c.penetration),
       solved := c.solved || (Proceeds(s, c, t, accept) && (t.refPushable || t.incPushable)))
  }

  /** A contact becomes solved exactly when Solve pushes something for it. */
  lemma SolvedIffPushed(s: Setup, c: Contact, t: Touch, accept: (Body, CollisionInfo) -> bool)
    requires c.referenceParticles != [] && s.count > 0
    ensures Resolved(s, c, t, accept).solved <==> c.solved || SolvePushes(s, c, t, accept) != []
  {
  }

  /** A contact with an area body is never pushed and does not become solved. */
  lemma AreaContactsArePassive(s: Setup, c: Contact, t: Touch, accept: (Body, CollisionInfo) -> bool)
    requires c.referenceParticles != [] && s.count > 0 && InvolvesArea(t)
    ensures SolvePushes(s, c, t, accept) == []
    ensures Resolved(s, c, t, accept).solved == c.solved
  {
  }

  /** The reverse of a share is the share of the reverse. */
  lemma ShareOfReverse(s: Setup, v: Vec, otherMass: real)
    ensures Share(s, Neg(v), otherMass) == Neg(Share(s, v, otherMass))
  {
    var k := otherMass * s.invMass;
    assert (-v.x) * k == -(v.x * k);
    assert (-v.y) * k == -(v.y * k);
  }

  /**
   * When both sides are pushed in a two-sided collision whose inverse mass
   * is that of the two partners, the incident push minus the reference
   * push is the whole response: the response is shared, not duplicated.
   */
  lemma ResponseIsShared(s: Setup, c: Contact, t: Touch, accept: (Body, CollisionInfo) -> bool)
    requires c.referenceParticles != [] && s.count > 0
    requires !s.oneSide && s.invMass * (t.refMass + t.incMass) == 1.0
    requires |SolvePushes(s, c, t, accept)| == 2
    ensures var ps := SolvePushes(s, c, t, accept);
            Sub(ps[1].force, ps[0].force) == Response(s, c.normal, Scaled(s, c.penetration))
  {
    var f := Response(s, c.normal, Scaled(s, c.penetration));
    PushedWhenTwo(s, c, t, accept, f);
    SharedPushesApart(s, c, t, f);
  }

  /** A contact with two pushes proceeds, so its pushes are the shared pushes of its response. */
  lemma PushedWhenTwo(s: Setup, c: Contact, t: Touch, accept: (Body, CollisionInfo) -> bool, f: Vec)
    requires c.referenceParticles != [] && s.count > 0
    requires f == Response(s, c.normal, Scaled(s, c.penetration))
    requires |SolvePushes(s, c, t, accept)| == 2
    ensures SolvePushes(s, c, t, accept) == SharedPushes(s, c, t, f)
  {
  }

  /** For any response `f` pushed on both sides, the incident push minus the reference push is `f`. */
  lemma SharedPushesApart(s: Setup, c: Contact, t: Touch, f: Vec)
    requires c.referenceParticles != []
    requires !s.oneSide && s.invMass * (t.refMass + t.incMass) == 1.0
    requires |SharedPushes(s, c, t, f)| == 2
    ensures var ps := SharedPushes(s, c, t, f);
            Sub(ps[1].force, ps[0].force) == f
  {
    PushedForces(s, c, t, f);
    SharesApart(s, f, t.refMass, t.incMass);
  }

  /** When both sides are pushed, the reference side gets its share of the reversed response and the incident side its share of the response. */
  lemma PushedForces(s: Setup, c: Contact, t: Touch, f: Vec)
    requires c.referenceParticles != []
    requires |SharedPushes(s, c, t, f)| == 2
    ensures var ps := SharedPushes(s, c, t, f);
            ps[0].force == Share(s, Neg(f), t.incMass) && ps[1].force == Share(s, f, t.refMass)
  {
  }

  /** The share of a force minus the other partner's share of its reverse is the whole force. */
  lemma SharesApart(s: Setup, v: Vec, refMass: real, incMass: real)
    requires !s.oneSide && s.invMass * (refMass + incMass) == 1.0
    ensures Sub(Share(s, v, refMass), Share(s, Neg(v), incMass)) == v
  {
    SharesAddUp(s, v, refMass, incMass);
    ShareOfReverse(s, v, incMass);
  }

  /**
   * The response half of one turn of Solve: the penetration is scaled,
   * the response force computed, both bodies asked, and, unless an area
   * body or a refusal cancels the contact, each side pushed that the
   * other may push. Nothing is changed; the pushes and the new solved
   * flag are returned.
   */
  method Respond(s: Setup, c: Contact, t: Touch, accept: (Body, CollisionInfo) -> bool)
    returns (ps: seq<Push>, solved: bool)
    requires c.referenceParticles != [] && s.count > 0
    ensures ps == SolvePushes(s, c, t, accept)
    ensures solved == Resolved(s, c, t, accept).solved
  {
    var pen := Scaled(s, c.penetration);
    var responseForce := Response(s, c.normal, pen);
    var cancelSolving := t.refType == Area || t.incType == Area;
    var enabledByRef := accept(t.ref, CollisionInfo(c.position, t.inc, Neg(c.normal), pen));
    var enabledByInc := accept(t.inc, CollisionInfo(c.position, t.ref, c.normal, pen));
    if !enabledByRef || !enabledByInc {
      cancelSolving := true;
    }
    ps, solved := [], c.solved;
    if cancelSolving {
      return;
    }
    var refResponseForce := Share(s, Neg(responseForce), t.incMass);
    var incResponseForce := Share(s, responseForce, t.refMass);
    if t.refPushable {
      solved := true;
      if t.refType == Rigid {
        ps := ps + [RigidPush(t.ref, refResponseForce, c.position)];
      } else if |c.referenceParticles| == 2 {
        ps := ps + [SegmentPush(c.referenceParticles[0], c.referenceParticles[1], refResponseForce, c.position)];
      } else {
        ps := ps + [ParticlePush(c.referenceParticles[0], refResponseForce)];
      }
    }
    if t.incPushable {
      solved := true;
      if t.incType == Rigid {
        ps := ps + [RigidPush(t.inc, incResponseForce, c.position)];
      } else {
        ps := ps + [ParticlePush(c.particle, incResponseForce)];
      }
    }
  }

  // ================================================================ area registration

  /** The bodies registered with area body `b` by one touch: each area partner learns the other. */
  function Enrolled(t: Touch, b: Body): (r: set<Body>)
    ensures r <= {t.ref, t.inc}
    ensures r != {} ==> (t.ref == b && t.refType == Area) || (t.inc == b && t.incType == Area)
    ensures t.ref == b && t.refType == Area ==> t.inc in r
    ensures t.inc == b && t.incType == Area ==> t.ref in r
  {
    (if t.ref == b && t.refType == Area then {t.inc} else {}) +
    (if t.inc == b && t.incType == Area then {t.ref} else {})
  }

  /** The bodies registered with area body `b` by a list of touches. */
  function Enrollments(ts: seq<Touch>, b: Body): (r: set<Body>)
    ensures forall e :: e in r ==> exists k :: 0 <= k < |ts| && e in Enrolled(ts[k], b)
    ensures forall k :: 0 <= k < |ts| ==> Enrolled(ts[k], b) <= r
  {
    if ts == [] then {} else Enrollments(ts[..|ts| - 1], b) + Enrolled(ts[|ts| - 1], b)
  }

  /** Does `areas` hold the QAreaBody of each area partner of a touch? */
  predicate Known(t: Touch, areas: map<Body, AreaBodies.AreaBody>)
  {
    (t.refType == Area ==> t.ref in areas) && (t.incType == Area ==> t.inc in areas)
  }

  /**
   * The area registration of one contact: an area reference body learns
   * the incident body, then an area incident body learns the reference body.
   */
  method Register(t: Touch, areas: map<Body, AreaBodies.AreaBody>)
    requires forall b :: b in areas ==> areas[b].body == b
    requires Known(t, areas)
    modifies (set b | b in areas :: areas[b])`bodies, (set b | b in areas :: areas[b])`enterEvents
    ensures forall b :: b in areas ==> areas[b].bodies == old(areas[b].bodies) + Enrolled(t, b)
    ensures forall b :: b in areas ==> old(areas[b].Balanced()) ==> areas[b].Balanced()
  {
    if t.refType == Area {
      areas[t.ref].AddCollidedBody(t.inc);
    }
    if t.incType == Area {
      areas[t.inc].AddCollidedBody(t.ref);
    }
  }

  /** The area registrations of a list of contacts, in order. */
  method RegisterAll(ts: seq<Touch>, areas: map<Body, AreaBodies.AreaBody>)
    requires forall b :: b in areas ==> areas[b].body == b
    requires forall k :: 0 <= k < |ts| ==> Known(ts[k], areas)
    modifies (set b | b in areas :: areas[b])`bodies, (set b | b in areas :: areas[b])`enterEvents
    ensures forall b :: b in areas ==> areas[b].bodies == old(areas[b].bodies) + Enrollments(ts, b)
    ensures forall b :: b in areas ==> old(areas[b].Balanced()) ==> areas[b].Balanced()
    decreases |ts|
  {
    if ts != [] {
      var n := |ts| - 1;
      RegisterAll(ts[..n], areas);
      Register(ts[n], areas);
    }
  }

  // ================================================================ velocities and friction

  /** A body that is neither kinematic nor static. */
  predicate Moves(b: Body)
    reads b
  {
    !b.isKinematic && b.mode != Static
  }

  /**
   * The impulse of the velocity correction: the normal scaled by the
   * approach speed `j` and the restitution, minus the tangential part of
   * the partners' relative velocity `relVel`.
   */
  function Impulse(restitution: real, j: real, normal: Vec, relVel: Vec): Vec
  {
    var tangent := Sub(relVel, Scale(normal, Dot(relVel, normal)));
    Sub(Scale(Scale(normal, j), restitution), tangent)
  }

  /** For a unit normal the impulse has normal component `j` times the restitution. */
  lemma ImpulseAlongNormal(restitution: real, j: real, normal: Vec, relVel: Vec)
    requires LengthSquared(normal) == 1.0
    ensures Dot(Impulse(restitution, j, normal, relVel), normal) == j * restitution
  {
    var d := Dot(relVel, normal);
    var n2 := Dot(normal, normal);
    DotSplit(Scale(Scale(normal, j), restitution), Sub(relVel, Scale(normal, d)), normal);
    DotSplit(relVel, Scale(normal, d), normal);
    DotLaws(Scale(normal, j), normal, normal, restitution);
    DotLaws(normal, normal, normal, j);
    DotLaws(normal, normal, normal, d);
    assert n2 == 1.0;
    calc {
      Dot(Impulse(restitution, j, normal, relVel), normal);
      restitution * (j * n2) - (d - d * n2);
      j * restitution;
    }
  }

  /** Dot distributes over a difference. */
  lemma DotSplit(a: Vec, b: Vec, c: Vec)
    ensures Dot(Sub(a, b), c) == Dot(a, c) - Dot(b, c)
  {
  }

  /**
   * Added to the relative velocity, the impulse leaves only motion along
   * the normal: the tangential relative velocity is cancelled.
   */
  lemma ImpulseCancelsTangent(restitution: real, j: real, normal: Vec, relVel: Vec)
    ensures Add(Impulse(restitution, j, normal, relVel), relVel) ==
            Scale(normal, j * restitution + Dot(relVel, normal))
  {
    var imp := Impulse(restitution, j, normal, relVel);
    TangentScalars(normal.x, normal.y, relVel.x, relVel.y, j, restitution, imp.x, imp.y);
  }

  /** The arithmetic behind ImpulseCancelsTangent. */
  lemma TangentScalars(nx: real, ny: real, rx: real, ry: real, j: real, r: real, ix: real, iy: real)
    requires ix == nx * j * r - (rx - nx * (rx * nx + ry * ny))
    requires iy == ny * j * r - (ry - ny * (rx * nx + ry * ny))
    ensures ix + rx == nx * (j * r + (rx * nx + ry * ny))
    ensures iy + ry == ny * (j * r + (rx * nx + ry * ny))
  {
  }

  /**
   * The relative velocity of a contact's partners without arms, as the
   * velocity correction reads it: only the linear motion of each side.
   */
  function LinearVelocity(c: Contact, ref: Body, inc: Body): Vec
    requires c.referenceParticles != []
    reads ref, inc, Named(c)
  {
    var velRef := if ref.simulationModel == RigidBody then Sub(ref.position, ref.prevPosition)
                  else Mean(Steps(c.referenceParticles));
    var velInc := if inc.simulationModel == RigidBody then Sub(inc.position, inc.prevPosition)
                  else Sub(c.particle.globalPosition, c.particle.prevGlobalPosition);
    Sub(velRef, velInc)
  }

  /** With both arms zero, GetRelativeVelocity gives the linear relative velocity. */
  lemma ZeroArmsGiveLinearVelocity(c: Contact, ref: Body, inc: Body)
    requires c.referenceParticles != []
    ensures RelativeVelocity(c, ref, inc, Zero(), Zero()) == LinearVelocity(c, ref, inc)
  {
    var angRef := if ref.simulationModel == RigidBody then ref.rotation - ref.prevRotation else 0.0;
    var angInc := if inc.simulationModel == RigidBody then inc.rotation - inc.prevRotation else 0.0;
    ZeroArmIsStill(-angRef);
    ZeroArmIsStill(-angInc);
  }

  /** A zero arm contributes nothing, whatever the turn. */
  lemma ZeroArmIsStill(ang: real)
    ensures Scale(Perpendicular(Zero()), ang) == Zero()
  {
  }

  /** Does a solved contact approaching at speed `j` along its normal bounce hard enough for the velocity correction? */
  predicate Bounces(s: Setup, j: real, c: Contact)
  {
    c.solved && s.restitution > 0.0 && j > s.restitution * 2.0
  }

  /**
   * The previous position body `b` has after the velocity correction of
   * contact `c` with touch `t`, given the recorded linear relative
   * velocity `lrv`: when the contact bounces, a rigid reference (incident)
   * body that the other may push and that is not kinematic gets its
   * position minus its share of the reversed (plain) impulse; the incident
   * update is made second.
   */
  function CorrectedPrev(s: Setup, lrv: Vec, c: Contact, t: Touch, b: Body): Vec
    requires c.referenceParticles != []
    reads t.ref, t.inc, b, Named(c)
  {
    var j := Dot(lrv, c.normal);
    if !Bounces(s, j, c) then b.prevPosition
    else
      var jn := Impulse(s.restitution, j, c.normal, LinearVelocity(c, t.ref, t.inc));
      if b == t.inc && t.incType == Rigid && t.incPushable && !t.incKinematic then
        Sub(t.inc.position, Share(s, jn, t.refMass))
      else if b == t.ref && t.refType == Rigid && t.refPushable && !t.refKinematic then
        Sub(t.ref.position, Share(s, Neg(jn), t.incMass))
      else b.prevPosition
  }

  /**
   * A bouncing contact between two movable rigid bodies that push each
   * other sets their velocities (position minus previous position) apart
   * by exactly the impulse, whatever their masses.
   */
  lemma CorrectionSeparates(s: Setup, lrv: Vec, c: Contact, t: Touch)
    requires c.referenceParticles != [] && t.ref != t.inc
    requires Bounces(s, Dot(lrv, c.normal), c)
    requires t.refType == Rigid && t.incType == Rigid && !t.refKinematic && !t.incKinematic
    requires t.refPushable && t.incPushable
    requires !s.oneSide && s.invMass * (t.refMass + t.incMass) == 1.0
    ensures Sub(Sub(t.ref.position, CorrectedPrev(s, lrv, c, t, t.ref)),
                Sub(t.inc.position, CorrectedPrev(s, lrv, c, t, t.inc))) ==
            Neg(Impulse(s.restitution, Dot(lrv, c.normal), c.normal, LinearVelocity(c, t.ref, t.inc)))
  {
    var jn := Impulse(s.restitution, Dot(lrv, c.normal), c.normal, LinearVelocity(c, t.ref, t.inc));
    SharesAddUp(s, jn, t.refMass, t.incMass);
    ShareOfReverse(s, jn, t.incMass);
  }

  /**
   * The velocity correction of a contact, made in place through
   * SetPreviousPosition, for the recorded linear relative velocity `lrv`.
   */
  method CorrectVelocities(s: Setup, lrv: Vec, c: Contact, t: Touch)
    requires c.referenceParticles != []
    modifies t.ref`prevPosition, t.inc`prevPosition
    ensures t.ref.prevPosition == old(CorrectedPrev(s, lrv, c, t, t.ref))
    ensures t.inc.prevPosition == old(CorrectedPrev(s, lrv, c, t, t.inc))
  {
    var j := Dot(lrv, c.normal);
    if c.solved && s.restitution > 0.0 && j > s.restitution * 2.0 {
      var jn := Impulse(s.restitution, j, c.normal, LinearVelocity(c, t.ref, t.inc));
      var refImpulse := Share(s, Neg(jn), t.incMass);
      var incImpulse := Share(s, jn, t.refMass);
      if t.refType == Rigid && t.refPushable && !t.refKinematic {
        t.ref.SetPreviousPosition(Sub(t.ref.position, refImpulse));
      }
      if t.incType == Rigid && t.incPushable && !t.incKinematic {
        t.inc.SetPreviousPosition(Sub(t.inc.position, incImpulse));
      }
    }
  }

  /** What QBody::ComputeFriction reads: both bodies' friction coefficients, the normal, the penetration and the relative velocity. */
  datatype FrictionQuery = FrictionQuery(incidentFriction: real, referenceFriction: real,
                                         incidentStaticFriction: real, referenceStaticFriction: real,
                                         normal: Vec, penetration: real, relativeVelocity: Vec)

  /**
   * The friction pushes of one contact with touch `t`: none for an
   * unsolved one; otherwise the friction force goes to the reference side
   * and its reverse to the incident side, each only when the other body
   * may push it and it is not kinematic.
   */
  function FrictionPushes(s: Setup, c: Contact, t: Touch, friction: FrictionQuery -> Vec): seq<Push>
    requires c.referenceParticles != []
    reads t.ref, t.inc, Named(c)
  {
    if !c.solved then []
    else
      var ref, inc := t.ref, t.inc;
      var relVel := RelativeVelocity(c, ref, inc, Sub(c.position, ref.position), Sub(c.position, inc.position));
      var f := friction(FrictionQuery(inc.friction, ref.friction, inc.staticFriction, ref.staticFriction,
                                      c.normal, c.penetration, relVel));
      (if t.refPushable && !t.refKinematic
       then [RefPush(c, t, Share(s, f, t.incMass), c.particle.globalPosition)] else []) +
      (if t.incPushable && !t.incKinematic then [IncPush(c, t, Share(s, Neg(f), t.refMass))] else [])
  }

  /** Friction is never applied to an unsolved contact, and never pushes a rigid partner that is kinematic. */
  lemma FrictionSparesKinematic(s: Setup, c: Contact, t: Touch, friction: FrictionQuery -> Vec)
    requires c.referenceParticles != []
    ensures !c.solved ==> FrictionPushes(s, c, t, friction) == []
    ensures forall p :: p in FrictionPushes(s, c, t, friction) && p.RigidPush? ==>
              (p.body == t.ref && !t.refKinematic) || (p.body == t.inc && !t.incKinematic)
  {
  }

  // ================================================================ whole contact lists

  /** Every contact as Solve leaves it, for contacts `cs` with touches `ts`. */
  function ResolvedAll(s: Setup, cs: seq<Contact>, ts: seq<Touch>, accept: (Body, CollisionInfo) -> bool): (r: seq<Contact>)
    requires |ts| == |cs|
    ensures |r| == |cs|
    ensures forall k :: 0 <= k < |cs| ==> r[k] == Resolved(s, cs[k], ts[k], accept)
  {
    if cs == [] then []
    else
      var n := |cs| - 1;
      ResolvedAll(s, cs[..n], ts[..n], accept) + [Resolved(s, cs[n], ts[n], accept)]
  }

  /** The pushes Solve makes for each of the contacts `cs` with touches `ts`. */
  function PushesAll(s: Setup, cs: seq<Contact>, ts: seq<Touch>, accept: (Body, CollisionInfo) -> bool): (r: seq<seq<Push>>)
    requires |ts| == |cs| && (cs == [] || s.count > 0)
    requires forall k :: 0 <= k < |cs| ==> cs[k].referenceParticles != []
    ensures |r| == |cs|
    ensures forall k :: 0 <= k < |cs| ==> r[k] == SolvePushes(s, cs[k], ts[k], accept)
  {
    if cs == [] then []
    else
      var n := |cs| - 1;
      PushesAll(s, cs[..n], ts[..n], accept) + [SolvePushes(s, cs[n], ts[n], accept)]
  }

  /**
   * The reads of one pass of Solve over its contacts with touches `ts`:
   * each contact's stored-back form and pushes. Nothing is changed.
   */
  method RespondAll(s: Setup, cs: seq<Contact>, ts: seq<Touch>, accept: (Body, CollisionInfo) -> bool)
    returns (resolved: seq<Contact>, pushes: seq<seq<Push>>)
    requires |ts| == |cs| && s.count > 0
    requires forall k :: 0 <= k < |cs| ==> cs[k].referenceParticles != []
    ensures resolved == ResolvedAll(s, cs, ts, accept)
    ensures pushes == PushesAll(s, cs, ts, accept)
  {
    resolved, pushes := [], [];
    var i := 0;
    while i < |cs|
      invariant 0 <= i <= |cs|
      invariant resolved == ResolvedAll(s, cs[..i], ts[..i], accept)
      invariant pushes == PushesAll(s, cs[..i], ts[..i], accept)
    {
      var c := cs[i];
      var ps, solved := Respond(s, c, ts[i], accept);
      assert cs[..i + 1][..i] == cs[..i] && ts[..i + 1][..i] == ts[..i];
      resolved := resolved + [c.(penetration := Scaled(s, c.penetration), solved := solved)];
      pushes := pushes + [ps];
      i := i + 1;
    }
    assert cs[..i] == cs && ts[..i] == ts;
  }

  /** The friction pushes of every contact with touches `ts`, read in the current state. Nothing is changed. */
  method FrictionAll(s: Setup, cs: seq<Contact>, ts: seq<Touch>, friction: FrictionQuery -> Vec)
    returns (pushes: seq<seq<Push>>)
    requires |ts| == |cs|
    requires forall k :: 0 <= k < |cs| ==> cs[k].referenceParticles != []
    ensures |pushes| == |cs|
    ensures forall k :: 0 <= k < |cs| ==> pushes[k] == FrictionPushes(s, cs[k], ts[k], friction)
  {
    pushes := [];
    var i := 0;
    while i < |cs|
      invariant 0 <= i <= |cs| && |pushes| == i
      invariant forall k :: 0 <= k < i ==> pushes[k] == FrictionPushes(s, cs[k], ts[k], friction)
    {
      pushes := pushes + [FrictionPushes(s, cs[i], ts[i], friction)];
      i := i + 1;
    }
  }

  /** The linear relative velocity Solve records at a contact, with the arms from the bodies' positions. */
  function FirstVelocity(c: Contact, ref: Body, inc: Body): Vec
    requires c.referenceParticles != []
    reads ref, inc, Named(c)
  {
    RelativeVelocity(c, ref, inc, Sub(c.position, ref.position), Sub(c.position, inc.position))
  }

  /** The bodies the velocity correction may move: the partners of the first contact. */
  function Partners(cs: seq<Contact>): set<Body>
    reads if cs == [] then {} else Ends(cs[0])
    reads if cs == [] then {} else Meshes(cs[0])
  {
    if cs == [] then {} else Bodies(cs[0])
  }

  // ================================================================ the manifold

  class Manifold {
    var bodyA: Body
    var bodyB: Body
    var contacts: seq<Contact>
    var linearRelativeVelocity: Vec
    var restitution: real
    var invMass: real
    var isCollisionOneSide: bool

    /**
     * QManifold(bodyA, bodyB): the bodies by pointer order, the lower
     * restitution, the inverse of the summed mass, and one-sided when
     * either body may not push the other.
     */
    constructor(a: Body, b: Body)
      requires a.mass + b.mass != 0.0
      ensures (bodyA, bodyB) == Canonical(a, b)
      ensures restitution <= a.restitution && restitution <= b.restitution
      ensures restitution == a.restitution || restitution == b.restitution
      ensures invMass * (a.mass + b.mass) == 1.0
      ensures isCollisionOneSide <==> !a.CanGiveCollisionResponseTo(b) || !b.CanGiveCollisionResponseTo(a)
      ensures contacts == [] && linearRelativeVelocity == Zero()
    {
      if a.id < b.id {
        bodyA, bodyB := a, b;
      } else {
        bodyA, bodyB := b, a;
      }
      restitution := if b.restitution < a.restitution then b.restitution else a.restitution;
      invMass := 1.0 / (a.mass + b.mass);
      isCollisionOneSide := false;
      if !a.CanGiveCollisionResponseTo(b) || !b.CanGiveCollisionResponseTo(a) {
        isCollisionOneSide := true;
      }
      contacts := [];
      linearRelativeVelocity := Zero();
    }

    /** The manifold's values Solve reads, with the contact count. */
    function Params(): Setup
      reads this, bodyA, bodyB
    {
      Setup(restitution, invMass, isCollisionOneSide,
            bodyA.simulationModel == RigidBody && bodyB.simulationModel == RigidBody,
            bodyA.simulationModel == MassSpring && bodyB.simulationModel == MassSpring,
            |contacts|)
    }

    /**
     * Solve: resolves the contacts in order. Each contact is stored back
     * with its scaled penetration and solved flag and yields its pushes;
     * the first contact sets the linear relative velocity. The touches
     * returned name each contact's partners, for the area registration.
     */
    method Solve(accept: (Body, CollisionInfo) -> bool) returns (pushes: seq<seq<Push>>, touches: seq<Touch>)
      requires AllOwned(contacts)
      modifies this`contacts, this`linearRelativeVelocity
      ensures touches == old(Touches(contacts))
      ensures contacts == old(ResolvedAll(Params(), contacts, Touches(contacts), accept))
      ensures pushes == old(PushesAll(Params(), contacts, Touches(contacts), accept))
      ensures linearRelativeVelocity ==
                if old(contacts) == [] then old(linearRelativeVelocity)
                else old(var t := Touches(contacts)[0]; FirstVelocity(contacts[0], t.ref, t.inc))
    {
      // No turn of the source's loop reads what an earlier turn wrote, so
      // every turn's reads are made first and the writes after them.
      touches := Touches(contacts);
      if contacts == [] {
        return [], touches;
      }
      var s := Params();
      var v := FirstVelocity(contacts[0], touches[0].ref, touches[0].inc);
      var resolved;
      resolved, pushes := RespondAll(s, contacts, touches, accept);
      linearRelativeVelocity := v;
      contacts := resolved;
    }

    /**
     * SolveFrictionAndVelocities: nothing when neither body moves.
     * Otherwise a bouncing first contact first corrects the velocities of
     * its partners, and then every solved contact yields its friction
     * pushes, read after the correction.
     */
    method SolveFrictionAndVelocities(friction: FrictionQuery -> Vec) returns (pushes: seq<seq<Push>>)
      requires AllOwned(contacts)
      modifies Partners(contacts)`prevPosition
      ensures old(!Moves(bodyA) && !Moves(bodyB)) ==> pushes == [] && unchanged(Partners(contacts))
      ensures old(Moves(bodyA) || Moves(bodyB)) ==>
                |pushes| == |contacts| &&
                forall i :: 0 <= i < |contacts| ==>
                  var t := old(Touches(contacts))[i];
                  pushes[i] == FrictionPushes(old(Params()), contacts[i], t, friction)
      ensures old(Moves(bodyA) || Moves(bodyB)) && contacts != [] ==>
                var t := old(Touches(contacts))[0];
                t.ref.prevPosition == old(CorrectedPrev(Params(), linearRelativeVelocity, contacts[0], t, t.ref)) &&
                t.inc.prevPosition == old(CorrectedPrev(Params(), linearRelativeVelocity, contacts[0], t, t.inc))
    {
      if !Moves(bodyA) && !Moves(bodyB) {
        return [];
      }
      var s := Params();
      var ts := Touches(contacts);
      assert forall k :: 0 <= k < |contacts| ==> contacts[k].referenceParticles != [];
      if contacts != [] {
        CorrectVelocities(s, linearRelativeVelocity, contacts[0], ts[0]);
      }
      pushes := FrictionAll(s, contacts, ts, friction);
    }
  }
}
