/**
 * QRigidBody (qrigidbody.cpp): a body whose meshes move as one piece. It
 * adds its own pending force and angular force (which hide the ones of
 * QBody), the fixed-rotation option, the force setters, ApplyForce and
 * ApplyImpulse, and the Verlet step of Update.
 */
module RigidBodies {
  import opened Vectors
  import opened Engine
  import Seqs

  /** The motion state Update reads and writes. */
  datatype Motion = Motion(position: Vec, prevPosition: Vec, rotation: real, prevRotation: real,
                           force: Vec, angularForce: real)

  /**
   * What Update reads besides the motion: whether velocities are
   * integrated (not kinematic and integration enabled), the air friction,
   * the gravity step (the custom or the world's gravity times the time
   * scale, or none when gravity is ignored) and the velocity limit.
   */
  datatype Settings = Settings(integrate: bool, airFriction: real, gravityStep: Vec, ignoreGravity: bool,
                               velocityLimit: real)

  /** A velocity component below 0.01 in magnitude is treated as zero ("reducing float errors"). */
  function Snap(v: real): (r: real)
    ensures Abs(v) < 0.01 ==> r == 0.0
    ensures Abs(v) >= 0.01 ==> r == v
  {
    if Abs(v) < 0.01 then 0.0 else v
  }

  /** The velocity Update integrates: position minus previous position, each component snapped, then capped. */
  function Velocity(num: Numerics, m: Motion, s: Settings): Vec
  {
    Capped(num, Vec(Snap(m.position.x - m.prevPosition.x), Snap(m.position.y - m.prevPosition.y)), s.velocityLimit)
  }

  /** A positive limit replaces a longer velocity by the unit vector along it times the limit; otherwise it passes. */
  function Capped(num: Numerics, vel: Vec, limit: real): (r: Vec)
    ensures limit <= 0.0 || Length(num, vel) <= limit ==> r == vel
    ensures vel == Zero() && 0.0 <= limit ==> r == Zero()
  {
    LengthZero(num, vel);
    if limit > 0.0 && Length(num, vel) > limit then Scale(Normalized(num, vel), limit) else vel
  }

  /** A velocity less its air-friction share. */
  function Damped(vel: Vec, airFriction: real): Vec
  {
    Sub(vel, Scale(vel, airFriction))
  }

  /** An angular velocity less its air-friction share. */
  function DampedTurn(rotVel: real, airFriction: real): real
  {
    rotVel - rotVel * airFriction
  }

  /**
   * One Update step of a dynamic, awake body in a world: the previous
   * position and rotation become the current ones; an integrating body
   * moves by its damped velocity and the gravity step and turns by its
   * damped angular velocity; every body then moves by its pending force
   * and turns by its pending angular force, which are cleared.
   */
  function Step(num: Numerics, m: Motion, s: Settings): (r: Motion)
    ensures r.prevPosition == m.position && r.prevRotation == m.rotation
    ensures r.force == Zero() && r.angularForce == 0.0
  {
    Motion(Add(Drifted(num, m, s), m.force), m.position, Turned(m, s) + m.angularForce, m.rotation, Zero(), 0.0)
  }

  /** The position after the integration part of the step (the position itself when not integrating). */
  function Drifted(num: Numerics, m: Motion, s: Settings): Vec
  {
    if !s.integrate then m.position
    else Add(Add(m.position, Damped(Velocity(num, m, s), s.airFriction)), if s.ignoreGravity then Zero() else s.gravityStep)
  }

  /** The rotation after the integration part of the step. */
  function Turned(m: Motion, s: Settings): real
  {
    if !s.integrate then m.rotation else m.rotation + DampedTurn(m.rotation - m.prevRotation, s.airFriction)
  }

  /** A body that does not integrate (kinematic, or integration disabled) moves and turns by exactly its pending forces. */
  lemma KinematicMovesByForceOnly(num: Numerics, m: Motion, s: Settings)
    requires !s.integrate
    ensures Step(num, m, s).position == Add(m.position, m.force)
    ensures Step(num, m, s).rotation == m.rotation + m.angularForce
  {
  }

  /**
   * A body at rest (each velocity component below 0.01, not turning), with
   * no gravity and no pending forces, stays exactly where it is.
   */
  lemma RestingBodyStaysPut(num: Numerics, m: Motion, s: Settings)
    requires Abs(m.position.x - m.prevPosition.x) < 0.01 && Abs(m.position.y - m.prevPosition.y) < 0.01
    requires m.rotation == m.prevRotation && s.ignoreGravity
    requires m.force == Zero() && m.angularForce == 0.0 && 0.0 <= s.velocityLimit
    ensures Step(num, m, s).position == m.position && Step(num, m, s).rotation == m.rotation
    ensures Step(num, m, s).prevPosition == m.position && Step(num, m, s).prevRotation == m.rotation
  {
    RestingDoesNotDrift(num, m, s);
    RestingDoesNotTurn(m, s);
  }

  lemma RestingDoesNotDrift(num: Numerics, m: Motion, s: Settings)
    requires Abs(m.position.x - m.prevPosition.x) < 0.01 && Abs(m.position.y - m.prevPosition.y) < 0.01
    requires s.ignoreGravity && 0.0 <= s.velocityLimit
    ensures Drifted(num, m, s) == m.position
  {
    SnappedToRest(num, m, s);
    StillDoesNotDrift(num, m, s);
  }

  /** Components below 0.01 give a zero velocity. */
  lemma SnappedToRest(num: Numerics, m: Motion, s: Settings)
    requires Abs(m.position.x - m.prevPosition.x) < 0.01 && Abs(m.position.y - m.prevPosition.y) < 0.01
    requires 0.0 <= s.velocityLimit
    ensures Velocity(num, m, s) == Zero()
  {
    assert Snap(m.position.x - m.prevPosition.x) == 0.0 && Snap(m.position.y - m.prevPosition.y) == 0.0;
  }

  /** Without velocity and gravity the integration leaves the position alone. */
  lemma StillDoesNotDrift(num: Numerics, m: Motion, s: Settings)
    requires Velocity(num, m, s) == Zero() && s.ignoreGravity
    ensures Drifted(num, m, s) == m.position
  {
    assert Damped(Zero(), s.airFriction) == Zero();
  }

  lemma RestingDoesNotTurn(m: Motion, s: Settings)
    requires m.rotation == m.prevRotation
    ensures Turned(m, s) == m.rotation
  {
    assert m.rotation - m.prevRotation == 0.0;
  }

  class RigidBody {
    const body: Body
    var fixedRotation: bool
    var force: Vec
    var angularForce: real

    /** QRigidBody(): a rigid-model, rigid-type body with no pending forces and free rotation. */
    constructor(pointer: nat)
      ensures fresh(body) && body.id == pointer && body.world == null && body.meshes == []
      ensures body.simulationModel == RigidBody && body.bodyType == Rigid && body.mode == Dynamic && body.enabled
      ensures body.inertiaNeedsUpdate && !body.isSleeping
      ensures !fixedRotation && force == Zero() && angularForce == 0.0
    {
      body := new Body(pointer);
      fixedRotation, force, angularForce := false, Zero(), 0.0;
      new;
      body.simulationModel := RigidBody;
      body.bodyType := Rigid;
    }

    /** The motion state of the body, with this class's own pending forces. */
    function MotionOf(): Motion
      reads this`force, this`angularForce, body`position, body`prevPosition, body`rotation, body`prevRotation
    {
      Motion(body.position, body.prevPosition, body.rotation, body.prevRotation, force, angularForce)
    }

    /** SetForce: wakes the body and replaces the pending force. */
    method SetForce(value: Vec) returns (r: RigidBody)
      modifies body`isSleeping, this`force
      ensures r == this && force == value && !body.isSleeping
    {
      body.WakeUp();
      force := value;
      return this;
    }

    /** AddForce: wakes the body and adds to the pending force. */
    method AddForce(value: Vec) returns (r: RigidBody)
      modifies body`isSleeping, this`force
      ensures r == this && force == Add(old(force), value) && !body.isSleeping
    {
      r := SetForce(Add(force, value));
    }

    /** SetAngularForce: wakes the body and replaces the pending angular force. */
    method SetAngularForce(value: real) returns (r: RigidBody)
      modifies body`isSleeping, this`angularForce
      ensures r == this && angularForce == value && !body.isSleeping
    {
      body.WakeUp();
      angularForce := value;
      return this;
    }

    /** AddAngularForce: wakes the body and adds to the pending angular force. */
    method AddAngularForce(value: real) returns (r: RigidBody)
      modifies body`isSleeping, this`angularForce
      ensures r == this && angularForce == old(angularForce) + value && !body.isSleeping
    {
      r := SetAngularForce(angularForce + value);
    }

    /**
     * ApplyForce(force, r, updateMeshTransforms): nothing for a static or
     * disabled body; otherwise the position moves by the force and, unless
     * the rotation is fixed, the rotation turns by the torque of the force
     * at arm r over the (possibly refreshed) inertia; the meshes follow when
     * asked.
     */
    method ApplyForceAt(num: Numerics, decompose: Decomposer, force: Vec, r: Vec, updateMeshTransforms: bool,
                        ghost g0: map<Particle, Vec>, ghost l0: map<Particle, Vec>)
      returns (rb: RigidBody)
      requires body.Wired() && Snapshots(body.meshes, g0, l0) && body.InertiaSound()
      modifies body`position, body`rotation, body`inertia, body`inertiaNeedsUpdate
      modifies body`circumferenceNeedsUpdate
      modifies (set m | m in body.meshes)`subConvexPolygons, (set m | m in body.meshes)`subConvexPolygonsNeedsUpdate
      modifies (set m | m in body.meshes)`globalRotation, (set m | m in body.meshes)`globalPosition
      modifies body.MeshParticles()`globalPosition, body.MeshParticles()`prevGlobalPosition
      modifies body.MeshParticles()`aabbNeedsUpdate, body.MeshParticles()`position
      ensures rb == this
      ensures old(body.mode) == Static || !old(body.enabled) ==>
                body.position == old(body.position) && body.rotation == old(body.rotation) &&
                unchanged(body.MeshParticles())
      ensures old(body.mode) != Static && old(body.enabled) ==>
                body.position == Add(old(body.position), force) &&
                (fixedRotation ==> body.rotation == old(body.rotation)) &&
                (!fixedRotation ==> body.inertia != 0.0 &&
                                    body.rotation == old(body.rotation) + Turn(r, force, body.inertia))
      ensures old(body.mode) != Static && old(body.enabled) && updateMeshTransforms ==>
                body.MeshesPlaced(num) && body.MeshesSettled(g0, l0)
    {
      if body.mode == Static || !body.enabled {
        return this;
      }
      Push(decompose, force, r);
      if updateMeshTransforms {
        body.UpdateMeshTransforms(num, g0, l0);
      }
      return this;
    }

    /** The turn a force gives at arm r: its torque over the inertia. */
    static function Turn(r: Vec, force: Vec, inertia: real): (t: real)
      requires inertia != 0.0
      ensures Dot(r, Perpendicular(force)) == 0.0 ==> t == 0.0
      ensures Dot(r, Perpendicular(force)) * inertia > 0.0 ==> t > 0.0
    {
      Dot(r, Perpendicular(force)) / inertia
    }

    /** A force applied at the centre has no torque, so it does not turn the body. */
    static lemma NoArmNoTurn(force: Vec, inertia: real)
      requires inertia != 0.0
      ensures Turn(Zero(), force, inertia) == 0.0
    {
    }

    /** The motion part of ApplyForceAt: move by the force, and turn unless the rotation is fixed. */
    method Push(decompose: Decomposer, force: Vec, r: Vec)
      requires Seqs.Distinct(body.meshes) && body.InertiaSound()
      modifies body`position, body`rotation, body`inertia, body`inertiaNeedsUpdate
      modifies (set m | m in body.meshes)`subConvexPolygons, (set m | m in body.meshes)`subConvexPolygonsNeedsUpdate
      ensures body.position == Add(old(body.position), force)
      ensures fixedRotation ==> body.rotation == old(body.rotation) && unchanged(body`inertia, body`inertiaNeedsUpdate)
      ensures !fixedRotation ==> body.inertia != 0.0 && !body.inertiaNeedsUpdate &&
                                 body.rotation == old(body.rotation) + Turn(r, force, body.inertia)
      ensures !old(body.inertiaNeedsUpdate) ==> body.inertia == old(body.inertia)
      ensures body.InertiaSound()
    {
      body.position := Add(body.position, force);
      if !fixedRotation {
        var inertia := body.GetInertia(decompose);
        body.rotation := body.rotation + Turn(r, force, inertia);
      }
    }

    /** ApplyForce(force): ApplyForce at a zero arm with the meshes following, so the body moves without turning. */
    method ApplyForce(num: Numerics, decompose: Decomposer, force: Vec,
                      ghost g0: map<Particle, Vec>, ghost l0: map<Particle, Vec>)
      returns (rb: RigidBody)
      requires body.Wired() && Snapshots(body.meshes, g0, l0) && body.InertiaSound()
      modifies body`position, body`rotation, body`inertia, body`inertiaNeedsUpdate
      modifies body`circumferenceNeedsUpdate
      modifies (set m | m in body.meshes)`subConvexPolygons, (set m | m in body.meshes)`subConvexPolygonsNeedsUpdate
      modifies (set m | m in body.meshes)`globalRotation, (set m | m in body.meshes)`globalPosition
      modifies body.MeshParticles()`globalPosition, body.MeshParticles()`prevGlobalPosition
      modifies body.MeshParticles()`aabbNeedsUpdate, body.MeshParticles()`position
      ensures rb == this && body.rotation == old(body.rotation)
      ensures old(body.mode) == Static || !old(body.enabled) ==>
                body.position == old(body.position) && unchanged(body.MeshParticles())
      ensures old(body.mode) != Static && old(body.enabled) ==>
                body.position == Add(old(body.position), force) && body.MeshesPlaced(num) && body.MeshesSettled(g0, l0)
    {
      rb := ApplyForceAt(num, decompose, force, Zero(), true, g0, l0);
      if old(body.mode) != Static && old(body.enabled) && !fixedRotation {
        NoArmNoTurn(force, body.inertia);
      }
    }

    /**
     * ApplyImpulse: the previous position moves back by the impulse (so the
     * implicit velocity grows by it) and, unless the rotation is fixed, the
     * previous rotation moves back by the impulse's torque over the inertia;
     * the position and rotation themselves stay.
     */
    method ApplyImpulse(decompose: Decomposer, impulse: Vec, r: Vec) returns (rb: RigidBody)
      requires Seqs.Distinct(body.meshes) && body.InertiaSound()
      modifies body`prevPosition, body`prevRotation, body`inertia, body`inertiaNeedsUpdate
      modifies (set m | m in body.meshes)`subConvexPolygons, (set m | m in body.meshes)`subConvexPolygonsNeedsUpdate
      ensures rb == this && body.prevPosition == Sub(old(body.prevPosition), impulse)
      ensures fixedRotation ==> body.prevRotation == old(body.prevRotation)
      ensures !fixedRotation ==> body.inertia != 0.0 &&
                                 body.prevRotation == old(body.prevRotation) - Dot(r, Perpendicular(impulse)) / body.inertia
      ensures body.InertiaSound()
    {
      body.prevPosition := Sub(body.prevPosition, impulse);
      if !fixedRotation {
        var inertia := body.GetInertia(decompose);
        var angVel := Dot(r, Perpendicular(impulse)) / inertia;
        body.prevRotation := body.prevRotation - angVel;
      }
      return this;
    }

    /** True when Update returns before stepping: a static body, a body outside a world, or a sleeping one. */
    predicate Held()
      reads body`mode, body`world, body`isSleeping
    {
      body.mode == Static || body.world == null || body.isSleeping
    }

    /** What the step reads from the body and its world; the time scale is the body's own when enabled, else the world's. */
    function SettingsOf(): Settings
      reads body`enableBodySpecificTimeScale, body`bodySpecificTimeScale, body`world, body`enableCustomGravity
      reads body`customGravity, body`isKinematic, body`enableIntegratedVelocities, body`airFriction
      reads body`ignoreGravity, body`velocityLimit, body.world
    {
      var ts := if body.enableBodySpecificTimeScale then body.bodySpecificTimeScale
                else if body.world != null then body.world.timeScale else 1.0;
      var gravity := if body.enableCustomGravity then body.customGravity
                     else if body.world != null then body.world.gravity else Zero();
      Settings(!body.isKinematic && body.enableIntegratedVelocities, body.airFriction, Scale(gravity, ts),
               body.ignoreGravity, body.velocityLimit)
    }

    /**
     * Update: a held body keeps its motion, meshes and box. Otherwise the
     * motion takes one Step (pending forces consumed), then the meshes are
     * placed at the new position and rotation and the box is recomputed.
     */
    method Update(num: Numerics, ghost g0: map<Particle, Vec>, ghost l0: map<Particle, Vec>)
      requires body.Wired() && Snapshots(body.meshes, g0, l0)
      modifies this`force, this`angularForce
      modifies body`position, body`prevPosition, body`rotation, body`prevRotation, body`aabb
      modifies body`inertiaNeedsUpdate, body`circumferenceNeedsUpdate
      modifies (set m | m in body.meshes)`globalRotation, (set m | m in body.meshes)`globalPosition
      modifies body.MeshParticles()`globalPosition, body.MeshParticles()`prevGlobalPosition
      modifies body.MeshParticles()`aabbNeedsUpdate, body.MeshParticles()`position
      ensures old(Held()) ==> MotionOf() == old(MotionOf()) && unchanged(body`aabb) && unchanged(body.MeshParticles())
      ensures !old(Held()) ==> MotionOf() == Step(num, old(MotionOf()), old(SettingsOf()))
      ensures !old(Held()) ==> body.MeshesPlaced(num) && body.MeshesSettled(g0, l0) && body.Boxed()
    {
      if body.mode == Static {
        return;
      }
      if body.world == null {
        return;
      }
      if body.isSleeping {
        return;
      }
      Advance(num, g0, l0);
    }

    /** Update for a body that is not held: integrate, then place the meshes and refresh the box. */
    method Advance(num: Numerics, ghost g0: map<Particle, Vec>, ghost l0: map<Particle, Vec>)
      requires body.world != null && body.Wired() && Snapshots(body.meshes, g0, l0)
      modifies this`force, this`angularForce
      modifies body`position, body`prevPosition, body`rotation, body`prevRotation, body`aabb
      modifies body`inertiaNeedsUpdate, body`circumferenceNeedsUpdate
      modifies (set m | m in body.meshes)`globalRotation, (set m | m in body.meshes)`globalPosition
      modifies body.MeshParticles()`globalPosition, body.MeshParticles()`prevGlobalPosition
      modifies body.MeshParticles()`aabbNeedsUpdate, body.MeshParticles()`position
      ensures MotionOf() == Step(num, old(MotionOf()), old(SettingsOf()))
      ensures body.MeshesPlaced(num) && body.MeshesSettled(g0, l0) && body.Boxed()
    {
      Integrate(num);
      Settle(num, g0, l0);
    }

    /** The tail of Update: place the meshes at the body's pose, then refresh the box around them. */
    method Settle(num: Numerics, ghost g0: map<Particle, Vec>, ghost l0: map<Particle, Vec>)
      requires body.Wired() && Snapshots(body.meshes, g0, l0)
      modifies body`aabb, body`inertiaNeedsUpdate, body`circumferenceNeedsUpdate
      modifies (set m | m in body.meshes)`globalRotation, (set m | m in body.meshes)`globalPosition
      modifies body.MeshParticles()`globalPosition, body.MeshParticles()`prevGlobalPosition
      modifies body.MeshParticles()`aabbNeedsUpdate, body.MeshParticles()`position
      ensures body.MeshesPlaced(num) && body.MeshesSettled(g0, l0) && body.Boxed()
      ensures MotionOf() == old(MotionOf())
    {
      body.UpdateMeshTransforms(num, g0, l0);
      Box(num, g0, l0);
    }

    /** Refreshing the box leaves the meshes where they were placed. */
    method Box(num: Numerics, ghost g0: map<Particle, Vec>, ghost l0: map<Particle, Vec>)
      requires body.MeshesPlaced(num) && body.MeshesSettled(g0, l0)
      modifies body`aabb
      ensures body.MeshesPlaced(num) && body.MeshesSettled(g0, l0) && body.Boxed()
    {
      body.UpdateAABB();
      PlacementFramed(Placement(body, num, g0, l0));
    }

    /** The motion part of Update for a body that is not held. */
    method Integrate(num: Numerics)
      requires body.world != null
      modifies this`force, this`angularForce
      modifies body`position, body`prevPosition, body`rotation, body`prevRotation
      ensures MotionOf() == Step(num, old(MotionOf()), old(SettingsOf()))
    {
      ghost var m0, s0 := MotionOf(), SettingsOf();
      var ts := 1.0;
      if body.enableBodySpecificTimeScale {
        ts := body.bodySpecificTimeScale;
      } else {
        ts := body.world.timeScale;
      }
      var vel := Sub(body.position, body.prevPosition);
      body.prevPosition := body.position;
      if Abs(vel.x) < 0.01 {
        vel := vel.(x := 0.0);
        body.prevPosition := body.prevPosition.(x := body.position.x);
      }
      if Abs(vel.y) < 0.01 {
        vel := vel.(y := 0.0);
        body.prevPosition := body.prevPosition.(y := body.position.y);
      }
      vel := Capped(num, vel, body.velocityLimit);
      assert vel == Velocity(num, m0, s0);
      var rotVel := body.rotation - body.prevRotation;
      body.prevRotation := body.rotation;
      if !body.isKinematic && body.enableIntegratedVelocities {
        body.position := Add(body.position, Damped(vel, body.airFriction));
        if !body.ignoreGravity {
          if body.enableCustomGravity {
            body.position := Add(body.position, Scale(body.customGravity, ts));
          } else {
            body.position := Add(body.position, Scale(body.world.gravity, ts));
          }
        }
        body.rotation := body.rotation + DampedTurn(rotVel, body.airFriction);
      }
      assert body.position == Drifted(num, m0, s0);
      assert body.rotation == Turned(m0, s0);
      body.position := Add(body.position, force);
      force := Zero();
      body.rotation := body.rotation + angularForce;
      angularForce := 0.0;
    }
  }
}
