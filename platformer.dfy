/**
 * QPlatformerBody (extensions/qplatformerbody.cpp): a kinematic rigid body
 * driven like a platform-game character. It classifies the contact normals
 * it meets into floor, wall and ceiling by their angle to its up direction,
 * runs a small jump state machine (Jump, ReleaseJump and the bookkeeping of
 * PostUpdate), and integrates its own vertical and horizontal velocities.
 *
 * The collision tests PostUpdate makes against the world (the floor and
 * ceiling probes, the moving floor, the slope walking) are queries into
 * QWorld; the model takes their outcome, whether a floor and a ceiling were
 * found, as parameters, and returns the vertical displacement PostUpdate
 * applies instead of moving the body.
 */
module Platformers {
  import opened Vectors
  import opened Engine
  import RigidBodies
  import Reals

  /** The default maxFloorAngle, a quarter turn of pi. */
  const DEFAULT_MAX_FLOOR_ANGLE: real := PI * 0.25

  // ================================================================ angle classification

  /** GetFloor accepts a contact whose normal is at most maxFloorAngle away from up. */
  predicate IsFloor(angle: real, maxFloorAngle: real)
  {
    Abs(angle) <= maxFloorAngle
  }

  /** GetCeiling accepts a normal more than pi - maxFloorAngle away from up. */
  predicate IsCeiling(angle: real, maxFloorAngle: real)
  {
    Abs(angle) > PI - maxFloorAngle
  }

  /** GetRightWall (and so GetLeftWall) accepts a normal strictly between the floor and ceiling bands. */
  predicate IsWall(angle: real, maxFloorAngle: real)
  {
    Abs(angle) > maxFloorAngle && Abs(angle) < PI - maxFloorAngle
  }

  /** PostUpdate's own floor probe (and the moving-floor check) is strict. */
  predicate StandsOn(angle: real, maxFloorAngle: real)
  {
    Abs(angle) < maxFloorAngle
  }

  /**
   * While the floor band is narrower than a quarter turn, floor, wall and
   * ceiling never overlap, and together they cover every angle but the one
   * boundary |angle| == pi - maxFloorAngle, which the wall test and the
   * ceiling test both exclude.
   */
  lemma AngleBands(angle: real, maxFloorAngle: real)
    requires 0.0 <= maxFloorAngle && maxFloorAngle < PI - maxFloorAngle
    ensures !(IsFloor(angle, maxFloorAngle) && IsWall(angle, maxFloorAngle))
    ensures !(IsFloor(angle, maxFloorAngle) && IsCeiling(angle, maxFloorAngle))
    ensures !(IsWall(angle, maxFloorAngle) && IsCeiling(angle, maxFloorAngle))
    ensures IsFloor(angle, maxFloorAngle) || IsWall(angle, maxFloorAngle) || IsCeiling(angle, maxFloorAngle)
            <==> Abs(angle) != PI - maxFloorAngle
  {
  }

  /** The floor PostUpdate stands on is a floor GetFloor reports; they differ only on the band's edge. */
  lemma StandingIsFloor(angle: real, maxFloorAngle: real)
    ensures StandsOn(angle, maxFloorAngle) ==> IsFloor(angle, maxFloorAngle)
    ensures IsFloor(angle, maxFloorAngle) && !StandsOn(angle, maxFloorAngle) <==> Abs(angle) == maxFloorAngle
  {
  }

  /** The walls of the default body are the normals between a quarter and three quarters of pi. */
  lemma DefaultBands(angle: real)
    ensures IsWall(angle, DEFAULT_MAX_FLOOR_ANGLE) <==> PI * 0.25 < Abs(angle) < PI * 0.75
    ensures IsCeiling(angle, DEFAULT_MAX_FLOOR_ANGLE) <==> PI * 0.75 < Abs(angle)
  {
  }

  // ================================================================ the jump state machine

  /**
   * The fields the jump logic reads and writes: whether the jump is held
   * this frame (`mode`) and was last frame (`prevMode`), whether the button
   * was released since the last Jump, the force of the current jump, how
   * many jumps were made since the body last stood on a floor, and how many
   * frames have passed since the last jump started.
   */
  datatype JumpState = JumpState(mode: bool, prevMode: bool, released: bool, force: real, count: int, countDown: int)

  /** A released button never leaves a jump held; ReleaseJump and PostUpdate keep this. */
  predicate Coherent(st: JumpState)
  {
    st.released ==> !st.mode && !st.prevMode
  }

  /**
   * When Jump starts a new jump: only after a release, and then when
   * unconditional, or from the floor once the last jump is more than
   * `duration` frames old, or in the air while the count allows one more
   * jump and no jump was held in the last frame.
   */
  predicate Starts(st: JumpState, unconditional: bool, onFloor: bool, duration: int, maxCount: int)
  {
    st.released &&
    (unconditional ||
     (onFloor && st.countDown > duration) ||
     (!onFloor && st.count + 1 < maxCount && !st.prevMode))
  }

  /** Jump(force, unconditional) on the jump fields. */
  function Jumped(st: JumpState, force: real, unconditional: bool, onFloor: bool, duration: int, maxCount: int): JumpState
  {
    if st.released then
      if unconditional then
        st.(mode := true, prevMode := false, force := force, countDown := 0, released := false)
      else if onFloor && st.countDown > duration then
        st.(prevMode := false, mode := true, force := force, countDown := 0, count := st.count + 1, released := false)
      else if !onFloor && st.count + 1 < maxCount && !st.prevMode then
        st.(mode := true, prevMode := false, force := force, countDown := 0, count := st.count + 1, released := false)
      else
        st.(released := false)
    else
      st.(mode := if st.prevMode then true else st.mode, released := false)
  }

  /** ReleaseJump on the jump fields. */
  function Released(st: JumpState): JumpState
  {
    st.(prevMode := false, mode := false, released := true)
  }

  /** The jump bookkeeping of PostUpdate, given whether the floor probe found a floor. */
  function Ticked(st: JumpState, onFloor: bool): JumpState
  {
    st.(prevMode := st.mode, mode := false, countDown := st.countDown + 1,
        count := if onFloor then 0 else st.count)
  }

  /**
   * What one Jump does: it always leaves the button pressed; it takes the new
   * force, restarts the frame countdown and holds the jump exactly when it
   * starts a jump; it counts a jump exactly when it starts one that is not
   * unconditional; and otherwise it only re-holds a jump held last frame.
   */
  lemma JumpEffect(st: JumpState, force: real, unconditional: bool, onFloor: bool, duration: int, maxCount: int)
    requires Coherent(st)
    ensures var r := Jumped(st, force, unconditional, onFloor, duration, maxCount);
            var s := Starts(st, unconditional, onFloor, duration, maxCount);
            !r.released &&
            r.force == (if s then force else st.force) &&
            r.countDown == (if s then 0 else st.countDown) &&
            r.count == (if s && !unconditional then st.count + 1 else st.count) &&
            (s ==> r.mode && !r.prevMode) &&
            (!s ==> r.prevMode == st.prevMode && (r.mode <==> st.mode || st.prevMode))
  {
  }

  /** An air jump never brings the count up to maxJumpCount. */
  lemma AirJumpStaysBelowMax(st: JumpState, force: real, unconditional: bool, duration: int, maxCount: int)
    requires Jumped(st, force, unconditional, false, duration, maxCount).count != st.count
    ensures Jumped(st, force, unconditional, false, duration, maxCount).count < maxCount
  {
  }

  /**
   * Holding the button does not jump again: a second Jump without a
   * ReleaseJump in between keeps the force, the count and the countdown
   * the first one left, whatever its arguments.
   */
  lemma HeldJumpIsInert(st: JumpState, f1: real, u1: bool, f2: real, u2: bool, onFloor: bool, duration: int, maxCount: int)
    ensures var once := Jumped(st, f1, u1, onFloor, duration, maxCount);
            var twice := Jumped(once, f2, u2, onFloor, duration, maxCount);
            twice.force == once.force && twice.count == once.count && twice.countDown == once.countDown &&
            twice.prevMode == once.prevMode
  {
  }

  /** After a ReleaseJump an unconditional jump always starts. */
  lemma ReleaseEnablesJump(st: JumpState, onFloor: bool, duration: int, maxCount: int)
    ensures Starts(Released(st), true, onFloor, duration, maxCount)
    ensures Coherent(Released(st))
  {
  }

  /** Jump, ReleaseJump and the bookkeeping of PostUpdate all keep Coherent. */
  lemma CoherentKept(st: JumpState, force: real, unconditional: bool, onFloor: bool, duration: int, maxCount: int)
    requires Coherent(st)
    ensures Coherent(Jumped(st, force, unconditional, onFloor, duration, maxCount))
    ensures Coherent(Released(st))
    ensures Coherent(Ticked(st, onFloor))
  {
  }

  /**
   * After PostUpdate no jump is held, GetIsJumping reports whether one was
   * held in the frame, the countdown has advanced by one frame, and the
   * count is zero on a floor and unchanged in the air.
   */
  lemma TickEffect(st: JumpState, onFloor: bool)
    ensures var r := Ticked(st, onFloor);
            !r.mode && (r.prevMode <==> st.mode) && r.countDown == st.countDown + 1 &&
            (onFloor ==> r.count == 0) && (!onFloor ==> r.count == st.count) &&
            r.released == st.released && r.force == st.force
  {
  }

  /**
   * A grounded jump waits for its predecessor: right after any jump starts,
   * no grounded jump can start again until more than `duration` frames have
   * been counted by PostUpdate.
   */
  lemma {:induction false} GroundedJumpWaits(st: JumpState, floors: seq<bool>, duration: int, maxCount: int)
    requires st.countDown == 0 && 0 <= duration && |floors| <= duration
    ensures Ticks(st, floors).countDown == |floors|
    ensures !Starts(Ticks(st, floors), false, true, duration, maxCount)
  {
    if floors != [] {
      GroundedJumpWaits(st, floors[..|floors| - 1], duration, maxCount);
    }
  }

  /** PostUpdate applied frame by frame, with the floor probe's outcome in each frame. */
  function Ticks(st: JumpState, floors: seq<bool>): JumpState
  {
    if floors == [] then st else Ticked(Ticks(st, floors[..|floors| - 1]), floors[|floors| - 1])
  }

  // ================================================================ vertical motion

  /** The vertical velocity after the jump step of PostUpdate: the first frame of a jump launches along up. */
  function Launched(st: JumpState, vertical: Vec, up: Vec): Vec
  {
    if st.mode && !st.prevMode then Scale(up, st.force) else vertical
  }

  /**
   * The factor on gravity in this frame: jumpGravityMultiplier while a held
   * jump still rises, jumpFallGravityMultiplier while the body rises with no
   * jump held, and 1 otherwise (also on the launch frame).
   */
  function GravityFactor(st: JumpState, vertical: Vec, up: Vec, jumpMultiplier: real, fallMultiplier: real): real
  {
    if st.mode then
      if !st.prevMode then 1.0
      else if Dot(vertical, up) > 0.0 then jumpMultiplier else 1.0
    else if Dot(vertical, up) > 0.0 then fallMultiplier else 1.0
  }

  /** A launch moves along a unit up direction with exactly the jump force. */
  lemma LaunchSpeed(st: JumpState, vertical: Vec, up: Vec)
    requires st.mode && !st.prevMode && LengthSquared(up) == 1.0
    ensures Dot(Launched(st, vertical, up), up) == st.force
  {
    DotLaws(up, up, up, st.force);
  }

  /** The rising and falling flags. */
  datatype Airborne = Airborne(rising: bool, falling: bool)

  /**
   * The flags after PostUpdate: cleared on a floor; otherwise falling while
   * moving against up, rising while moving along it, and kept when still.
   */
  function Flagged(a: Airborne, onFloor: bool, vertical: Vec, up: Vec): (r: Airborne)
    ensures onFloor ==> !r.rising && !r.falling
    ensures !onFloor && Dot(vertical, up) < 0.0 ==> r.falling && !r.rising
    ensures !onFloor && Dot(vertical, up) > 0.0 ==> r.rising && !r.falling
    ensures !onFloor && Dot(vertical, up) == 0.0 ==> r == a
  {
    if onFloor then Airborne(false, false)
    else if Dot(vertical, up) < 0.0 then Airborne(false, true)
    else if Dot(vertical, up) > 0.0 then Airborne(true, false)
    else a
  }

  /** The body is never both rising and falling, and PostUpdate keeps it so. */
  lemma FlagsExclusive(a: Airborne, onFloor: bool, vertical: Vec, up: Vec)
    requires !(a.rising && a.falling)
    ensures !(Flagged(a, onFloor, vertical, up).rising && Flagged(a, onFloor, vertical, up).falling)
  {
  }

  /**
   * The vertical step of PostUpdate: the new vertical velocity and the
   * displacement it applies. Moving into a floor or a ceiling stops the
   * body; otherwise it moves by its velocity and gravity is added after.
   */
  function VerticalStep(onFloor: bool, onCeiling: bool, vertical: Vec, up: Vec, gravity: Vec): (r: (Vec, Vec))
    ensures onFloor && Dot(vertical, up) < 0.0 ==> r == (Zero(), Zero())
    ensures onCeiling && Dot(vertical, up) > 0.0 ==> r == (Zero(), Zero())
    ensures !(onFloor && Dot(vertical, up) < 0.0) && !(onCeiling && Dot(vertical, up) > 0.0) ==>
              r.1 == vertical && Sub(r.0, r.1) == gravity
  {
    if onFloor && Dot(vertical, up) < 0.0 then (Zero(), Zero())
    else if onCeiling && Dot(vertical, up) > 0.0 then (Zero(), Zero())
    else (Add(vertical, gravity), vertical)
  }

  // ================================================================ horizontal motion

  /** Below this speed on both axes an idle body stops outright. */
  const STOP_SPEED: real := 0.001

  /**
   * The horizontal velocity after PostUpdate's walking step: idle, it snaps
   * to zero when slow and otherwise loses `decel` of itself; walking, it
   * closes `accel` of the gap to walkSpeed along the side's direction.
   */
  function Horizontal(h: Vec, side: int, walkSpeed: real, right: Vec, accel: real, decel: real): Vec
  {
    if side == 0 then
      if Abs(h.x) < STOP_SPEED && Abs(h.y) < STOP_SPEED then Zero()
      else Add(h, Scale(Neg(h), decel))
    else
      Add(h, Scale(Sub(Scale(right, walkSpeed * side as real), h), accel))
  }

  /** A scalar `x` that loses a share `d` in [0, 1] of itself does not grow. */
  lemma ShrinkScalar(x: real, d: real)
    requires 0.0 <= d <= 1.0
    ensures Abs(x + -x * d) <= Abs(x)
  {
    assert x + -x * d == x * (1.0 - d);
    if x >= 0.0 {
      Reals.ProductNonnegative(x, 1.0 - d);
    } else {
      Reals.ProductNonnegative(-x, 1.0 - d);
      assert x * (1.0 - d) == -((-x) * (1.0 - d));
    }
  }

  /** A scalar `x` that moves a share `a` in [0, 1] of the way to `t` does not get further from it. */
  lemma ApproachScalar(x: real, t: real, a: real)
    requires 0.0 <= a <= 1.0
    ensures Abs(t - (x + (t - x) * a)) <= Abs(t - x)
  {
    assert t - (x + (t - x) * a) == (t - x) * (1.0 - a);
    ShrinkScalar(t - x, a);
  }

  /** An idle body with a deceleration rate in [0, 1] never speeds up on either axis. */
  lemma IdleSlowsDown(h: Vec, walkSpeed: real, right: Vec, accel: real, decel: real)
    requires 0.0 <= decel <= 1.0
    ensures Abs(Horizontal(h, 0, walkSpeed, right, accel, decel).x) <= Abs(h.x)
    ensures Abs(Horizontal(h, 0, walkSpeed, right, accel, decel).y) <= Abs(h.y)
  {
    ShrinkScalar(h.x, decel);
    ShrinkScalar(h.y, decel);
  }

  /**
   * A walking body with an acceleration rate in [0, 1] gets no further from
   * its target velocity on either axis, and reaches it at rate 1.
   */
  lemma WalkApproachesTarget(h: Vec, side: int, walkSpeed: real, right: Vec, accel: real, decel: real)
    requires side != 0 && 0.0 <= accel <= 1.0
    ensures var t := Scale(right, walkSpeed * side as real);
            var r := Horizontal(h, side, walkSpeed, right, accel, decel);
            Abs(t.x - r.x) <= Abs(t.x - h.x) && Abs(t.y - r.y) <= Abs(t.y - h.y) &&
            (accel == 1.0 ==> r == t)
  {
    var t := Scale(right, walkSpeed * side as real);
    ApproachScalar(h.x, t.x, accel);
    ApproachScalar(h.y, t.y, accel);
  }

  // ================================================================ the body

  class Platformer {
    const rigid: RigidBodies.RigidBody
    var onFloor: bool
    var onCeiling: bool
    var maxFloorAngle: real
    var gravity: Vec
    var gravityMultiplier: real
    var upDirection: Vec
    var rightDirection: Vec
    var walkSpeed: real
    var horizontalVelocity: Vec
    var verticalVelocity: Vec
    var isFalling: bool
    var isRising: bool
    var walkSide: int
    var walkAccelerationRate: real
    var walkDecelerationRate: real
    var jumpMode: bool
    var prevJumpMode: bool
    var jumpReleased: bool
    var jumpForce: real
    var maxJumpCount: int
    var currentJumpCount: int
    var jumpDurationFrameCount: int
    var jumpFrameCountDown: int
    var jumpGravityMultiplier: real
    var jumpFallGravityMultiplier: real

    /**
     * QPlatformerBody(): a rigid body made kinematic, with kinematic
     * collisions allowed, its rotation fixed, no friction and a static
     * friction of 0.5; the controller fields take their declared defaults.
     * `released` is the initial jumpReleased, which no declaration fixes.
     */
    constructor(pointer: nat, released: bool)
      ensures fresh(rigid) && fresh(rigid.body) && rigid.body.id == pointer
      ensures rigid.body.isKinematic && rigid.body.allowKinematicCollisions && rigid.fixedRotation
      ensures rigid.body.friction == 0.0 && rigid.body.staticFriction == 0.5
      ensures rigid.body.simulationModel == RigidBody && rigid.body.bodyType == Rigid
      ensures !onFloor && !onCeiling && maxFloorAngle == DEFAULT_MAX_FLOOR_ANGLE
      ensures gravity == Vec(0.0, 0.3) && gravityMultiplier == 1.0
      ensures upDirection == UpDir() && rightDirection == RightDir()
      ensures walkSpeed == 3.0 && walkSide == 0 && walkAccelerationRate == 0.1 && walkDecelerationRate == 0.1
      ensures horizontalVelocity == Zero() && verticalVelocity == Zero() && !isFalling && !isRising
      ensures Jumping() == JumpState(false, false, released, 5.0, 0, 0)
      ensures maxJumpCount == 2 && jumpDurationFrameCount == 30
      ensures jumpGravityMultiplier == 0.4 && jumpFallGravityMultiplier == 1.0
      ensures Valid()
    {
      rigid := new RigidBodies.RigidBody(pointer);
      onFloor, onCeiling, maxFloorAngle := false, false, DEFAULT_MAX_FLOOR_ANGLE;
      gravity, gravityMultiplier, upDirection, rightDirection := Vec(0.0, 0.3), 1.0, UpDir(), RightDir();
      walkSpeed, horizontalVelocity, verticalVelocity := 3.0, Zero(), Zero();
      isFalling, isRising, walkSide := false, false, 0;
      walkAccelerationRate, walkDecelerationRate := 0.1, 0.1;
      jumpMode, prevJumpMode, jumpReleased, jumpForce := false, false, released, 5.0;
      maxJumpCount, currentJumpCount, jumpDurationFrameCount, jumpFrameCountDown := 2, 0, 30, 0;
      jumpGravityMultiplier, jumpFallGravityMultiplier := 0.4, 1.0;
      new;
      rigid.body.isKinematic := true;
      rigid.body.allowKinematicCollisions := true;
      rigid.fixedRotation := true;
      rigid.body.friction := 0.0;
      rigid.body.staticFriction := 0.5;
    }

    /** The jump fields as one value. */
    function Jumping(): JumpState
      reads this`jumpMode, this`prevJumpMode, this`jumpReleased, this`jumpForce, this`currentJumpCount,
            this`jumpFrameCountDown
    {
      JumpState(jumpMode, prevJumpMode, jumpReleased, jumpForce, currentJumpCount, jumpFrameCountDown)
    }

    /** The invariant the controller keeps: a coherent jump state, and never both rising and falling. */
    predicate Valid()
      reads this`jumpMode, this`prevJumpMode, this`jumpReleased, this`jumpForce, this`currentJumpCount,
            this`jumpFrameCountDown, this`isRising, this`isFalling
    {
      Coherent(Jumping()) && !(isRising && isFalling)
    }

    /** GetIsJumping: a jump was held in the last frame. */
    function IsJumping(): (r: bool)
      reads this`prevJumpMode
      ensures r <==> prevJumpMode
    {
      prevJumpMode
    }

    /**
     * SetGravity: stores the gravity, points up against it and right a
     * quarter turn from up; right is always perpendicular to up.
     */
    method SetGravity(num: Numerics, value: Vec) returns (r: Platformer)
      modifies this`gravity, this`upDirection, this`rightDirection
      ensures r == this && gravity == value
      ensures upDirection == Neg(Normalized(num, value)) && rightDirection == Neg(Perpendicular(upDirection))
      ensures Dot(rightDirection, upDirection) == 0.0
    {
      gravity := value;
      upDirection := Neg(Normalized(num, gravity));
      rightDirection := Neg(Perpendicular(upDirection));
      PerpendicularLaws(upDirection);
      return this;
    }

    /** Walk: the side the body walks to, 0 for none. */
    method Walk(side: int) returns (r: Platformer)
      modifies this`walkSide
      ensures r == this && walkSide == side
    {
      walkSide := side;
      return this;
    }

    /** Jump: one step of the jump state machine; the body keeps Valid. */
    method Jump(force: real, unconditional: bool) returns (r: Platformer)
      modifies this`jumpMode, this`prevJumpMode, this`jumpReleased, this`jumpForce, this`currentJumpCount,
               this`jumpFrameCountDown
      ensures r == this
      ensures Jumping() == Jumped(old(Jumping()), force, unconditional, onFloor, jumpDurationFrameCount, maxJumpCount)
      ensures old(Valid()) ==> Valid()
    {
      if jumpReleased {
        if unconditional {
          jumpMode := true;
          prevJumpMode := false;
          jumpForce := force;
          jumpFrameCountDown := 0;
        } else if onFloor && jumpFrameCountDown > jumpDurationFrameCount {
          prevJumpMode := false;
          jumpMode := true;
          jumpForce := force;
          jumpFrameCountDown := 0;
          currentJumpCount := currentJumpCount + 1;
        } else if !onFloor && currentJumpCount + 1 < maxJumpCount && !prevJumpMode {
          jumpMode := true;
          prevJumpMode := false;
          jumpForce := force;
          jumpFrameCountDown := 0;
          currentJumpCount := currentJumpCount + 1;
        }
      } else {
        if prevJumpMode {
          jumpMode := true;
        }
      }
      jumpReleased := false;
      return this;
    }

    /** ReleaseJump: lets go of the button; the body keeps Valid. */
    method ReleaseJump() returns (r: Platformer)
      modifies this`jumpMode, this`prevJumpMode, this`jumpReleased
      ensures r == this
      ensures Jumping() == Released(old(Jumping()))
      ensures old(Valid()) ==> Valid()
    {
      prevJumpMode := false;
      jumpMode := false;
      jumpReleased := true;
      return this;
    }

    /**
     * The controller part of PostUpdate, given whether the floor and the
     * ceiling probes found anything: the jump launch and the gravity factor,
     * the jump bookkeeping, the rising and falling flags, the vertical step
     * (returning the displacement it applies) and the walking step. The body
     * keeps Valid.
     */
    method PostUpdate(floor: bool, ceiling: bool) returns (displacement: Vec)
      modifies this`jumpMode, this`prevJumpMode, this`jumpFrameCountDown, this`currentJumpCount,
               this`onFloor, this`onCeiling, this`isRising, this`isFalling,
               this`verticalVelocity, this`horizontalVelocity
      ensures Jumping() == Ticked(old(Jumping()), floor)
      ensures onFloor == floor && onCeiling == ceiling
      ensures var launched := old(Launched(Jumping(), verticalVelocity, upDirection));
              var g := Scale(Scale(gravity, gravityMultiplier),
                             old(GravityFactor(Jumping(), verticalVelocity, upDirection,
                                               jumpGravityMultiplier, jumpFallGravityMultiplier)));
              Airborne(isRising, isFalling) == Flagged(old(Airborne(isRising, isFalling)), floor, launched, upDirection) &&
              (verticalVelocity, displacement) == VerticalStep(floor, ceiling, launched, upDirection, g)
      ensures horizontalVelocity == Horizontal(old(horizontalVelocity), walkSide, walkSpeed, rightDirection,
                                               walkAccelerationRate, walkDecelerationRate)
      ensures old(Valid()) ==> Valid()
    {
      ghost var st := Jumping();
      ghost var flags := Airborne(isRising, isFalling);
      var gravityAmount := AddJumpVelocity();
      ghost var launched := verticalVelocity;
      Probe(floor, ceiling);
      assert Jumping() == Ticked(st, floor);
      assert Airborne(isRising, isFalling) == Flagged(flags, floor, launched, upDirection);
      displacement := MoveVertically(gravityAmount);
      MoveHorizontally();
    }

    /**
     * The jump step of PostUpdate: launch on the first frame of a jump,
     * choose the gravity of the frame, and pass the jump on to the next frame.
     */
    method AddJumpVelocity() returns (gravityAmount: Vec)
      modifies this`jumpMode, this`prevJumpMode, this`jumpFrameCountDown, this`verticalVelocity
      ensures verticalVelocity == old(Launched(Jumping(), verticalVelocity, upDirection))
      ensures gravityAmount == Scale(Scale(gravity, gravityMultiplier),
                                     old(GravityFactor(Jumping(), verticalVelocity, upDirection,
                                                       jumpGravityMultiplier, jumpFallGravityMultiplier)))
      ensures Jumping() == old(Jumping()).(prevMode := old(jumpMode), mode := false,
                                           countDown := old(jumpFrameCountDown) + 1)
    {
      gravityAmount := Scale(gravity, gravityMultiplier);
      if jumpMode {
        if !prevJumpMode {
          verticalVelocity := Scale(upDirection, jumpForce);
        } else if Dot(verticalVelocity, upDirection) > 0.0 {
          gravityAmount := Scale(gravityAmount, jumpGravityMultiplier);
        }
      } else if Dot(verticalVelocity, upDirection) > 0.0 {
        gravityAmount := Scale(gravityAmount, jumpFallGravityMultiplier);
      }
      prevJumpMode := jumpMode;
      jumpMode := false;
      jumpFrameCountDown := jumpFrameCountDown + 1;
    }

    /**
     * The floor and ceiling probes of PostUpdate, given their outcome: the
     * rising and falling flags follow the vertical velocity, and a floor
     * resets the jump count.
     */
    method Probe(floor: bool, ceiling: bool)
      modifies this`onFloor, this`onCeiling, this`isRising, this`isFalling, this`currentJumpCount
      ensures onFloor == floor && onCeiling == ceiling
      ensures Airborne(isRising, isFalling) == Flagged(old(Airborne(isRising, isFalling)), floor, verticalVelocity, upDirection)
      ensures Jumping() == old(Jumping()).(count := if floor then 0 else old(currentJumpCount))
    {
      onFloor := floor;
      onCeiling := ceiling;
      if onFloor {
        isRising := false;
        isFalling := false;
        currentJumpCount := 0;
      } else if Dot(verticalVelocity, upDirection) < 0.0 {
        isFalling := true;
        isRising := false;
      } else if Dot(verticalVelocity, upDirection) > 0.0 {
        isFalling := false;
        isRising := true;
      }
    }

    /** The vertical step of PostUpdate, returning the displacement it applies. */
    method MoveVertically(gravityAmount: Vec) returns (displacement: Vec)
      modifies this`verticalVelocity
      ensures (verticalVelocity, displacement) ==
              VerticalStep(onFloor, onCeiling, old(verticalVelocity), upDirection, gravityAmount)
    {
      if onFloor && Dot(verticalVelocity, upDirection) < 0.0 {
        verticalVelocity := Zero();
        displacement := Zero();
      } else if onCeiling && Dot(verticalVelocity, upDirection) > 0.0 {
        verticalVelocity := Zero();
        displacement := Zero();
      } else {
        displacement := verticalVelocity;
        verticalVelocity := Add(verticalVelocity, gravityAmount);
      }
    }

    /** The walking step of PostUpdate. */
    method MoveHorizontally()
      modifies this`horizontalVelocity
      ensures horizontalVelocity == Horizontal(old(horizontalVelocity), walkSide, walkSpeed, rightDirection,
                                               walkAccelerationRate, walkDecelerationRate)
    {
      if walkSide == 0 {
        if Abs(horizontalVelocity.x) < STOP_SPEED && Abs(horizontalVelocity.y) < STOP_SPEED {
          horizontalVelocity := Zero();
        } else {
          horizontalVelocity := Add(horizontalVelocity, Scale(Neg(horizontalVelocity), walkDecelerationRate));
        }
      } else {
        horizontalVelocity := Add(horizontalVelocity,
                                  Scale(Sub(Scale(rightDirection, walkSpeed * walkSide as real), horizontalVelocity),
                                        walkAccelerationRate));
      }
    }
  }
}
