/**
 * The correction rules of the two distance constraints, stated on values:
 * QSpring::Update (qspring.cpp), which pulls two particles towards a rest
 * length, and QJoint::Update (qjoint.cpp), which pulls two anchor points of
 * rigid bodies towards a distance. The methods that move the particles and
 * bodies live in the engine module and apply exactly these displacements.
 */
module Constraints {
  import opened Vectors
  import opened Options
  import Reals

  // ---------------------------------------------------------------- springs

  /**
   * The displacements (for A, for B) QSpring::Update applies. The raw force
   * is (restLength - distance) along the unit vector from A to B; A gets its
   * negation. Outside the internal exception both halves are scaled by
   * 0.5 * rigidity; inside it only internal ends move, and only when the
   * spring is not compressed.
   */
  function SpringForces(num: Numerics, a: Vec, b: Vec, restLength: real, rigidity: real,
                        internalsException: bool, springInternal: bool,
                        aInternal: bool, bInternal: bool): (Vec, Vec)
  {
    var sv := Sub(b, a);
    var sl := Length(num, sv);
    SplitForce(Scale(Normalized(num, sv), restLength - sl), sl, restLength, rigidity,
               internalsException, springInternal, aInternal, bInternal)
  }

  /** How the raw force `force` of a spring of current length `sl` is shared between its ends. */
  function SplitForce(force: Vec, sl: real, restLength: real, rigidity: real,
                      internalsException: bool, springInternal: bool,
                      aInternal: bool, bInternal: bool): (Vec, Vec)
  {
    if internalsException && springInternal then
      if aInternal && !bInternal then
        (Scale(Neg(force), if sl < restLength then 0.0 else 0.5), Scale(force, 0.0))
      else if !aInternal && bInternal then
        (Scale(Neg(force), 0.0), Scale(force, if sl < restLength then 0.0 else 0.5))
      else if aInternal && bInternal then
        (Scale(Neg(force), if sl < restLength then 0.0 else 0.25),
         Scale(force, if sl < restLength then 0.0 else 0.25))
      else
        (Neg(force), force)
    else
      (Scale(Neg(force), 0.5 * rigidity), Scale(force, 0.5 * rigidity))
  }

  /** Outside the internal-only branches the two ends move by exact opposites. */
  lemma SpringForcesOpposite(num: Numerics, a: Vec, b: Vec, restLength: real, rigidity: real,
                             internalsException: bool, springInternal: bool,
                             aInternal: bool, bInternal: bool)
    requires !(internalsException && springInternal) || (!aInternal && !bInternal)
    ensures var (fa, fb) := SpringForces(num, a, b, restLength, rigidity, internalsException,
                                         springInternal, aInternal, bInternal);
            fa == Neg(fb)
  {
  }

  /**
   * The internal exception: a compressed spring moves nothing; a stretched
   * one moves an internal end against an external one by half the force and
   * two internal ends by a quarter each; an external end never moves.
   */
  lemma SpringInternalException(force: Vec, sl: real, restLength: real, rigidity: real,
                                aInternal: bool, bInternal: bool)
    requires aInternal || bInternal
    ensures var (fa, fb) := SplitForce(force, sl, restLength, rigidity, true, true, aInternal, bInternal);
            (sl < restLength ==> fa == Zero() && fb == Zero()) &&
            (!aInternal ==> fa == Zero()) &&
            (!bInternal ==> fb == Zero()) &&
            (restLength <= sl && aInternal && !bInternal ==> fa == Scale(Neg(force), 0.5)) &&
            (restLength <= sl && !aInternal && bInternal ==> fb == Scale(force, 0.5)) &&
            (restLength <= sl && aInternal && bInternal ==>
               fa == Scale(Neg(force), 0.25) && fb == Scale(force, 0.25))
  {
    ScaleByZero(force);
    ScaleByZero(Neg(force));
  }

  lemma ScaleByZero(v: Vec)
    ensures Scale(v, 0.0) == Zero()
  {
  }

  /** Scaling a vector scales its squared length by the square of the factor. */
  lemma ScaledLengthSquared(v: Vec, c: real)
    ensures LengthSquared(Scale(v, c)) == (c * c) * LengthSquared(v)
  {
    calc {
      LengthSquared(Scale(v, c));
      (v.x * c) * (v.x * c) + (v.y * c) * (v.y * c);
      (c * c) * (v.x * v.x + v.y * v.y);
    }
  }

  /** (L / l)^2 * l^2 = L^2 for l nonzero. */
  lemma QuotientSquare(restLength: real, l: real)
    requires l != 0.0
    ensures ((restLength / l) * (restLength / l)) * (l * l) == restLength * restLength
  {
    var c := restLength / l;
    Reals.QuotientTimes(restLength, l, c);
    calc {
      (c * c) * (l * l);
      (c * l) * (c * l);
      restLength * restLength;
    }
  }

  /**
   * Moving the separation `sv` by (L - l) along its unit vector, l being its
   * exact length, leaves a separation of squared length L * L.
   */
  lemma RestoredSeparation(sv: Vec, l: real, restLength: real)
    requires l != 0.0 && l * l == LengthSquared(sv)
    ensures LengthSquared(Add(sv, Scale(Vec(sv.x / l, sv.y / l), restLength - l))) == restLength * restLength
  {
    var c := restLength / l;
    var moved := Add(sv, Scale(Vec(sv.x / l, sv.y / l), restLength - l));
    ScaleRatio(sv.x, l, restLength);
    ScaleRatio(sv.y, l, restLength);
    assert moved == Scale(sv, c);
    ScaledLengthSquared(sv, c);
    QuotientSquare(restLength, l);
  }

  /** The unit vector of a separation of nonzero exact length l is the separation divided by l. */
  lemma UnitOf(num: Numerics, sv: Vec)
    requires LengthSquared(sv) != 0.0
    requires ExactSqrt(num, LengthSquared(sv))
    ensures var l := Length(num, sv);
            l != 0.0 && l * l == LengthSquared(sv) && Normalized(num, sv) == Vec(sv.x / l, sv.y / l)
  {
    assert sv.x != 0.0 || sv.y != 0.0;
  }

  /**
   * With rigidity 1, no internal exception and an exact square root, one
   * correction brings the two particles exactly to the rest distance (the
   * squared distance equals the squared rest length).
   */
  lemma SpringRestoresLength(num: Numerics, a: Vec, b: Vec, restLength: real,
                             springInternal: bool, aInternal: bool, bInternal: bool)
    requires LengthSquared(Sub(b, a)) != 0.0
    requires ExactSqrt(num, LengthSquared(Sub(b, a)))
    ensures var (fa, fb) := SpringForces(num, a, b, restLength, 1.0, false, springInternal, aInternal, bInternal);
            LengthSquared(Sub(Add(b, fb), Add(a, fa))) == restLength * restLength
  {
    var sv := Sub(b, a);
    var l := Length(num, sv);
    UnitOf(num, sv);
    var u := Vec(sv.x / l, sv.y / l);
    var force := Scale(u, restLength - l);
    var (fa, fb) := SpringForces(num, a, b, restLength, 1.0, false, springInternal, aInternal, bInternal);
    assert fa == Scale(Neg(force), 0.5) && fb == Scale(force, 0.5);
    assert Sub(Add(b, fb), Add(a, fa)) == Add(sv, force);
    RestoredSeparation(sv, l, restLength);
  }

  /** x + (x / l) * (L - l) = x * (L / l). */
  lemma ScaleRatio(x: real, l: real, restLength: real)
    requires l != 0.0
    ensures x + (x / l) * (restLength - l) == x * (restLength / l)
  {
    calc {
      x + (x / l) * (restLength - l);
      x + (x / l) * restLength - (x / l) * l;
      { Reals.DivTimes(x, l); }
      (x / l) * restLength;
      x * (restLength / l);
    }
  }

  // ---------------------------------------------------------------- joints

  /** What QJoint::Update decides before computing anything: stop, or correct with factor k. */
  datatype JointStep = NoCorrection | Correct(k: real)

  /**
   * The early exits and the factor k of QJoint::Update, from which bodies are
   * present and which of those are static.
   */
  function JointGate(hasA: bool, aStatic: bool, hasB: bool, bStatic: bool): (r: JointStep)
  {
    if hasA && aStatic && !hasB then NoCorrection
    else if hasB && bStatic && !hasA then NoCorrection
    else if hasA && hasB then
      if aStatic && bStatic then NoCorrection
      else if aStatic || bStatic then Correct(1.0)
      else Correct(0.5)
    else if hasA || hasB then Correct(1.0)
    else Correct(0.5)
  }

  /**
   * The decision table: no correction exactly when every present body is
   * static and at least one is present; k = 0.5 when both bodies are present
   * and dynamic (or neither is present), and 1 when exactly one of the
   * present bodies is dynamic.
   */
  lemma JointGateTable(hasA: bool, aStatic: bool, hasB: bool, bStatic: bool)
    ensures JointGate(hasA, aStatic, hasB, bStatic).NoCorrection? <==>
              (hasA || hasB) && (hasA ==> aStatic) && (hasB ==> bStatic)
    ensures JointGate(hasA, aStatic, hasB, bStatic) == Correct(0.5) <==>
              (hasA && hasB && !aStatic && !bStatic) || (!hasA && !hasB)
    ensures JointGate(hasA, aStatic, hasB, bStatic) == Correct(1.0) <==>
              (hasA && hasB && aStatic != bStatic) || (hasA != hasB && (hasA ==> !aStatic) && (hasB ==> !bStatic))
  {
  }

  /**
   * The force QJoint::Update gives body B (A gets its negation):
   * (distance - current) along the unit vector from anchor A to anchor B,
   * scaled by rigidity and k. A groove joint shorter than its distance is
   * left alone (None).
   */
  function JointForce(num: Numerics, anchorGlobalA: Vec, anchorGlobalB: Vec, distance: real,
                      rigidity: real, k: real, grooveEnabled: bool): (r: Option<Vec>)
    ensures r.None? <==> grooveEnabled && Length(num, Sub(anchorGlobalB, anchorGlobalA)) < distance
  {
    var diff := Sub(anchorGlobalB, anchorGlobalA);
    var currentDistance := Length(num, diff);
    if grooveEnabled && currentDistance < distance then None
    else Some(Scale(Scale(Scale(Normalized(num, diff), distance - currentDistance), rigidity), k))
  }

  /**
   * With rigidity 1, k = 0.5 and an exact square root, moving both anchors by
   * the joint forces makes their distance equal to the rest distance.
   */
  lemma JointRestoresDistance(num: Numerics, anchorA: Vec, anchorB: Vec, distance: real)
    requires LengthSquared(Sub(anchorB, anchorA)) != 0.0
    requires ExactSqrt(num, LengthSquared(Sub(anchorB, anchorA)))
    ensures var r := JointForce(num, anchorA, anchorB, distance, 1.0, 0.5, false);
            r.Some? && LengthSquared(Sub(Add(anchorB, r.value), Add(anchorA, Neg(r.value)))) == distance * distance
  {
    var sv := Sub(anchorB, anchorA);
    var l := Length(num, sv);
    UnitOf(num, sv);
    var u := Vec(sv.x / l, sv.y / l);
    var force := Scale(u, distance - l);
    var f := JointForce(num, anchorA, anchorB, distance, 1.0, 0.5, false).value;
    assert f == Scale(Scale(force, 1.0), 0.5);
    assert Sub(Add(anchorB, f), Add(anchorA, Neg(f))) == Add(sv, force);
    RestoredSeparation(sv, l, distance);
  }
}
