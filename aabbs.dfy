/**
 * QAABB (qaabb.h, qaabb.cpp): axis-aligned bounding boxes. A box is a value
 * here; the in-place setters SetMinMax and Fatten are modelled by the functions
 * that compute the box they leave behind.
 */
module AABBs {
  import opened Vectors
  import Reals

  /** A box and the size it caches. */
  datatype AABB = AABB(minPos: Vec, maxPos: Vec, size: Vec)

  /** The cached size is max - min. */
  predicate Valid(b: AABB)
  {
    b.size == Sub(b.maxPos, b.minPos)
  }

  /** min <= max on both axes. */
  predicate Proper(b: AABB)
  {
    b.minPos.x <= b.maxPos.x && b.minPos.y <= b.maxPos.y
  }

  /** The two-point constructor, and SetMinMax, which stores the same three fields. */
  function Make(minPosition: Vec, maxPosition: Vec): (b: AABB)
    ensures Valid(b)
    ensures b.minPos == minPosition && b.maxPos == maxPosition
  {
    AABB(minPosition, maxPosition, Sub(maxPosition, minPosition))
  }

  function GetPerimeter(b: AABB): real
  {
    2.0 * (b.size.x + b.size.y)
  }

  function GetArea(b: AABB): real
  {
    b.size.x * b.size.y
  }

  function GetCenterPosition(b: AABB): Vec
  {
    Scale(Add(b.minPos, b.maxPos), 0.5)
  }

  /** `b` contains `other`. */
  predicate IsContain(b: AABB, other: AABB)
  {
    b.minPos.x <= other.minPos.x && b.minPos.y <= other.minPos.y &&
    b.maxPos.x >= other.maxPos.x && b.maxPos.y >= other.maxPos.y
  }

  /** The boxes touch or overlap (closed intervals on both axes). */
  predicate IsCollidingWith(b: AABB, other: AABB)
  {
    b.minPos.x <= other.maxPos.x && b.maxPos.x >= other.minPos.x &&
    b.minPos.y <= other.maxPos.y && b.maxPos.y >= other.minPos.y
  }

  /** The box spanning both boxes. */
  function Combine(b1: AABB, b2: AABB): (r: AABB)
    ensures Valid(r)
    ensures IsContain(r, b1) && IsContain(r, b2)
  {
    var minX := if b1.minPos.x < b2.minPos.x then b1.minPos.x else b2.minPos.x;
    var minY := if b1.minPos.y < b2.minPos.y then b1.minPos.y else b2.minPos.y;
    var maxX := if b1.maxPos.x > b2.maxPos.x then b1.maxPos.x else b2.maxPos.x;
    var maxY := if b1.maxPos.y > b2.maxPos.y then b1.maxPos.y else b2.maxPos.y;
    Make(Vec(minX, minY), Vec(maxX, maxY))
  }

  /** The box grown by `amount` on every side; Fatten stores the same box in place. */
  function Fatted(b: AABB, amount: real): (r: AABB)
    ensures Valid(r)
    ensures 0.0 <= amount ==> IsContain(r, b)
    ensures amount <= 0.0 ==> IsContain(b, r)
  {
    var amountVec := Vec(amount, amount);
    Make(Sub(b.minPos, amountVec), Add(b.maxPos, amountVec))
  }

  // ---------------------------------------------------------------- box laws

  /** The cached size turns GetArea into the product of the side lengths, which a proper box keeps nonnegative. */
  lemma AreaAndCenter(b: AABB)
    requires Valid(b)
    ensures GetArea(b) == (b.maxPos.x - b.minPos.x) * (b.maxPos.y - b.minPos.y)
    ensures Proper(b) ==> 0.0 <= GetArea(b)
    ensures GetCenterPosition(b) == Vec((b.minPos.x + b.maxPos.x) / 2.0, (b.minPos.y + b.maxPos.y) / 2.0)
  {
    if Proper(b) {
      Reals.ProductNonnegative(b.size.x, b.size.y);
    }
  }

  lemma CollidingSymmetric(a: AABB, b: AABB)
    ensures IsCollidingWith(a, b) <==> IsCollidingWith(b, a)
  {
  }

  lemma CollidingReflexive(a: AABB)
    ensures IsCollidingWith(a, a) <==> Proper(a)
  {
  }

  lemma ContainReflexive(a: AABB)
    ensures IsContain(a, a)
  {
  }

  lemma ContainTransitive(a: AABB, b: AABB, c: AABB)
    requires IsContain(a, b) && IsContain(b, c)
    ensures IsContain(a, c)
  {
  }

  /** Anything a box collides with collides with every box containing it. */
  lemma ContainKeepsColliding(outer: AABB, inner: AABB, other: AABB)
    requires IsContain(outer, inner) && IsCollidingWith(inner, other)
    ensures IsCollidingWith(outer, other)
  {
  }

  /** Combine is the least box containing both arguments. */
  lemma CombineSmallest(b1: AABB, b2: AABB, c: AABB)
    requires IsContain(c, b1) && IsContain(c, b2)
    ensures IsContain(c, Combine(b1, b2))
  {
  }

  lemma CombineSymmetric(b1: AABB, b2: AABB)
    ensures Combine(b1, b2) == Combine(b2, b1)
  {
  }

  // ---------------------------------------------------------------- boxes of particles

  /** What a box computation needs to know of a particle: its global position and radius. */
  datatype Disc = Disc(pos: Vec, radius: real)

  /** Radii of at most 0.5 count as points. */
  function EffectiveRadius(radius: real): (r: real)
    ensures 0.0 <= r
    ensures r == 0.0 || r == radius
  {
    if radius > 0.5 then radius else 0.0
  }

  /** QParticle::UpdateAABB: the particle's position grown by its raw radius. */
  function ParticleBox(d: Disc): (r: AABB)
    ensures Valid(r)
    ensures 0.0 <= d.radius ==> Proper(r)
    ensures Add(r.minPos, r.maxPos) == Scale(d.pos, 2.0)
  {
    Make(Vec(d.pos.x - d.radius, d.pos.y - d.radius), Vec(d.pos.x + d.radius, d.pos.y + d.radius))
  }

  /** The bounds one particle contributes to a collection's box. */
  function DiscBox(d: Disc): (r: AABB)
    ensures Proper(r)
  {
    ParticleBox(Disc(d.pos, EffectiveRadius(d.radius)))
  }

  /** The four bounds of a disc's box. */
  lemma DiscBoxBounds(d: Disc)
    ensures var r, p := EffectiveRadius(d.radius), DiscBox(d);
            p.minPos.x == d.pos.x - r && p.minPos.y == d.pos.y - r &&
            p.maxPos.x == d.pos.x + r && p.maxPos.y == d.pos.y + r
  {
  }

  /** The inverted start box of the running minimum / maximum. */
  function Sentinel(s: real): AABB
  {
    Make(Vec(s, s), Vec(-s, -s))
  }

  /** 9999999, the start value GetAABBFromParticles uses. */
  const PARTICLES_SENTINEL: real := 9999999.0

  /** One step of the bounds loop: each running bound moves only when strictly exceeded. */
  function Extend(b: AABB, d: Disc): (r: AABB)
    ensures Valid(r)
    ensures IsContain(r, b) && IsContain(r, DiscBox(d))
  {
    var p := DiscBox(d);
    Make(Vec(if p.minPos.x < b.minPos.x then p.minPos.x else b.minPos.x,
             if p.minPos.y < b.minPos.y then p.minPos.y else b.minPos.y),
         Vec(if p.maxPos.x > b.maxPos.x then p.maxPos.x else b.maxPos.x,
             if p.maxPos.y > b.maxPos.y then p.maxPos.y else b.maxPos.y))
  }

  /** The box the bounds loop leaves after visiting `ds` in order, starting from the sentinel `s`. */
  function Enclose(ds: seq<Disc>, s: real): AABB
  {
    if ds == [] then Sentinel(s) else Extend(Enclose(ds[..|ds| - 1], s), ds[|ds| - 1])
  }

  /** Visiting one more particle extends the box by that particle. */
  lemma EncloseSnoc(ds: seq<Disc>, n: nat, s: real)
    requires n < |ds|
    ensures Enclose(ds[..n + 1], s) == Extend(Enclose(ds[..n], s), ds[n])
  {
    assert ds[..n + 1][..n] == ds[..n];
  }

  /** Visiting `d` after `ds`: each bound of the box moves to the disc's bound when that one is further out. */
  lemma EncloseStep(ds: seq<Disc>, d: Disc, s: real)
    ensures var b, p, e := Enclose(ds, s), DiscBox(d), Enclose(ds + [d], s);
            e.minPos.x == (if p.minPos.x < b.minPos.x then p.minPos.x else b.minPos.x) &&
            e.minPos.y == (if p.minPos.y < b.minPos.y then p.minPos.y else b.minPos.y) &&
            e.maxPos.x == (if p.maxPos.x > b.maxPos.x then p.maxPos.x else b.maxPos.x) &&
            e.maxPos.y == (if p.maxPos.y > b.maxPos.y then p.maxPos.y else b.maxPos.y)
  {
    assert (ds + [d])[..|ds|] == ds;
  }

  /** QAABB::GetAABBFromParticles. */
  method GetAABBFromParticles(ds: seq<Disc>) returns (box: AABB)
    ensures box == Enclose(ds, PARTICLES_SENTINEL)
    ensures ds == [] ==> box == Make(Vec(9999999.0, 9999999.0), Vec(-9999999.0, -9999999.0))
    ensures ds != [] ==> Proper(box)
    ensures forall i :: 0 <= i < |ds| ==> IsContain(box, DiscBox(ds[i]))
    ensures ds != [] && WithinSentinel(ds, PARTICLES_SENTINEL) ==> Attained(box, ds)
  {
    var minX, minY := PARTICLES_SENTINEL, PARTICLES_SENTINEL;
    var maxX, maxY := -PARTICLES_SENTINEL, -PARTICLES_SENTINEL;
    for n := 0 to |ds|
      invariant minX == Enclose(ds[..n], PARTICLES_SENTINEL).minPos.x
      invariant minY == Enclose(ds[..n], PARTICLES_SENTINEL).minPos.y
      invariant maxX == Enclose(ds[..n], PARTICLES_SENTINEL).maxPos.x
      invariant maxY == Enclose(ds[..n], PARTICLES_SENTINEL).maxPos.y
    {
      EncloseSnoc(ds, n, PARTICLES_SENTINEL);
      var r := EffectiveRadius(ds[n].radius);
      var pMinX := ds[n].pos.x - r;
      var pMinY := ds[n].pos.y - r;
      var pMaxX := ds[n].pos.x + r;
      var pMaxY := ds[n].pos.y + r;
      if pMinX < minX {
        minX := pMinX;
      }
      if pMinY < minY {
        minY := pMinY;
      }
      if pMaxX > maxX {
        maxX := pMaxX;
      }
      if pMaxY > maxY {
        maxY := pMaxY;
      }
    }
    assert ds[..|ds|] == ds;
    box := Make(Vec(minX, minY), Vec(maxX, maxY));
    EncloseContains(ds, PARTICLES_SENTINEL);
    if ds != [] {
      EncloseProper(ds, PARTICLES_SENTINEL);
      if WithinSentinel(ds, PARTICLES_SENTINEL) {
        EncloseTight(ds, PARTICLES_SENTINEL);
      }
    }
  }

  /** The collection's box contains every particle's box. */
  lemma {:induction false} EncloseContains(ds: seq<Disc>, s: real)
    ensures forall i :: 0 <= i < |ds| ==> IsContain(Enclose(ds, s), DiscBox(ds[i]))
  {
    if ds != [] {
      var front := ds[..|ds| - 1];
      EncloseContains(front, s);
      forall i | 0 <= i < |ds|
        ensures IsContain(Enclose(ds, s), DiscBox(ds[i]))
      {
        if i < |ds| - 1 {
          assert ds[i] == front[i];
          ContainTransitive(Enclose(ds, s), Enclose(front, s), DiscBox(ds[i]));
        }
      }
    }
  }

  /** A nonempty collection yields min <= max. */
  lemma EncloseProper(ds: seq<Disc>, s: real)
    requires ds != []
    ensures Proper(Enclose(ds, s))
  {
    EncloseContains(ds, s);
    assert IsContain(Enclose(ds, s), DiscBox(ds[0]));
  }

  /** Every particle box lies strictly inside the sentinel range. */
  predicate WithinSentinel(ds: seq<Disc>, s: real)
  {
    forall i :: 0 <= i < |ds| ==>
      -s < DiscBox(ds[i]).minPos.x && -s < DiscBox(ds[i]).minPos.y &&
      DiscBox(ds[i]).maxPos.x < s && DiscBox(ds[i]).maxPos.y < s
  }

  /** The four bounds of a box, numbered 0..3 and signed so that the loop minimises each of them. */
  function Bound(b: AABB, k: nat): real
    requires k < 4
  {
    match k
    case 0 => b.minPos.x
    case 1 => b.minPos.y
    case 2 => -b.maxPos.x
    case _ => -b.maxPos.y
  }

  /** Every bound of the box comes from some particle. */
  predicate Attained(b: AABB, ds: seq<Disc>)
  {
    forall k :: 0 <= k < 4 ==> exists i :: 0 <= i < |ds| && Bound(b, k) == Bound(DiscBox(ds[i]), k)
  }

  /** Extend takes the smaller of each signed bound. */
  lemma ExtendBound(b: AABB, d: Disc, k: nat)
    requires k < 4
    ensures Bound(Extend(b, d), k) ==
              if Bound(DiscBox(d), k) < Bound(b, k) then Bound(DiscBox(d), k) else Bound(b, k)
  {
  }

  /** The box is tight: each bound comes from some particle (for positions inside the sentinel range). */
  lemma {:induction false} EncloseTight(ds: seq<Disc>, s: real)
    requires ds != [] && WithinSentinel(ds, s)
    ensures Attained(Enclose(ds, s), ds)
  {
    var last := |ds| - 1;
    var front := ds[..last];
    var r := Enclose(ds, s);
    var p := DiscBox(ds[last]);
    if front != [] {
      assert WithinSentinel(front, s);
      EncloseTight(front, s);
    }
    forall k | 0 <= k < 4
      ensures exists i :: 0 <= i < |ds| && Bound(r, k) == Bound(DiscBox(ds[i]), k)
    {
      ExtendBound(Enclose(front, s), ds[last], k);
      if front == [] {
        assert Bound(Enclose(front, s), k) == s;
      }
      if Bound(r, k) != Bound(p, k) {
        var i :| 0 <= i < |front| && Bound(Enclose(front, s), k) == Bound(DiscBox(front[i]), k);
        assert front[i] == ds[i];
      }
    }
  }
}
