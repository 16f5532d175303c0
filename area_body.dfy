/**
 * QAreaBody (qareabody.h, qareabody.cpp): a body that never moves and never
 * answers a collision; it only keeps the set of bodies it currently overlaps
 * and reports each body entering and leaving that set. With `gravityFree` it
 * switches gravity off for the rigid bodies inside it and back on for the
 * bodies that leave.
 *
 * The enter and exit notifications (the OnCollisionEnter / OnCollisionExit
 * hooks and the two listeners) are foreign callbacks; the model records each
 * notification in `enterEvents` / `exitEvents`, in the order they fire.
 * QWorld::GetCollisions is not part of this model: CheckBodies is given the
 * set of bodies for which it returns at least one contact. The iteration
 * order of the std::unordered_set is unspecified; CheckBodies is given it as
 * a sequence listing the set once.
 */
module AreaBodies {
  import opened Vectors
  import opened Engine
  import Seqs

  /** A collided body leaves the area at a check when it is disabled or touches the area no more. */
  predicate Leaves(b: Body, touching: set<Body>)
    reads b`enabled
  {
    !b.enabled || b !in touching
  }

  /** The blacklist CheckBodies gathers, as evidently intended: every leaving body once, in visiting order. */
  function Leaving(order: seq<Body>, touching: set<Body>): (r: seq<Body>)
    reads (set b | b in order)`enabled
    ensures forall b :: b in r ==> b in order && Leaves(b, touching)
    ensures forall i :: 0 <= i < |order| && Leaves(order[i], touching) ==> order[i] in r
    ensures Seqs.Distinct(order) ==> Seqs.Distinct(r)
  {
    if order == [] then []
    else
      var last := order[|order| - 1];
      Leaving(order[..|order| - 1], touching) + (if Leaves(last, touching) then [last] else [])
  }

  /** Over a visiting order without repeats, each leaving body is listed exactly once. */
  lemma {:induction false} LeavingOnce(order: seq<Body>, touching: set<Body>)
    requires Seqs.Distinct(order)
    ensures forall b :: multiset(Leaving(order, touching))[b] == if b in order && Leaves(b, touching) then 1 else 0
  {
    if order != [] {
      var n := |order| - 1;
      assert Seqs.Distinct(order[..n]);
      LeavingOnce(order[..n], touching);
      assert order == order[..n] + [order[n]];
      assert order[n] !in order[..n];
    }
  }

  /**
   * The blacklist as written: a disabled body is pushed once by the
   * enabled test and once more by the enabled-or-no-contact test.
   */
  function BlackListAsWritten(order: seq<Body>, touching: set<Body>): (r: seq<Body>)
    reads (set b | b in order)`enabled
    ensures forall b :: b in r ==> b in order && Leaves(b, touching)
    ensures forall i :: 0 <= i < |order| && Leaves(order[i], touching) ==> order[i] in r
  {
    if order == [] then []
    else
      var last := order[|order| - 1];
      BlackListAsWritten(order[..|order| - 1], touching)
        + (if !last.enabled then [last] else [])
        + (if Leaves(last, touching) then [last] else [])
  }

  /** How often the as-written blacklist names each body: twice if disabled, once if only out of contact. */
  lemma {:induction false} BlackListAsWrittenCounts(order: seq<Body>, touching: set<Body>)
    requires Seqs.Distinct(order)
    ensures forall b :: multiset(BlackListAsWritten(order, touching))[b] ==
                        if b !in order then 0 else if !b.enabled then 2 else if b !in touching then 1 else 0
  {
    if order != [] {
      var n := |order| - 1;
      assert Seqs.Distinct(order[..n]);
      BlackListAsWrittenCounts(order[..n], touching);
      assert order == order[..n] + [order[n]];
      assert order[n] !in order[..n];
    }
  }

  /**
   * The drain loop fires one exit notification per blacklist entry, so as
   * written a disabled body inside the area is reported as exiting twice,
   * while the intended blacklist reports it once.
   */
  lemma DisabledBodyExitsTwice(order: seq<Body>, touching: set<Body>, b: Body)
    requires Seqs.Distinct(order) && b in order && !b.enabled
    ensures multiset(BlackListAsWritten(order, touching))[b] == 2
    ensures multiset(Leaving(order, touching))[b] == 1
  {
    BlackListAsWrittenCounts(order, touching);
    LeavingOnce(order, touching);
  }

  /** The gravity flag a visited body has after the scan: rigid bodies follow whether they stay, when gravity-free. */
  function Swept(gravityFree: bool, kind: BodyType, leaves: bool, was: bool): bool
  {
    if gravityFree && kind == Rigid then !leaves else was
  }

  /**
   * The gravity flag a collided body ends CheckBodies with. Without
   * gravityFree nothing changes; with it, a leaving body falls under gravity
   * again, a staying rigid body is exempt, and other staying bodies keep
   * their flag.
   */
  function GravityAfter(gravityFree: bool, kind: BodyType, leaves: bool, was: bool): (r: bool)
    ensures !gravityFree ==> r == was
    ensures gravityFree && leaves ==> !r
    ensures gravityFree && !leaves && kind == Rigid ==> r
    ensures kind != Rigid && !leaves ==> r == was
  {
    if !gravityFree then was else if leaves then false else if kind == Rigid then true else was
  }

  /** The bodies an area holds or has ever reported. */
  function Mentioned(enters: seq<Body>, exits: seq<Body>, inside: set<Body>): set<Body>
  {
    inside + (set b | b in enters) + (set b | b in exits)
  }

  /**
   * Every body has been reported entering once more than exiting while it
   * is in `inside`, and as often as exiting once it is not.
   */
  ghost predicate BalancedOver(enters: seq<Body>, exits: seq<Body>, inside: set<Body>)
  {
    forall b :: b in Mentioned(enters, exits, inside) ==>
      multiset(enters)[b] == multiset(exits)[b] + (if b in inside then 1 else 0)
  }

  /** Reporting each leaving body once and dropping it from the set keeps the reports balanced. */
  lemma ReportKeepsBalance(enters: seq<Body>, exits: seq<Body>, inside: set<Body>, leaving: seq<Body>)
    requires Seqs.Distinct(leaving) && forall b :: b in leaving ==> b in inside
    requires BalancedOver(enters, exits, inside)
    ensures BalancedOver(enters, exits + leaving, inside - set b | b in leaving)
  {
    Seqs.DistinctMultiplicity(leaving);
    var exits' := exits + leaving;
    var inside' := inside - set b | b in leaving;
    forall b | b in Mentioned(enters, exits', inside')
      ensures multiset(enters)[b] == multiset(exits')[b] + (if b in inside' then 1 else 0)
    {
      assert multiset(exits')[b] == multiset(exits)[b] + multiset(leaving)[b];
      assert b in leaving ==> multiset(leaving)[b] == 1;
    }
  }

  class AreaBody {
    const body: Body
    var bodies: set<Body>
    var gravityFree: bool
    var linearForceToApply: Vec
    var enterEvents: seq<Body>
    var exitEvents: seq<Body>

    /**
     * Every body has been reported entering once more than exiting while it
     * is inside the area, and as often as exiting once it is outside.
     */
    ghost predicate Balanced()
      reads this`bodies, this`enterEvents, this`exitEvents
    {
      BalancedOver(enterEvents, exitEvents, bodies)
    }

    /** QAreaBody(): an area body simulated as a rigid body, empty, not gravity-free, pushing no force. */
    constructor(pointer: nat)
      ensures fresh(body) && body.id == pointer
      ensures body.bodyType == Area && body.simulationModel == RigidBody && body.mode == Dynamic && body.enabled
      ensures bodies == {} && !gravityFree && linearForceToApply == Zero()
      ensures enterEvents == [] && exitEvents == []
      ensures Balanced()
    {
      var b := new Body(pointer);
      b.simulationModel := RigidBody;
      b.bodyType := Area;
      body := b;
      bodies := {};
      gravityFree := false;
      linearForceToApply := Zero();
      enterEvents := [];
      exitEvents := [];
    }

    /** SetGravityFreeEnabled: stores the option and gives every body inside the area that gravity flag. */
    method SetGravityFreeEnabled(value: bool)
      modifies this`gravityFree, (set b | b in bodies)`ignoreGravity
      ensures gravityFree == value
      ensures forall b :: b in bodies ==> b.ignoreGravity == value
    {
      gravityFree := value;
      var rest := bodies;
      while rest != {}
        invariant rest <= bodies && gravityFree == value
        invariant forall b :: b in bodies && b !in rest ==> b.ignoreGravity == value
        decreases rest
      {
        var b :| b in rest;
        b.ignoreGravity := value;
        rest := rest - {b};
      }
    }

    /** SetLinearForceToApply stores the force pushed onto the bodies inside. */
    method SetLinearForceToApply(value: Vec)
      modifies this`linearForceToApply
      ensures linearForceToApply == value
    {
      linearForceToApply := value;
    }

    /**
     * AddCollidedBody: the body joins the set, and the enter notification
     * fires only when it was not in the set already.
     */
    method AddCollidedBody(b: Body)
      modifies this`bodies, this`enterEvents
      ensures bodies == old(bodies) + {b}
      ensures enterEvents == old(enterEvents) + (if b in old(bodies) then [] else [b])
      ensures old(Balanced()) ==> Balanced()
    {
      var isBodyNew := b !in bodies;
      bodies := bodies + {b};
      if isBodyNew {
        enterEvents := enterEvents + [b];
      }
    }

    /**
     * CheckBodies with the blacklist built as intended. Afterwards the set
     * holds exactly the bodies that were in it, are enabled and still touch
     * the area; each body that left is reported exiting once, in visiting
     * order; and with gravityFree every body that left is under gravity
     * again.
     */
    method CheckBodies(order: seq<Body>, touching: set<Body>)
      requires Seqs.Distinct(order) && forall b :: b in order <==> b in bodies
      modifies this`bodies, this`exitEvents, (set b | b in bodies)`ignoreGravity
      ensures bodies <= old(bodies)
      ensures forall b :: b in old(bodies) ==> (b in bodies <==> old(b.enabled) && b in touching)
      ensures exitEvents == old(exitEvents) + old(Leaving(order, touching))
      ensures forall b :: b in old(bodies) ==>
                b.ignoreGravity == old(GravityAfter(gravityFree, b.bodyType, Leaves(b, touching), b.ignoreGravity))
      ensures gravityFree ==> forall b :: b in old(bodies) && b !in bodies ==> !b.ignoreGravity
      ensures old(Balanced()) ==> Balanced()
    {
      var blackList := Sweep(order, touching);
      Drain(blackList);
      if old(Balanced()) {
        ReportKeepsBalance(enterEvents, old(exitEvents), old(bodies), blackList);
      }
    }

    /**
     * The loop over the collided bodies: it lists the leaving bodies and,
     * when gravityFree, takes a rigid body out of gravity if it stays and
     * puts it back under gravity if it leaves.
     */
    method Sweep(order: seq<Body>, touching: set<Body>) returns (blackList: seq<Body>)
      requires Seqs.Distinct(order)
      modifies (set b | b in order)`ignoreGravity
      ensures blackList == old(Leaving(order, touching))
      ensures forall b :: b in order ==>
                b.ignoreGravity == Swept(gravityFree, b.bodyType, Leaves(b, touching), old(b.ignoreGravity))
    {
      blackList := [];
      var i := 0;
      while i < |order|
        invariant 0 <= i <= |order|
        invariant blackList == old(Leaving(order[..i], touching))
        invariant forall j :: 0 <= j < i ==>
                    order[j].ignoreGravity ==
                    Swept(gravityFree, order[j].bodyType, Leaves(order[j], touching), old(order[j].ignoreGravity))
        invariant forall j :: i <= j < |order| ==> order[j].ignoreGravity == old(order[j].ignoreGravity)
      {
        var b := order[i];
        var bodyIsOnBlackList := Visit(b, touching);
        if bodyIsOnBlackList {
          blackList := blackList + [b];
        }
        assert order[..i + 1] == order[..i] + [b];
        i := i + 1;
      }
      assert order[..i] == order;
    }

    /**
     * One pass of that loop: whether the body goes on the blacklist, and the
     * gravity flag a gravity-free area gives a rigid body. The area's force
     * itself is not applied here (see the model's notes).
     */
    method Visit(b: Body, touching: set<Body>) returns (bodyIsOnBlackList: bool)
      modifies b`ignoreGravity
      ensures bodyIsOnBlackList == Leaves(b, touching)
      ensures b.ignoreGravity == Swept(gravityFree, b.bodyType, bodyIsOnBlackList, old(b.ignoreGravity))
    {
      bodyIsOnBlackList := !b.enabled;
      if !b.enabled || b !in touching {
        bodyIsOnBlackList := true;
      }
      if gravityFree || linearForceToApply != Zero() {
        if b.bodyType == Rigid {
          if bodyIsOnBlackList {
            if gravityFree {
              b.ignoreGravity := false;
            }
          } else if gravityFree && !b.ignoreGravity {
            b.ignoreGravity := true;
          }
        }
      }
    }

    /**
     * The drain loop: for each blacklist entry, from the front, the exit
     * notification fires, a gravity-free area puts the body back under
     * gravity, and the body is erased from the set.
     */
    method Drain(blackList: seq<Body>)
      requires forall b :: b in blackList ==> b in bodies
      modifies this`bodies, this`exitEvents, (set b | b in bodies)`ignoreGravity
      ensures exitEvents == old(exitEvents) + blackList
      ensures bodies == old(bodies) - set b | b in blackList
      ensures forall b :: b in blackList ==> b.ignoreGravity == (!gravityFree && old(b.ignoreGravity))
      ensures forall b :: b in old(bodies) && b !in blackList ==> b.ignoreGravity == old(b.ignoreGravity)
    {
      var rest := blackList;
      ghost var k := 0;
      while |rest| != 0
        invariant 0 <= k <= |blackList| && rest == blackList[k..]
        invariant exitEvents == old(exitEvents) + blackList[..k]
        invariant bodies == old(bodies) - set b | b in blackList[..k]
        invariant forall b :: b in blackList[..k] ==> b.ignoreGravity == (!gravityFree && old(b.ignoreGravity))
        invariant forall b :: b in old(bodies) && b !in blackList[..k] ==> b.ignoreGravity == old(b.ignoreGravity)
      {
        var b := rest[0];
        exitEvents := exitEvents + [b];
        if gravityFree && b.ignoreGravity {
          b.ignoreGravity := false;
        }
        bodies := bodies - {b};
        rest := rest[1..];
        assert blackList[..k + 1] == blackList[..k] + [b];
        k := k + 1;
      }
      assert blackList[..k] == blackList;
    }
  }
}
