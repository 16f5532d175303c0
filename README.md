# QuarkPhysics core, modelled in Dafny

QuarkPhysics is a 2D physics engine. A `QWorld` holds rigid bodies, soft
bodies, area bodies and platformer bodies. Each body is made of meshes of
particles held together by springs and closed polygons. Every step the world
finds candidate pairs with a broad phase (a bounding-volume hierarchy or a
spatial hash), builds collision manifolds, resolves them, then integrates the
bodies and puts quiet islands of bodies to sleep.

This project models the discrete, stateful logic under that arithmetic:

- vector and box algebra (`vectors.dfy`, `aabbs.dfy`);
- the narrow-phase primitives: projections, interval overlap, segment
  intersection, point-in-polygon, edge clipping and the separating-axis exit
  of polygon collision (`collision.dfy`);
- the pair functors and hashes (`body_pairs.dfy`);
- the BVH broad phase (`bvh.dfy`) and the spatial hash (`spatial_hashing.dfy`);
- the free-list object pool (`object_pool.dfy`);
- the spring and joint correction splits (`constraints.dfy`);
- the classes of the engine (`engine.dfy`): particles, springs, meshes,
  bodies, joints, raycasts and the world with its registries, collision
  exceptions, islands and sleep counter, and the split of a push between
  the two ends of a particle segment;
- the mesh-data generators (`mesh_data.dfy`) and polygon areas (`polygons.dfy`);
- manifolds and their solver bookkeeping (`manifolds.dfy`);
- the raycast queries (`raycasting.dfy`);
- the body kinds: rigid (`rigid_body.dfy`), soft (`soft_body.dfy`), area
  (`area_body.dfy`) and platformer (`platformer.dfy`).

`seqs.dfy`, `options.dfy` and `reals.dfy` hold shared helpers.

Conventions:

- `float` is modelled as `real`.
- `sqrt`, `sin`, `cos`, `atan2` and `asin` are not interpreted. They arrive as
  a `Numerics` record of function values, whose only stated law is that
  `sqrt` is 0 at 0 and positive elsewhere. `Normalized`, `Length`, `Rotated`
  and the angle functions are built on it.
- A pointer is the object's identity. The pointer order that `std::less`
  gives on `QBody*` is the `id` field of `Body`.
- Each C++ class whose fields change in place is a Dafny class with the same
  fields. Methods state their new state in `ensures` and name what they may
  change in `modifies`.
- The subclasses of `QBody` are composition: `RigidBody`, `SoftBody`,
  `AreaBody` and `Platformer` each hold a `const body: Body` plus their own
  fields.
- The engine's classes point at each other (particle to mesh, mesh to body,
  body to world), so they share one module, `Engine`.

Where a header and its implementation file disagree, the model follows the
implementation file:

- `qmesh.h` names the polygons `polygon`; `qmesh.cpp` uses `closedPolygons`.
- `qjoint.h` has `length`; `qjoint.cpp` has `distance`.
- `qcollision.h` holds contacts by value; `qcollision.cpp` holds pointers.
- `qbroadphase.h` declares a hash grid; `qbroadphase.cpp` implements a BVH.
- `extensions/qspatialhashing.h` declares `Update`/`GetAllPairs`;
  `extensions/qspatialhashing.cpp` defines `Insert`/`Remove`/`GetPairs`.
- `qplatformerbody.h` does not declare the jump flags that
  `qplatformerbody.cpp` uses.

Where the documentation and the code disagree, the code is modelled.

## Model

| member | source | states |
|---|---|---|
| Vectors.Normalized | QuarkPhysics/qvector.h:167-175 | The zero vector, and a vector whose squared length is 0, normalize to zero; any other vector is scaled by a positive factor, so its direction is kept. |
| Vectors.NormalizedFactor | QuarkPhysics/qvector.h:167-175 | A vector of nonzero squared length is normalized by a positive factor. |
| Vectors.NormalizedIsUnit | QuarkPhysics/qvector.h:167-175 | With an exact square root, a vector of nonzero squared length normalizes to a unit vector. |
| Vectors.NormalizedScale | QuarkPhysics/qvector.h:164-175 | Scaling the normalized vector back by the length recovers the vector. |
| Vectors.LengthZero | QuarkPhysics/qvector.h:164-166 | The zero vector has length 0, a length is never negative, and the length is 0 exactly when the squared length is. |
| Vectors.PerpendicularLaws | QuarkPhysics/qvector.h:176-178 | The perpendicular is orthogonal to the vector, and taking it twice negates the vector. |
| Vectors.DotLaws | QuarkPhysics/qvector.h:161-181 | Dot is symmetric and linear in its first argument, and LengthSquared is the dot product of a vector with itself. |
| Vectors.LengthSquaredNonnegative | QuarkPhysics/qvector.h:179-181 | The squared length is never negative. |
| Vectors.ArithmeticLaws | QuarkPhysics/qvector.h:81-143 | Subtraction undoes addition, a vector plus its negation is zero, == is componentwise equality and != is its negation. |
| Vectors.RotatedByZero | QuarkPhysics/qvector.cpp:121-122 | Rotating by the angle 0 returns the vector unchanged. |
| Vectors.RotatedKeepsLength | QuarkPhysics/qvector.cpp:121-127 | When the sine and cosine of the angle are consistent, a rotation keeps the squared length. |
| Vectors.ClampUnit | QuarkPhysics/qvector.cpp:56-62 | The sine handed to asin is clamped into [-1, 1] and left as it is when already inside. |
| Vectors.AngleOfZeroVectors | QuarkPhysics/qvector.cpp:37-52 | Two zero vectors give a total length of 0, so cosine and sine stay 0 instead of being divided by zero. |
| Vectors.AngleAsinArgument | QuarkPhysics/qvector.cpp:54-66 | For any two vectors asin receives an argument in [-1, 1], and the angle is minus atan2 of that asin and the cosine. |
| Vectors.SideUpIff | QuarkPhysics/qvector.cpp:71-76 | GetVectorSide answers UP exactly when the absolute angle is below the band width. |
| Vectors.SideBands | QuarkPhysics/qvector.cpp:77-85 | Outside the UP band, RIGHT, LEFT and DOWN are each the band the cascade of tests selects, and NONE is everything else. |
| Vectors.SideMirror | QuarkPhysics/qvector.cpp:71-86 | Negating the angle swaps RIGHT and LEFT and keeps UP, DOWN and NONE. |
| Vectors.DefaultSidesDisjoint | QuarkPhysics/qvector.h:156 | With the default band width, RIGHT lies at positive angles, LEFT at negative ones, and NONE only within pi minus the band width. |
| AABBs.Make | QuarkPhysics/qaabb.h:46-73 | The two-point constructor and SetMinMax store both corners and cache size = max - min. |
| AABBs.Combine | QuarkPhysics/qaabb.h:98-107 | The combined box keeps a valid size and contains both boxes. |
| AABBs.CombineSmallest | QuarkPhysics/qaabb.h:98-107 | Any box containing both boxes contains their combination: Combine is the least enclosing box. |
| AABBs.CombineSymmetric | QuarkPhysics/qaabb.h:98-107 | Combine does not depend on the order of its arguments. |
| AABBs.Fatted | QuarkPhysics/qaabb.h:109-118 | Fatten and Fatted grow the box by the amount on every side: a nonnegative amount gives a box containing the original, a nonpositive one a box inside it. |
| AABBs.AreaAndCenter | QuarkPhysics/qaabb.h:80-86 | GetArea is the product of the side lengths, nonnegative for a proper box, and GetCenterPosition is the midpoint of the corners. |
| AABBs.CollidingSymmetric | QuarkPhysics/qaabb.h:119-124 | isCollidingWith is symmetric. |
| AABBs.CollidingReflexive | QuarkPhysics/qaabb.h:119-124 | A box collides with itself exactly when its min is at most its max on both axes. |
| AABBs.ContainReflexive | QuarkPhysics/qaabb.h:88-97 | Every box contains itself. |
| AABBs.ContainTransitive | QuarkPhysics/qaabb.h:88-97 | isContain is transitive. |
| AABBs.ContainKeepsColliding | QuarkPhysics/qaabb.h:88-124 | A box that contains another collides with everything the inner box collides with. |
| AABBs.EffectiveRadius | QuarkPhysics/qaabb.cpp:40 | A particle's radius counts only above 0.5; otherwise the particle is a point. |
| AABBs.ParticleBox | QuarkPhysics/qparticle.cpp:45-56 | QParticle::UpdateAABB centres the box on the particle, grown by its raw radius; the box is proper for a nonnegative radius. |
| AABBs.Extend | QuarkPhysics/qaabb.cpp:41-53 | One turn of the bounds loop gives a box containing the running box and the particle's box. |
| AABBs.GetAABBFromParticles | QuarkPhysics/qaabb.cpp:31-59 | The loop computes the box of the specification function: the sentinel box for no particles, and otherwise a proper box that contains every particle's box and is attained by the particles. |
| AABBs.EncloseContains | QuarkPhysics/qaabb.cpp:31-59 | The collection's box contains the box of every particle. |
| AABBs.EncloseProper | QuarkPhysics/qaabb.cpp:31-59 | A nonempty collection gives a box with min at most max. |
| AABBs.EncloseTight | QuarkPhysics/qaabb.cpp:31-59 | Every bound of the box is the bound of some particle, for positions inside the sentinel range. |
| Collision.NewContact | QuarkPhysics/qcollision.h:61-68 | The Contact constructor stores particle, position, normal, penetration and reference particles, and starts unsolved. |
| Collision.OverlapMeaning | QuarkPhysics/qcollision.h:88-96 | A nonnegative overlap means the open intervals are disjoint; for intervals of positive length a negative overlap holds exactly when they intersect. |
| Collision.OverlapSymmetric | QuarkPhysics/qcollision.h:88-96 | Overlap(a, b) == Overlap(b, a) whenever the two minima differ. |
| Collision.OverlapEqualMinima | QuarkPhysics/qcollision.h:88-96 | With equal minima the result depends on the argument order ([0,1] against [0,2] gives -1, the reverse gives -2). |
| Collision.ProjectToAxis | QuarkPhysics/qcollision.cpp:1234-1255 | The scan loop returns the projection function's value, whose properties ProjectionBounds states. |
| Collision.ProjectionBounds | QuarkPhysics/qcollision.cpp:1234-1255 | Every vertex projection lies in [min, max]; a nonempty polygon has min <= max, indices in range, and the first vertices attaining min and max recorded; an empty one keeps the +/-MAX_WORLD_SIZE sentinels. |
| Collision.LineIntersectionLine | QuarkPhysics/qcollision.cpp:1408-1436 | Parallel segments give NaN; otherwise a point is returned iff 0 < t <= 1 and 0 <= u <= 1, and it is d1A + t(d1B - d1A). |
| Collision.IntersectionOnBothLines | QuarkPhysics/qcollision.cpp:1408-1436 | A returned point lies on the first segment (at some 0 < t <= 1) and on the line of the second segment. |
| Collision.PointInPolygon | QuarkPhysics/qcollision.cpp:1438-1450 | The point is reported inside iff it is on the non-positive side of every edge normal. |
| Collision.PointInPolygonByCross | QuarkPhysics/qcollision.cpp:1438-1450 | For polygons without zero-length edges, normalising the edge does not change the answer: it is the sign of the plain cross products. |
| Collision.PointInPolygon2 | QuarkPhysics/qcollision.cpp:1466-1483 | The loop's toggled flag equals the parity of the number of edges the horizontal ray crosses. |
| Collision.BelowPolygonIsOutside | QuarkPhysics/qcollision.cpp:1466-1483 | A point strictly below every vertex crosses no edge, so PointInPolygon2 reports it outside. |
| Collision.FindNearestSideOfPolygon | QuarkPhysics/qcollision.cpp:1282-1330 | The result is (-1,-1) or a side (i, i+1 mod n) that passes the range and sign filters and has the least absolute cross product among them; (-1,-1) means no considered side is nearer than MAX_WORLD_SIZE. |
| Collision.FindNearestParticleOfPolygon | QuarkPhysics/qcollision.cpp:1332-1348 | The index is in range; when some other vertex is nearer than MAX_WORLD_SIZE it names a vertex that is not the query particle and is at least as near as every such vertex, and otherwise it is 0. |
| Collision.FindExtremeParticleOfAxis | QuarkPhysics/qcollision.cpp:1350-1364 | The index is in range and names the first vertex of greatest projection on the axis; it is 0 when no projection exceeds -MAX_WORLD_SIZE. |
| Collision.ClipCandidate | QuarkPhysics/qcollision.cpp:1207-1231 | An incident point yields a contact only with signed distance <= 0 and a projection within the reference segment; the contact is on that point with penetration |dist| >= 0 and unsolved. |
| Collision.Clipped | QuarkPhysics/qcollision.cpp:1207-1231 | One clip yields at most two contacts, each a candidate of one incident point, in incident order. |
| Collision.ClipContactParticles | QuarkPhysics/qcollision.cpp:1207-1231 | The method appends exactly Clipped(...) to the contact list and changes nothing before it. |
| Collision.ClipPair | QuarkPhysics/qcollision.cpp:1194-1204 | The intended clipping step: the second clip's contacts are added exactly when the first clip added none. |
| Collision.ClipPairIndependent | QuarkPhysics/qcollision.cpp:1194-1204 | What the intended step adds does not depend on contacts already in the list, and on an empty list it agrees with the code as written. |
| Collision.ClipPairAsWrittenDropsFallback | QuarkPhysics/qcollision.cpp:1197 | As written, the emptiness test reads the shared list, so one earlier contact suppresses the fallback clip the intended step performs. |
| Collision.SupportSegment | QuarkPhysics/qcollision.cpp:1155-1191 | The chosen segment at a support vertex is (prev, here) or (here, next), the one less parallel to the reference normal. |
| Collision.PolygonAndPolygon | QuarkPhysics/qcollision.cpp:1084-1205 | If some edge normal of either polygon gives overlap >= 0 the list comes back unchanged; otherwise the result is ClipAt at the reference normal (that of the first axis of least penetration), so at most two contacts are appended and the earlier list is kept as a prefix. |
| Collision.ReferenceAxis | QuarkPhysics/qcollision.cpp:1103-1138 | Separation is reported iff some axis has overlap >= 0; otherwise the returned normal is the reference normal: that of the first axis whose penetration is least and below MAX_WORLD_SIZE, or the zero vector when none is below it. |
| Collision.ProbeAxis | QuarkPhysics/qcollision.cpp:1108-1124 | One turn of the axis loop switches the reference polygon at index |A| and computes the overlap along that edge's normal. |
| Collision.ClipAtSupports | QuarkPhysics/qcollision.cpp:1143-1204 | The result is ClipAt: the incident support segment clipped against the reference one, and the reverse clip only when the first adds nothing; at most two contacts follow the kept prefix. |
| Collision.AxisTurn | QuarkPhysics/qcollision.cpp:1107-1137 | A turn reports a hit iff axis p has overlap >= 0; otherwise the loop state after p + 1 axes is Scanning: no separating axis so far, and the first least penetration kept with its normal. |
| Collision.ScanningStep | QuarkPhysics/qcollision.cpp:1126-1136 | A non-separating axis keeps Scanning, and its normal takes over exactly when its penetration is strictly below the running minimum. |
| Collision.TrackingStep | QuarkPhysics/qcollision.cpp:1130-1135 | A strictly smaller penetration becomes the running minimum at that axis; any other leaves the minimum and its axis. |
| Collision.TrackingEnd | QuarkPhysics/qcollision.cpp:1103-1138 | When every axis has negative overlap, no axis separates and the kept normal is the reference normal (the zero vector when no penetration is below MAX_WORLD_SIZE). |
| Collision.LeastAxisUnique | QuarkPhysics/qcollision.cpp:1130-1135 | At most one axis is the first axis of least penetration. |
| Collision.ReferenceNormalUnique | QuarkPhysics/qcollision.cpp:1103-1138 | Two normals that both meet the reference-normal description are equal, so the axis loop's result is determined by the polygons. |
| Collision.SupportIndices | QuarkPhysics/qcollision.cpp:1143-1151 | Both support point indices are in range of their polygons. |
| Collision.SupportSegments | QuarkPhysics/qcollision.cpp:1143-1191 | The support points and segment choice computed by the method are exactly the pair ClipSegments describes. |
| Collision.ClipSegments | QuarkPhysics/qcollision.cpp:1153-1194 | Both segments have two vertices, the reference one is no more parallel to the normal than the incident one, and the pair is the two support segments in one order or the other. |
| Collision.ClipAt | QuarkPhysics/qcollision.cpp:1193-1204 | The contacts are ClipPair of the two clips of the ClipSegments pair; at most two are appended and the earlier list is kept as a prefix. |
| Collision.CircleContact | QuarkPhysics/qcollision.cpp:747-791 | The per-pair step makes a contact on pB with reference pA, unsolved; a nonzero specified radius replaces both radii. |
| Collision.CircleContactPenetration | QuarkPhysics/qcollision.cpp:767-791 | A contact is made iff the squared distance is below the squared radius sum, and then its penetration rA + rB - distance is positive. |
| BodyPairs.PairEqualIsEquivalence | QuarkPhysics/qworld.h:60-65 | The pair equality functor is reflexive, symmetric and transitive, and equates a pair with its swap (the same holds for QBroadPhase::NumericPairEqual, qbroadphase.h:58-63). |
| BodyPairs.PairHashesAreOrderDependent | QuarkPhysics/qworld.h:52-58 | As written, (0,1) and (1,0) are equal under the equality functor but hash to different values, for both the body-pointer hash and QBroadPhase::NumericPairHash (qbroadphase.h:50-56). |
| BodyPairs.Canonical | QuarkPhysics/qworld.cpp:804-811 | The canonical pair is the given pair or its swap. |
| BodyPairs.CanonicalAddresses | QuarkPhysics/qworld.cpp:804-811 | Canonicalising body addresses puts the smaller address first and keeps the same two bodies. |
| BodyPairs.CanonicalInts | QuarkPhysics/qbroadphase.h:58-63 | Canonicalising id pairs puts the smaller id first and keeps the same two ids. |
| BodyPairs.SymmetricHashRespectsEquality | QuarkPhysics/qworld.h:52-65 | Hashing the canonical pair gives equal hashes to pairs the equality functor calls equal, for body pairs and id pairs. |
| BodyPairs.CanonicalPairsNeedNoSwap | QuarkPhysics/qworld.cpp:802-863 | On canonical pairs, which every insert, erase and find on the exception set uses, the equality functor is plain equality. |
| BVH.ForestAppend | QuarkPhysics/qbroadphase.cpp:51 | The leaves and node ids of a concatenated node list are those of the two parts. |
| BVH.ForestRemoveAt | QuarkPhysics/qbroadphase.cpp:92-98 | Erasing node i from the list takes out exactly that node's leaves and ids. |
| BVH.SingleTree | QuarkPhysics/qbroadphase.cpp:105 | When one node is left it carries every leaf and id of the list. |
| BVH.BestPair | QuarkPhysics/qbroadphase.cpp:58-81 | The search returns indices i < j whose merged box has the least area over all pairs, and it is the first such pair in visiting order. |
| BVH.TriangleFormula | QuarkPhysics/qbroadphase.cpp:181 | The division in the pair key is exact: s(s+1)/2 is the triangular number of s. |
| BVH.TriangleGrows | QuarkPhysics/qbroadphase.cpp:181 | Triangular numbers grow faster than their index, so diagonals of the pair key do not overlap. |
| BVH.CantorKeyInjective | QuarkPhysics/qbroadphase.cpp:181 | The (idA, idB) key recorded by GetPairsBetweenNodes is injective on ordered id pairs, so each ordered node pair has its own key. |
| BVH.BroadPhase.constructor | QuarkPhysics/qbroadphase.cpp:31-34 | A new broad phase has no nodes, no root and the id counter at 0. |
| BVH.BroadPhase.GetNewNodeID | QuarkPhysics/qbroadphase.cpp:161-166 | Returns the counter's old value and advances it by one; nothing else changes. |
| BVH.BroadPhase.ClearTree | QuarkPhysics/qbroadphase.cpp:111-118 | Empties the node list and resets the counter to 0, leaving the root field as it was. |
| BVH.BroadPhase.ReCreateTree | QuarkPhysics/qbroadphase.cpp:41-109 | An empty list leaves a cleared tree; otherwise one root remains whose leaves are exactly the bodies (as a multiset), whose boxes nest, whose ids are distinct, and n bodies use 2n - 1 ids. |
| BVH.BroadPhase.AddLeaves | QuarkPhysics/qbroadphase.cpp:47-52 | One leaf per body, in order, with ids 0 .. n-1: the list's leaves are exactly the bodies, each leaf boxed by its body's fattened box. |
| BVH.BroadPhase.AddLeaf | QuarkPhysics/qbroadphase.cpp:48-51 | Appends the leaf of body k, with the next id, and keeps the leaf multiset, box nesting and fresh-id invariants. |
| BVH.BroadPhase.MergeBestPair | QuarkPhysics/qbroadphase.cpp:56-103 | Replaces the best pair by a new inner node with the next id at the end of the list: one node fewer, the same leaves, nesting and fresh ids kept. |
| BVH.BroadPhase.Query | QuarkPhysics/qbroadphase.cpp:120-124 | Without a tree nothing is reported; otherwise the result is QueryInNode on the root. |
| BVH.BroadPhase.GetPairs | QuarkPhysics/qbroadphase.cpp:168-177 | No tree or a single leaf gives no pairs; every reported pair is two leaves of the tree whose own boxes collide. |
| BVH.AppendLeafKeepsForest | QuarkPhysics/qbroadphase.cpp:47-52 | Appending the next body's leaf extends the leaf multiset by that body and keeps ids unique and below the counter. |
| BVH.AppendNode | QuarkPhysics/qbroadphase.cpp:101 | Appending a node adds exactly its leaves and ids to the list's. |
| BVH.AddFreshId | QuarkPhysics/qbroadphase.cpp:83 | An id taken from the counter is new, so ids stay unique and below the advanced counter. |
| BVH.MergeKeepsForest | QuarkPhysics/qbroadphase.cpp:83-101 | A merge step keeps the list's leaves, the nesting of every node's box and the fresh-id invariant. |
| BVH.MergeForests | QuarkPhysics/qbroadphase.cpp:86-101 | After erasing the two merged nodes and appending their parent, the leaves are the same and the ids gain exactly the parent's. |
| BVH.MergeCounts | QuarkPhysics/qbroadphase.cpp:92-101 | Taking two parts out of a multiset and adding back their union restores it. |
| BVH.MergeWellFormed | QuarkPhysics/qbroadphase.cpp:92-101 | Every node that survives a merge, and the new parent, is well formed. |
| BVH.QueryInNode | QuarkPhysics/qbroadphase.cpp:126-147 | Every reported body is a leaf of the node whose own current box collides with the query box. |
| BVH.QueryIsComplete | QuarkPhysics/qbroadphase.cpp:126-147 | In a well-formed tree whose fattened boxes contain the current ones, every leaf body colliding with the query box is reported. |
| BVH.BoxContainsLeaf | QuarkPhysics/qbroadphase.cpp:69-86 | A well-formed node's box contains the current box of every body below it. |
| BVH.GetPairsBetweenNodes | QuarkPhysics/qbroadphase.cpp:179-219 | Each key is handled once: an already-checked key changes nothing; otherwise the key is recorded, earlier pairs are kept, every new pair is two colliding leaves below the two nodes, and no more pairs are added than keys newly recorded. |
| BVH.BranchAndBranch | QuarkPhysics/qbroadphase.cpp:192-202 | Two inner nodes: each node's own children, then the four crossings when the boxes collide, keeping the same accumulation facts. |
| BVH.LeafAndBranch | QuarkPhysics/qbroadphase.cpp:204-209 | A leaf against an inner node: the node's own children, then the leaf against each child when the boxes collide. |
| BVH.BranchAndLeaf | QuarkPhysics/qbroadphase.cpp:210-215 | An inner node against a leaf: the node's own children, then the leaf against each child when the boxes collide. |
| BVH.Descend | QuarkPhysics/qbroadphase.cpp:193-214 | One recursive call on nodes below (nodeA, nodeB) keeps the prefix, key-subset, pair-count and collision facts for the whole call. |
| BVH.CardinalitySplit | QuarkPhysics/qbroadphase.cpp:185 | New keys counted across two nested supersets add up. |
| Constraints.SpringForcesOpposite | QuarkPhysics/qspring.cpp:62-86 | Outside the internal-only branches the two ends are moved by exact opposites. |
| Constraints.SpringInternalException | QuarkPhysics/qspring.cpp:71-82 | With the internal exception, a compressed spring moves nothing; a stretched one moves an internal end by half the force against an external end and two internal ends by a quarter each; an external end never moves. |
| Constraints.ScaledLengthSquared | QuarkPhysics/qvector.h:179-181 | Scaling a vector by c scales its squared length by c squared. |
| Constraints.QuotientSquare | QuarkPhysics/qspring.cpp:63-66 | (L / l)^2 times l^2 is L^2 for a nonzero length l. |
| Constraints.RestoredSeparation | QuarkPhysics/qspring.cpp:62-66 | Moving a separation of exact length l by (L - l) along its unit vector leaves a separation of squared length L^2. |
| Constraints.UnitOf | QuarkPhysics/qspring.cpp:63-64 | With an exact square root, the unit vector of a nonzero separation is the separation divided by its length. |
| Constraints.SpringRestoresLength | QuarkPhysics/qspring.cpp:62-92 | With rigidity 1, no internal exception and an exact square root, one correction brings the two particles exactly to the rest length. |
| Constraints.ScaleRatio | QuarkPhysics/qspring.cpp:66 | x + (x / l)(L - l) equals x (L / l). |
| Constraints.JointGateTable | QuarkPhysics/qjoint.cpp:79-104 | No correction exactly when every present body is static and one is present; k = 0.5 when both bodies are dynamic or none is present; k = 1 when exactly one present body is static or exactly one body is present and dynamic. |
| Constraints.JointForce | QuarkPhysics/qjoint.cpp:138-149 | A groove joint shorter than its distance applies nothing; otherwise a force is applied. |
| Constraints.JointRestoresDistance | QuarkPhysics/qjoint.cpp:138-160 | With rigidity 1, k = 0.5 and an exact square root, moving both anchors by the joint forces restores the rest distance. |
| Engine.Particle.constructor | QuarkPhysics/qparticle.cpp:70-76 | local, global and previous positions all start at the given point; radius as given, mass 1, no owner, no force, empty collision sets |
| Engine.Particle.SetGlobalPosition | QuarkPhysics/qparticle.cpp:77-90 | the global position becomes the value and the box goes stale; a free particle's local position follows, an owned one marks its body's inertia and circumference stale |
| Engine.Particle.AddGlobalPosition | QuarkPhysics/qparticle.cpp:91-93 | the global position moves by the value, with the same side effects as SetGlobalPosition |
| Engine.Particle.SetPreviousGlobalPosition | QuarkPhysics/qparticle.cpp:94-97 | only the previous global position changes |
| Engine.Particle.SetPosition | QuarkPhysics/qparticle.cpp:103-119 | the local position becomes the value; a free particle's global position follows; an owned one marks the body stale, wakes a soft body and marks the mesh's sub-convex polygons stale |
| Engine.Particle.SetRadius | QuarkPhysics/qparticle.cpp:134-143 | the radius is stored and an owning body's inertia goes stale |
| Engine.Particle.ApplyForce | QuarkPhysics/qparticle.cpp:163-170 | the global position moves by exactly the force (the local one too for a free particle) |
| Engine.Particle.SetForce | QuarkPhysics/qparticle.cpp:171-179 | the force is stored and the owning body is awake |
| Engine.Particle.AddForce | QuarkPhysics/qparticle.cpp:180-182 | force = old force + value, and the owning body is awake |
| Engine.Particle.AddAccumulatedForce | QuarkPhysics/qparticle.cpp:184-188 | the force is appended at the end of the accumulated list |
| Engine.Particle.ClearAccumulatedForces | QuarkPhysics/qparticle.cpp:190-194 | the accumulated list is empty |
| Engine.Particle.ApplyAccumulatedForces | QuarkPhysics/qparticle.cpp:196-208 | an empty list changes nothing; otherwise the particle moves by the arithmetic mean of the list and the list is emptied |
| Engine.MeanOfEqual | QuarkPhysics/qparticle.cpp:196-208 | when every accumulated force is the same vector, the mean applied is that vector |
| Engine.Particle.ResetOneTimeCollisions | QuarkPhysics/qparticle.cpp:39-43 | the one-time bodies become the previous step's bodies and the previous set is emptied |
| Engine.Particle.ClearOneTimeCollisions | QuarkPhysics/qparticle.cpp:33-37 | both collision sets are empty |
| Engine.Particle.UpdateAABB | QuarkPhysics/qparticle.cpp:45-56 | the box is the global position minus and plus the raw radius on both axes |
| Engine.SegmentRatesSplitForce | QuarkPhysics/qparticle.cpp:215-236 | for a segment of nonzero length the two rates add up to 1, so the ends together move by the force; the 0.5/0.5 branch can never be taken |
| Engine.ApplyForceToParticleSegment | QuarkPhysics/qparticle.cpp:215-236 | each end's global position moves by its rate times the force, the rates being those SegmentRatesSplitForce proves sum to 1 |
| Engine.IndexScan | QuarkPhysics/qmesh.h:334-341 | the linear scan returns the first index holding the element, or -1 when there is none |
| Engine.Spring.constructor | QuarkPhysics/qspring.cpp:33-40 | the rest length is the current distance between the two particles; rigidity 1, enabled |
| Engine.Spring.WithLength | QuarkPhysics/qspring.cpp:42-48 | the rest length is the given one; rigidity 1, enabled |
| Engine.Spring.Update | QuarkPhysics/qspring.cpp:50-94 | a disabled spring or one whose bodies both sleep moves nothing; otherwise each end is moved by its share of the correction as Constraints.SpringForces splits it |
| Engine.SpringsTouching | QuarkPhysics/qmesh.cpp:183-196 | a spring of the list is selected exactly when the particle is one of its ends |
| Engine.ConstraintsBinding | QuarkPhysics/qmesh.h:586-598 | a constraint of the list is selected exactly when it binds the particle as A, B or C |
| Engine.StripPolygons | QuarkPhysics/qmesh.cpp:135-158 | stripping a particle from a list of polygons never yields more polygons than there were |
| Engine.Mesh.constructor | QuarkPhysics/qmesh.cpp:38-39 | an empty, unowned mesh at the origin that collides as circles, with no flag set |
| Engine.Mesh.UpdateCollisionBehavior | QuarkPhysics/qmesh.cpp:48-62 | without an owner nothing changes; circles without closed polygons, polygons for a rigid-body owner, polylines for a mass-spring owner |
| Engine.Mesh.GetCollisionBehavior | QuarkPhysics/qmesh.h:242-248 | recomputes the behaviour only when the flag is set, otherwise returns the stored one; the flag ends cleared |
| Engine.Mesh.CheckCollisionBehaviors | QuarkPhysics/qmesh.cpp:343-349 | true exactly when the two meshes' behaviours are the given pair in either order, so swapping the meshes or the behaviours gives the same answer |
| Engine.Mesh.SetPolygonForCollisionsDisabled | QuarkPhysics/qmesh.h:294-298 | stores the flag and marks the collision behaviour stale |
| Engine.Mesh.AddParticle | QuarkPhysics/qmesh.cpp:68-77 | the particle is appended and owned by this mesh, the behaviour is stale, nothing else of the mesh changes, and the owner body's caches go stale |
| Engine.Mesh.RemoveParticleAt | QuarkPhysics/qmesh.cpp:79-90 | the polygons are stripped of the particle, every spring with it as an end goes, then the particle itself goes from its index |
| Engine.Mesh.RemoveParticle | QuarkPhysics/qmesh.cpp:92-102 | for a particle of the mesh, RemoveParticleAt at its first index |
| Engine.Mesh.GetParticleIndex | QuarkPhysics/qmesh.h:334-341 | the first index of the particle, or -1 |
| Engine.Mesh.AddClosedPolygon | QuarkPhysics/qmesh.cpp:112-121 | the polygon is appended; the behaviour and the owner's caches go stale; nothing else changes |
| Engine.Mesh.RemoveClosedPolygonAt | QuarkPhysics/qmesh.cpp:123-133 | exactly the polygon at the index goes; the behaviour and the owner's caches go stale |
| Engine.Mesh.RemoveMatchingClosedPolygons | QuarkPhysics/qmesh.cpp:135-158 | every occurrence of the particle is erased from every polygon, polygons left with fewer than 3 vertices are dropped, the rest keep their order; only a drop marks the behaviour stale |
| Engine.Mesh.AddSpring | QuarkPhysics/qmesh.cpp:160-165 | the spring is appended and the behaviour is stale |
| Engine.Mesh.RemoveSpringAt | QuarkPhysics/qmesh.cpp:176-181 | exactly the spring at the index goes and the behaviour is stale |
| Engine.Mesh.GetSpringIndex | QuarkPhysics/qmesh.h:474-479 | the first index of the spring, or -1 |
| Engine.Mesh.RemoveSpring | QuarkPhysics/qmesh.cpp:167-174 | an absent spring changes nothing; otherwise its first occurrence goes |
| Engine.Mesh.RemoveMatchingSprings | QuarkPhysics/qmesh.cpp:183-196 | every spring with the particle as an end goes, the others keep their order; the behaviour goes stale exactly when something went |
| Engine.Mesh.AddAngleConstraint | QuarkPhysics/qmesh.h:544-547 | the constraint is appended |
| Engine.Mesh.RemoveAngleConstraintAt | QuarkPhysics/qmesh.h:554-557 | exactly the constraint at the index goes |
| Engine.Mesh.GetAngleConstraintIndex | QuarkPhysics/qmesh.h:562-567 | the first index of the constraint, or -1 |
| Engine.Mesh.RemoveAngleConstraint | QuarkPhysics/qmesh.h:573-579 | an absent constraint leaves the list unchanged; otherwise its first occurrence goes |
| Engine.Mesh.RemoveMatchingAngleConstraints | QuarkPhysics/qmesh.h:586-598 | every constraint binding the particle as A, B or C goes, the rest keep their order |
| Engine.Mesh.GetSubConvexPolygonCount | QuarkPhysics/qmesh.h:418-424 | decomposes again only when the flag is set, then clears it; the count is the number of sub-convex polygons |
| Engine.Mesh.GetPolygonArea | QuarkPhysics/qmesh.cpp:320-341 | the shoelace area of the polygon's local or global positions, never negative |
| Engine.Mesh.GetInitialArea | QuarkPhysics/qmesh.h:171-183 | the local sub-convex polygon areas plus r squared for every particle with radius above 0.5; never negative |
| Engine.Mesh.GetInitialPolygonsArea | QuarkPhysics/qmesh.h:185-191 | the local sub-convex polygon areas only; never negative |
| Engine.Mesh.GetArea | QuarkPhysics/qmesh.h:194-205 | the global sub-convex polygon areas plus the discs, i.e. GetPolygonsArea plus the disc term |
| Engine.Mesh.GetPolygonsArea | QuarkPhysics/qmesh.h:207-214 | the global sub-convex polygon areas only; never negative |
| Engine.Mesh.GetCircumference | QuarkPhysics/qmesh.h:217-232 | the closed perimeters of the sub-convex polygons on local positions, summed; never negative |
| Engine.EraseMatching | QuarkPhysics/qmesh.cpp:183-196 | the erase-or-advance loop leaves exactly the elements not to be dropped, in order |
| Engine.EraseFromPolygon | QuarkPhysics/qmesh.cpp:140-149 | every occurrence of the particle is erased from the polygon, and the flag says whether there was one |
| Engine.StripAll | QuarkPhysics/qmesh.cpp:135-158 | the loop over the polygon list computes StripPolygons |
| Engine.InertiaFrom | QuarkPhysics/qbody.h:240-247 | the inertia is never 0: twice the area times the mass, with 0 replaced by 0.25 |
| Engine.Body.constructor | QuarkPhysics/qbody.h:43-109 | the field defaults: dynamic rigid body at the origin, enabled, caches stale, friction 0.2, static friction 0.5, air friction 0.01, mass 1, restitution 0 |
| Engine.Body.AddForce | QuarkPhysics/qbody.h:409-420 | force = old force + value |
| Engine.Body.SetMass | QuarkPhysics/qbody.h:538-542 | the mass is stored and the inertia is stale |
| Engine.Body.SetPreviousPosition | QuarkPhysics/qbody.h:374-377 | only the previous position changes |
| Engine.Body.SetEnabledAsWritten | QuarkPhysics/qbody.h:573-575 | the body ends enabled whatever the argument |
| Engine.Body.SetEnabled | QuarkPhysics/qbody.h:573-575 | the enabled flag becomes the argument |
| Engine.Body.RemoveMeshAt | QuarkPhysics/qbody.cpp:173-178 | exactly the mesh at the index goes; inertia and circumference go stale |
| Engine.Body.AddMesh | QuarkPhysics/qbody.cpp:154-162 | the mesh is appended and owned by the body; inertia and circumference go stale; every mesh is placed at the body's transform; the new mesh derives its collision behaviour from the body |
| Engine.Body.UpdateMeshTransforms | QuarkPhysics/qbody.cpp:227-251 | every particle is placed at its mesh's transform; its previous position becomes its old global position for a rigid body and its new one otherwise; the body's own transform is untouched |
| Engine.Body.SeparateMeshes | QuarkPhysics/qbody.cpp:227-251 | when each particle names its mesh as owner, no two meshes of the body share a particle, so placing one mesh leaves the others as they were |
| Engine.Body.SetPosition | QuarkPhysics/qbody.h:352-361 | position = value; the previous position becomes the value too when asked and is unchanged otherwise; then every mesh is placed and the box is recomputed |
| Engine.Body.SetRotation | QuarkPhysics/qbody.h:390-396 | rotation = angle; the previous rotation becomes the angle too when asked and is unchanged otherwise; then every mesh is placed |
| Engine.Body.GetTotalArea | QuarkPhysics/qbody.h:204-234 | the sum of one of the four mesh area getters over the meshes, each mesh refreshing its sub-convex polygons |
| Engine.Body.GetInertia | QuarkPhysics/qbody.h:240-247 | a stale inertia is recomputed from the total initial area and mass (0 becomes 0.25) and the flag cleared; a fresh one is returned untouched; a sound cache is never 0 |
| Engine.Body.GetCircumference | QuarkPhysics/qbody.h:310-320 | a stale circumference is recomputed as the sum of the meshes' circumferences and the flag cleared; a fresh one is returned untouched |
| Engine.Body.UpdateAABB | QuarkPhysics/qbody.cpp:195-225 | the box encloses every particle of every mesh, grown by its radius when that is above 0.5, from the inverted start box of side MAX_WORLD_SIZE |
| Engine.Body.BoxedContains | QuarkPhysics/qbody.cpp:195-225 | an up-to-date box contains the box of every particle disc of the body |
| Engine.MeshBounds | QuarkPhysics/qbody.cpp:197-222 | the two nested loops compute the bounds of the enclosing box of all the body's particle discs |
| Engine.ExtendBounds | QuarkPhysics/qbody.cpp:204-220 | the inner loop carries the running bounds over one mesh's particles |
| Engine.Canonical | QuarkPhysics/qworld.cpp:804-811 | the stored pair holds the two bodies, the lower pointer first |
| Engine.CanonicalSymmetric | QuarkPhysics/qworld.cpp:802-863 | both argument orders name the same stored pair |
| Engine.BodyPairEqualEquivalence | QuarkPhysics/qworld.h:60-65 | bodyPairEqual is reflexive, symmetric, transitive and ignores the order inside a pair |
| Engine.CanCollideSymmetric | QuarkPhysics/qbody.cpp:108-132 | CanCollide gives the same answer for both argument orders |
| Engine.CanCollideFilters | QuarkPhysics/qbody.cpp:108-132 | different worlds, two resting bodies, disjoint layer masks, a collision exception, or a disabled body when asked each make CanCollide false |
| Engine.CollisionResponseRules | QuarkPhysics/qbody.cpp:265-272 | no response to a static body, none between kinematic bodies when the other disallows it, none from a dynamic non-kinematic body to a kinematic one; two dynamic non-kinematic bodies respond to each other |
| Engine.LinkedSymmetric | QuarkPhysics/qworld.cpp:964-972 | the island edge (box overlap and CanCollide) is symmetric |
| Engine.IslandDistinct | QuarkPhysics/qworld.cpp:951-974 | an island holds no body twice |
| Engine.World.constructor | QuarkPhysics/qworld.h:69-99 | empty registries; gravity (0, 0.2), sleeping and broad phase on, 4 iterations, time scale 1, tolerances 0.1 and one degree |
| Engine.World.SetGravity | QuarkPhysics/qworld.h:180-182 | stores the gravity and returns the same world |
| Engine.World.SetIterationCount | QuarkPhysics/qworld.h:217-220 | stores the count and returns the same world |
| Engine.World.SetEnabled | QuarkPhysics/qworld.h:234 | stores the flag and returns the same world |
| Engine.World.SetSleepingEnabled | QuarkPhysics/qworld.h:187 | stores the flag and returns the same world |
| Engine.World.SetBroadphaseEnabled | QuarkPhysics/qworld.h:207 | stores the flag and returns the same world |
| Engine.World.SetTimeScale | QuarkPhysics/qworld.h:226 | stores the scale and returns the same world |
| Engine.World.SetSleepingTolerances | QuarkPhysics/qworld.h:194-201 | stores the two tolerances and returns the same world |
| Engine.World.AddCollisionException | QuarkPhysics/qworld.cpp:802-815 | the canonical pair is inserted, after which CheckCollisionException holds in both argument orders |
| Engine.World.RemoveCollisionException | QuarkPhysics/qworld.cpp:817-831 | the canonical pair is erased, after which CheckCollisionException fails in both argument orders |
| Engine.World.RemoveMatchingCollisionException | QuarkPhysics/qworld.cpp:833-846 | a null body changes nothing; otherwise exactly the pairs mentioning the body go |
| Engine.World.AddBody | QuarkPhysics/qworld.cpp:428-432 | the body is appended at the end, the others unchanged, and it points at this world |
| Engine.World.GetBodyIndex | QuarkPhysics/qworld.h:288-296 | -1 for a null pointer, otherwise the first index of the body or -1 |
| Engine.World.RemoveBodyAt | QuarkPhysics/qworld.cpp:452-469 | out of range nothing changes; otherwise exactly that body goes, the rest keep their order, and no exception, joint or spring refers to it |
| Engine.World.RemoveBody | QuarkPhysics/qworld.cpp:442-450 | a null or absent body changes nothing; otherwise RemoveBodyAt at its index |
| Engine.World.AddJointAsWritten | QuarkPhysics/qworld.cpp:669-679 | the joint is appended and points at this world; the exception is added when the joint has collisions enabled |
| Engine.World.AddJoint | QuarkPhysics/qworld.cpp:669-679 | as AddJointAsWritten, but the exception is added when the joint has collisions disabled, after which its bodies cannot collide |
| Engine.World.GetJointIndex | QuarkPhysics/qworld.h:349-354 | the first index of the joint, or -1 |
| Engine.World.RemoveJoint | QuarkPhysics/qworld.cpp:681-690 | the first occurrence of the joint goes, if any |
| Engine.World.RemoveJointAt | QuarkPhysics/qworld.cpp:692-696 | exactly the joint at the index goes |
| Engine.World.RemoveMatchingJoints | QuarkPhysics/qworld.cpp:698-710 | every joint with the body at either end goes, the others keep their order |
| Engine.World.AddSpring | QuarkPhysics/qworld.cpp:712-716 | the spring is appended |
| Engine.World.GetSpringIndex | QuarkPhysics/qworld.h:392-397 | the first index of the spring, or -1 |
| Engine.World.RemoveSpring | QuarkPhysics/qworld.cpp:718-726 | the first occurrence of the spring goes, if any |
| Engine.World.RemoveSpringAt | QuarkPhysics/qworld.cpp:728-733 | exactly the spring at the index goes |
| Engine.World.RemoveMatchingSprings | QuarkPhysics/qworld.cpp:735-762 | every spring with an end particle in one of the body's meshes goes, the others keep their order |
| Engine.World.RemoveMatchingSpringsOfParticle | QuarkPhysics/qworld.cpp:764-777 | every spring with the particle at either end goes, the others keep their order |
| Engine.World.AddRaycast | QuarkPhysics/qworld.cpp:779-785 | the raycast is appended and points at this world |
| Engine.World.GetRaycastIndex | QuarkPhysics/qworld.h:427-432 | the first index of the raycast, or -1 |
| Engine.World.RemoveRaycast | QuarkPhysics/qworld.cpp:787-794 | the first occurrence of the raycast goes, if any |
| Engine.World.RemoveRaycastAt | QuarkPhysics/qworld.cpp:796-800 | exactly the raycast at the index goes |
| Engine.World.CreateIslands | QuarkPhysics/qworld.cpp:951-974 | the depth-first search adds to the island exactly the unvisited eligible bodies reachable from its start, marking each |
| Engine.World.GenerateIslands | QuarkPhysics/qworld.cpp:977-1005 | every enabled non-static body is in exactly one island, no other body in any, and each island is closed under box overlap plus CanCollide |
| Engine.GroupsArePartition | QuarkPhysics/qworld.cpp:977-1005 | the groups cover every eligible body and are closed under the island edge |
| Engine.World.HasMovingParticles | QuarkPhysics/qworld.cpp:349-370 | true exactly when some particle of the body moved beyond the position tolerance |
| Engine.World.IslandNeedsAwake | QuarkPhysics/qworld.cpp:338-375 | true exactly when some member moved beyond tolerance |
| Engine.World.CountQuietStep | QuarkPhysics/qworld.cpp:376-384 | every member counts one more quiet step, and the island may sleep exactly when every member has counted at least 120 |
| Engine.World.FallAsleep | QuarkPhysics/qworld.cpp:385-400 | every member sleeps; a rigid member's previous transform becomes its current one, every particle of any other member gets its global position as previous |
| Engine.World.SleepIsland | QuarkPhysics/qworld.cpp:332-410 | an island with a moving member is woken whole with counters 0; otherwise it sleeps only when every member has counted 120 quiet steps |
| Engine.World.UpdateSleeping | QuarkPhysics/qworld.cpp:329-412 | the islands are generated afresh and no body starts sleeping before it has counted 120 quiet steps |
| Engine.World.Update | QuarkPhysics/qworld.cpp:63-66 | a disabled world changes nothing at all; an enabled world with sleeping on ends its step with the sleep step |
| Engine.JointsOf | QuarkPhysics/qworld.cpp:698-710 | a joint is selected exactly when the body is at one of its ends |
| Engine.SpringsOfBody | QuarkPhysics/qworld.cpp:735-762 | a spring is selected exactly when an end particle belongs to a mesh of the body |
| Engine.Joint.constructor | QuarkPhysics/qjoint.cpp:32-64 | the rest distance is the distance between the world anchors (0 for a common anchor), each anchor is kept in its body's frame, the world is body A's else body B's |
| Engine.Joint.Destroy | QuarkPhysics/qjoint.cpp:66-70 | a joint that disabled its bodies' collisions gives the exception back to its world; otherwise nothing changes |
| Engine.Joint.SetCollisionEnabled | QuarkPhysics/qjoint.cpp:167-177 | stores the flag; with a world and both bodies, true removes and false adds their collision exception |
| Engine.Joint.Update | QuarkPhysics/qjoint.cpp:74-164 | nothing moves when every present body is static; otherwise the anchors follow their bodies, a groove joint below its rest distance is not corrected, the two forces are opposite and a static body is never moved |
| Engine.WorldOf | QuarkPhysics/qjoint.cpp:55-61 | the joint's world is body A's when it has one, else body B's, else none |
| Engine.CurrentBehavior | QuarkPhysics/qraycast.cpp:97-101 | the behaviour the raycast reads is the stored one when fresh, the recomputed one when stale |
| Engine.MeshShape | QuarkPhysics/qraycast.cpp:95-102 | a circles mesh is offered as discs, a polygons mesh as its polygons' global vertices, a polyline mesh as nothing |
| Engine.Targets | QuarkPhysics/qraycast.cpp:94-103 | every body of the world is offered, in order, with its box and its meshes' shapes |
| Engine.Raycast.constructor | QuarkPhysics/qraycast.cpp:33-39 | unrotated, in no world, without contacts, the ray equal to the given vector |
| Engine.Raycast.SetPosition | QuarkPhysics/qraycast.cpp:137-141 | stores the position and returns the same raycast |
| Engine.Raycast.SetRotation | QuarkPhysics/qraycast.cpp:143-148 | the ray becomes the original vector turned by the new rotation |
| Engine.Raycast.SetRayVector | QuarkPhysics/qraycast.cpp:150-155 | the original vector is replaced and the ray is it turned by the current rotation (itself when unrotated) |
| Engine.Raycast.SetEnabledContainingBodies | QuarkPhysics/qraycast.cpp:157-161 | stores the flag and returns the same raycast |
| Engine.Raycast.UpdateContacts | QuarkPhysics/qraycast.cpp:78-82 | outside a world nothing happens; inside one the contacts become the world's hits for the current ray, sorted by distance |
| Engine.Mesh.AddParticlesOf | QuarkPhysics/qmesh.cpp:223-228 | one new particle per position of the data, in order, carrying the data's radius and internal flag; every particle is owned by the mesh and none appears twice |
| Engine.NewParticleFrom | QuarkPhysics/qmesh.cpp:224-226 | a fresh particle, in no mesh yet, standing at the data's position with zero force, mass 1, the data's radius and internal flag |
| Engine.MakeSprings | QuarkPhysics/qmesh.cpp:246-256 | one new spring per index pair, in order, joining the particles the pair names, of the given kind and resting at their distance |
| Engine.Mesh.AddSpringsOf | QuarkPhysics/qmesh.cpp:244-257 | the springs are the boundary springs of the data followed by its internal ones, each joining the particles at its indices, so those indices are recovered from the particle list |
| Engine.PickedPolygons | QuarkPhysics/qmesh.cpp:231-240 | each closed polygon lists the particles its index list names, in order |
| Engine.IndexOfDistinct | QuarkPhysics/qmesh.cpp:236 | in a particle list without repeats, looking up the i-th particle gives back i |
| Engine.CreateWithMeshData | QuarkPhysics/qmesh.cpp:219-262 | a new unowned mesh holding one new particle per position of the data; its polygons (when enabled) and springs (when enabled) name the particles the data's indices give, recoverable by index lookup; position and rotation come from the data |
| Manifolds.Key | QuarkPhysics/qmanifold.h:69-82 | the key holds the two bodies, the lower pointer first |
| Manifolds.KeyIgnoresOrder | QuarkPhysics/qmanifold.h:71-79 | both argument orders give identical keys |
| Manifolds.KeyOrderStrict | QuarkPhysics/qmanifold.h:84-92 | the key order is irreflexive, asymmetric and transitive |
| Manifolds.KeyOrderTotal | QuarkPhysics/qmanifold.h:84-92 | any two distinct keys are ordered one way or the other |
| Manifolds.Manifold.constructor | QuarkPhysics/qmanifold.cpp:39-62 | the bodies are stored in pointer order, the restitution is the lower of the two, the inverse mass times the summed mass is 1, and the manifold is one-sided exactly when either body may not respond to the other |
| Manifolds.GetRelativeVelocity | QuarkPhysics/qmanifold.cpp:90-126 | the loop over the reference particles computes the relative velocity of the incident side against the reference side, including the turn of each arm |
| Manifolds.RestingPairHasNoRelativeVelocity | QuarkPhysics/qmanifold.cpp:90-126 | partners that did not move in the last step have no relative velocity, whatever the arms |
| Manifolds.ZeroArmsGiveLinearVelocity | QuarkPhysics/qmanifold.cpp:330 | with both arms zero the relative velocity is the linear one |
| Manifolds.Scaled | QuarkPhysics/qmanifold.cpp:149-155 | the penetration is scaled by 0.75 between rigid bodies and 0.5 between soft bodies, and never ends negative |
| Manifolds.Response | QuarkPhysics/qmanifold.cpp:157-162 | the response force lies along the normal with the penetration as size, doubled when the pair bounces and shared among the contacts of a rigid pair |
| Manifolds.SharesAddUp | QuarkPhysics/qmanifold.cpp:253-256 | for a two-sided manifold the two partners' shares of a force add up to the whole force |
| Manifolds.ResponseIsShared | QuarkPhysics/qmanifold.cpp:245-282 | when both sides are pushed, the incident push minus the reference push is exactly the response force |
| Manifolds.SolvedIffPushed | QuarkPhysics/qmanifold.cpp:258-282 | a contact becomes solved exactly when Solve pushes something for it |
| Manifolds.AreaContactsArePassive | QuarkPhysics/qmanifold.cpp:200-240 | a contact touching an area body is never pushed and does not become solved |
| Manifolds.Respond | QuarkPhysics/qmanifold.cpp:149-282 | one turn of Solve yields the contact's pushes and solved flag as SolvePushes and Resolved define them |
| Manifolds.Enrolled | QuarkPhysics/qmanifold.cpp:200-210 | an area partner of a touch learns the other body, and only an area body learns anything |
| Manifolds.Register | QuarkPhysics/qmanifold.cpp:200-210 | each area body's set grows by exactly the bodies the touch enrols with it, and its enter events stay balanced |
| Manifolds.RegisterAll | QuarkPhysics/qmanifold.cpp:146-286 | over a list of contacts, each area body's set grows by exactly the bodies the touches enrol with it |
| Manifolds.Manifold.Solve | QuarkPhysics/qmanifold.cpp:132-291 | every contact is stored back with its scaled penetration and solved flag and yields its pushes, in order; the first contact sets the linear relative velocity |
| Manifolds.ImpulseAlongNormal | QuarkPhysics/qmanifold.cpp:327-332 | for a unit normal the velocity-correction impulse has normal component j times the restitution |
| Manifolds.ImpulseCancelsTangent | QuarkPhysics/qmanifold.cpp:330-332 | added to the relative velocity, the impulse leaves only motion along the normal |
| Manifolds.CorrectionSeparates | QuarkPhysics/qmanifold.cpp:327-363 | for two movable rigid partners of a bouncing contact, the corrected velocities differ by exactly the impulse, whatever the masses |
| Manifolds.CorrectVelocities | QuarkPhysics/qmanifold.cpp:327-363 | the previous positions of the two partners become the corrected ones, through SetPreviousPosition |
| Manifolds.FrictionSparesKinematic | QuarkPhysics/qmanifold.cpp:302-410 | an unsolved contact gets no friction, and friction never pushes a kinematic rigid partner |
| Manifolds.Manifold.SolveFrictionAndVelocities | QuarkPhysics/qmanifold.cpp:293-419 | nothing happens when neither body is dynamic; otherwise a bouncing first contact corrects the partners' velocities and every solved contact yields its friction pushes |
| MeshDatas.GenerateRectangleMeshData | QuarkPhysics/qmesh.cpp:351-475 | every index names a particle and there is one polygon; a grid of at most 1 by 1 gives the 4 corners, polygon [0,1,2,3], boundary springs (0,1),(1,2),(2,3),(3,0) and internal springs (0,2),(1,3) |
| MeshDatas.GridMeshData | QuarkPhysics/qmesh.cpp:379-472 | the grid branch: (gridX+1)(gridY+1) particles, internal exactly off the border, every spring joins neighbouring cells, and every index names a particle |
| MeshDatas.GridParticles | QuarkPhysics/qmesh.cpp:383-398 | particle k sits at column k mod (gridX+1), row k div (gridX+1) of the grid, internal exactly when it is off the border |
| MeshDatas.GridSprings | QuarkPhysics/qmesh.cpp:401-431 | every spring joins two neighbouring grid cells; boundary springs run along the outer rows and columns, the rest are internal |
| MeshDatas.GridCellOf | QuarkPhysics/qmesh.cpp:402-403 | an index below w*h has its column and row inside the grid and is recovered from them |
| MeshDatas.OrderSprings | QuarkPhysics/qmesh.cpp:434-463 | the ordered list starts with the first spring, takes springs from the original list only, and each spring but the last starts where the one before it ends |
| MeshDatas.FindNext | QuarkPhysics/qmesh.cpp:446-454 | the first remaining spring that starts where the chain ends, or -1 when there is none |
| MeshDatas.FirstsOf | QuarkPhysics/qmesh.cpp:466-470 | the polygon is the start particle of each ordered boundary spring, in order |
| MeshDatas.GeneratePolygonMeshData | QuarkPhysics/qmesh.cpp:477-560 | sideCount boundary particles form the polygon [0..sideCount-1] with ring springs (i,(i+1) mod sideCount); it stops there when polarGrid < 0, adds exactly 2 sideCount construction springs when polarGrid = 0, and every index names a particle |
| MeshDatas.BoundaryRing | QuarkPhysics/qmesh.cpp:484-495 | sideCount particles on the circle, not internal, the polygon through them and the ring of springs |
| MeshDatas.BoundaryConstructionSprings | QuarkPhysics/qmesh.cpp:502-510 | two springs per boundary particle, (i-2,i) and (i,i+2) modulo the count, in particle order |
| MeshDatas.InnerRings | QuarkPhysics/qmesh.cpp:518-546 | polarGrid-1 rings of internal particles, sideCount each, every spring naming a particle |
| MeshDatas.RingParticles | QuarkPhysics/qmesh.cpp:521-532 | one ring of sideCount internal particles appended, each after the first sprung to its predecessor and the ring closed |
| MeshDatas.RingSprings | QuarkPhysics/qmesh.cpp:536-545 | the cross-bracing springs of the newest ring all name particles and only extend the list |
| MeshDatas.CentreParticle | QuarkPhysics/qmesh.cpp:549-556 | an internal centre particle is appended and sprung to the particles before it, every spring naming a particle |
| ObjectPool.ToSize | QuarkPhysics/qobjectpool.cpp:97-98 | the link -1 becomes SIZE_MAX and a nonnegative link stays itself |
| ObjectPool.ToLink | QuarkPhysics/qobjectpool.cpp:106 | SIZE_MAX becomes -1 and a small head stays itself |
| ObjectPool.Pool.constructor | QuarkPhysics/qobjectpool.cpp:64-76 | two nodes chained 0, 1, end, with head 0 |
| ObjectPool.Pool.Sized | QuarkPhysics/qobjectpool.cpp:78-84 | as intended: initialSize nodes, all free in index order |
| ObjectPool.Pool.Resize | QuarkPhysics/qobjectpool.cpp:33-56 | as intended: the old nodes keep their links and the new nodes are chained in order and end the list |
| ObjectPool.Pool.Create | QuarkPhysics/qobjectpool.cpp:91-102 | pops the head of the free list, doubling the pool first when the list is empty; the node handed out is in range and no longer free |
| ObjectPool.Pool.Free | QuarkPhysics/qobjectpool.cpp:104-108 | a node that is not free is pushed on the head of the free list; no other link changes |
| ObjectPool.Pool.FreeAll | QuarkPhysics/qobjectpool.cpp:110-118 | every node is free again, chained in index order with head 0 |
| ObjectPool.ResizeAsWritten | QuarkPhysics/qobjectpool.cpp:41-45 | as written, the last new node links to newSize, one past the array |
| ObjectPool.ResizeAsWrittenOverruns | QuarkPhysics/qobjectpool.cpp:91-102 | from a fresh pool the fifth Create reads node 4 of a four-node array |
| ObjectPool.SizedAsWrittenSkipsInitialNodes | QuarkPhysics/qobjectpool.cpp:78-84 | as written, the sized pool reports no free node and its first Create returns node initialSize, skipping every initial node |
| Polygons.PolygonArea | QuarkPhysics/qmesh.cpp:320-341 | the area is never negative, and 0 for no vertices |
| Polygons.PrefixIsClosed | QuarkPhysics/qmesh.cpp:322-338 | the sum the loop accumulates, with its wrap-around last edge, is the closed-chain sum |
| Polygons.ClosedSumRotation | QuarkPhysics/qmesh.cpp:322-338 | starting the vertex list at any vertex gives the same signed sum |
| Polygons.ChainSumReverse | QuarkPhysics/qmesh.cpp:322-338 | walking the vertices backwards negates the signed sum |
| Polygons.AreaRotationInvariant | QuarkPhysics/qmesh.cpp:320-341 | the area does not depend on the starting vertex |
| Polygons.AreaReversalInvariant | QuarkPhysics/qmesh.cpp:320-341 | the area does not depend on the winding direction |
| Raycasting.MakeRay | QuarkPhysics/qraycast.cpp:86-92 | the ray keeps its origin, vector and containing flag, and its normal is the perpendicular of its unit vector |
| Raycasting.ReachableIffColliding | QuarkPhysics/qraycast.cpp:45-70 | the sign-aware box test passes exactly when the body's box meets the box spanned by the ray |
| Raycasting.Potentials | QuarkPhysics/qraycast.cpp:50-72 | the kept bodies are exactly the reachable ones, in world order |
| Raycasting.GetPotentialBodies | QuarkPhysics/qraycast.cpp:41-74 | the loop keeps exactly the reachable bodies, in world order; the layer mask is never read |
| Raycasting.RaycastToParticles | QuarkPhysics/qraycast.cpp:163-204 | at most one contact is appended for the mesh, the best hit of the particle scan |
| Raycasting.ConsiderParticle | QuarkPhysics/qraycast.cpp:171-196 | one particle's test: too far, missed, behind the origin (dropped, or moved to the origin in containing mode) or the new nearest hit |
| Raycasting.DiscScanFacts | QuarkPhysics/qraycast.cpp:165-198 | a hit is recorded exactly when some particle is entered by the ray, and the recorded hit is such a particle's entry point, normal and distance |
| Raycasting.ParticleHitMeaning | QuarkPhysics/qraycast.cpp:163-204 | the mesh yields a contact exactly when some particle is entered by the ray |
| Raycasting.EdgeStep | QuarkPhysics/qraycast.cpp:222-234 | an edge crossing no farther than the best so far becomes the best; the recorded distance never grows |
| Raycasting.RaycastToPolygon | QuarkPhysics/qraycast.cpp:206-256 | at most one contact is appended for the mesh, from the nearest edge crossing |
| Raycasting.ScanEdges | QuarkPhysics/qraycast.cpp:220-239 | the inner loop computes the edge scan of one polygon |
| Raycasting.PolygonsScanBound | QuarkPhysics/qraycast.cpp:218-240 | the recorded distance is at most that of every edge crossing of every polygon |
| Raycasting.PolygonsScanFound | QuarkPhysics/qraycast.cpp:218-242 | a crossing is recorded exactly when some edge crossing lies within the world's size of the origin |
| Raycasting.PolygonHitMeaning | QuarkPhysics/qraycast.cpp:242-255 | the contact comes from the nearest crossing; when that edge faces along the ray the contact sits at the origin, which happens only in containing mode |
| Raycasting.HitsFromTargets | QuarkPhysics/qraycast.cpp:94-103 | every contact belongs to one of the bodies scanned |
| Raycasting.InsertByDistanceSorted | QuarkPhysics/qraycast.cpp:258-261 | inserting a contact into a distance-sorted list keeps it sorted |
| Raycasting.SortByDistance | QuarkPhysics/qraycast.cpp:105 | the sort is a permutation of the contacts |
| Raycasting.SortByDistanceSorted | QuarkPhysics/qraycast.cpp:105 | the sorted contacts are in ascending distance |
| Raycasting.Cast | QuarkPhysics/qraycast.cpp:86-108 | the result is sorted by distance, is a permutation of the hits on the reachable bodies, and every contact belongs to a reachable body |
| Raycasting.CastBody | QuarkPhysics/qraycast.cpp:95-102 | the loop over one body's meshes appends exactly that body's hits |
| Raycasting.CastBodies | QuarkPhysics/qraycast.cpp:94-103 | the loop over the reachable bodies collects exactly their hits, in order |
| Raycasting.RaycastTo | QuarkPhysics/qraycast.cpp:86-108 | circle meshes through RaycastToParticles, polygon meshes through RaycastToPolygon, polyline meshes not at all, then sorted: the result is Cast |
| Seqs.IndexOf | QuarkPhysics/qworld.h:288-296 | -1 exactly when the element is absent; otherwise a position holding it with no earlier occurrence |
| Seqs.RemoveAt | QuarkPhysics/qworld.cpp:692-696 | one element shorter; the elements before the index stay, those after it move down by one |
| Seqs.Without | QuarkPhysics/qworld.cpp:698-710 | no element of the dropped set survives, every other element does, and nothing new appears |
| RigidBodies.Snap | QuarkPhysics/qrigidbody.cpp:146-153 | a velocity component below 0.01 in magnitude becomes 0, any other stays as it is |
| RigidBodies.Capped | QuarkPhysics/qrigidbody.cpp:155-157 | a velocity within a positive limit, or any velocity when there is no limit, passes unchanged; the zero velocity stays zero |
| RigidBodies.Step | QuarkPhysics/qrigidbody.cpp:143-184 | after one step the previous position and rotation are the old current ones, and the pending force and angular force are 0 |
| RigidBodies.KinematicMovesByForceOnly | QuarkPhysics/qrigidbody.cpp:165-184 | a body that does not integrate moves and turns by exactly its pending forces |
| RigidBodies.RestingBodyStaysPut | QuarkPhysics/qrigidbody.cpp:143-184 | a body at rest with no gravity and no pending forces stays exactly where it is, its previous pose snapped to the current one |
| RigidBodies.SnappedToRest | QuarkPhysics/qrigidbody.cpp:143-153 | components below 0.01 give a zero velocity |
| RigidBodies.RigidBody.constructor | QuarkPhysics/qrigidbody.cpp:34-38 | a fresh dynamic body of rigid model and rigid type, no pending forces, free rotation |
| RigidBodies.RigidBody.SetForce | QuarkPhysics/qrigidbody.cpp:67-72 | the body wakes and the pending force is replaced |
| RigidBodies.RigidBody.AddForce | QuarkPhysics/qrigidbody.cpp:74-77 | the body wakes and force = old force + value |
| RigidBodies.RigidBody.SetAngularForce | QuarkPhysics/qrigidbody.cpp:102-107 | the body wakes and the pending angular force is replaced |
| RigidBodies.RigidBody.AddAngularForce | QuarkPhysics/qrigidbody.cpp:109-112 | the body wakes and angular force = old angular force + value |
| RigidBodies.RigidBody.ApplyForceAt | QuarkPhysics/qrigidbody.cpp:50-65 | a static or disabled body is left unchanged; otherwise the position moves by the force, the rotation turns by the torque over the inertia unless fixed, and the meshes follow when asked |
| RigidBodies.RigidBody.Turn | QuarkPhysics/qrigidbody.cpp:58 | no torque gives no turn, and a positive torque over a positive inertia turns forwards |
| RigidBodies.RigidBody.NoArmNoTurn | QuarkPhysics/qrigidbody.cpp:79-82 | a force applied at the centre does not turn the body |
| RigidBodies.RigidBody.ApplyForce | QuarkPhysics/qrigidbody.cpp:79-82 | a static or disabled body is left unchanged; otherwise it moves by the force without turning and its meshes follow |
| RigidBodies.RigidBody.ApplyImpulse | QuarkPhysics/qrigidbody.cpp:84-96 | the previous position moves back by the impulse while the position stays; unless the rotation is fixed the previous rotation moves back by the impulse's torque over the inertia |
| RigidBodies.RigidBody.Update | QuarkPhysics/qrigidbody.cpp:114-188 | a static, worldless or sleeping body keeps its motion, meshes and box; otherwise the motion takes one Step, the meshes are placed and the box recomputed |
| SoftBodies.SafeAsin | QuarkPhysics/qsoftbody.h:62-70 | asin of the argument clamped into [-1, 1]; an argument already inside is passed as it is |
| SoftBodies.Integrated | QuarkPhysics/qsoftbody.cpp:78-83 | the particle moves by its damped velocity, the gravity step and its pending force; its previous position is the one it left and its force is consumed |
| SoftBodies.RestingParticleStaysPut | QuarkPhysics/qsoftbody.cpp:78-83 | a particle at rest without gravity and without a pending force stays where it is |
| SoftBodies.Stabilized | QuarkPhysics/qsoftbody.cpp:123-130 | until the latch is set a negative deficit counts as 0, and the first nonnegative deficit sets the latch; once set the deficit passes unchanged |
| SoftBodies.LatchNeverCleared | QuarkPhysics/qsoftbody.cpp:124-130 | once set, the stability latch is never cleared |
| SoftBodies.LatchSetIff | QuarkPhysics/qsoftbody.cpp:117-130 | from an unset latch, the latch ends set exactly when some deficit was nonnegative |
| SoftBodies.Pressure | QuarkPhysics/qsoftbody.cpp:133 | no deficit or no rigidity gives no pressure; with positive circumference and rigidity the pressure has the sign of the deficit |
| SoftBodies.NoSuctionBeforeLatch | QuarkPhysics/qsoftbody.cpp:123-133 | before the latch is set the pressure is never negative, so a mesh is never pulled inwards |
| SoftBodies.PressureForceIsNormal | QuarkPhysics/qsoftbody.cpp:140-143 | the volume force of a vertex is perpendicular to the chord between its neighbours |
| SoftBodies.PullMagnitude | QuarkPhysics/qsoftbody.cpp:263 | the pull magnitude is the smaller of the quadratic term and len times ts |
| SoftBodies.PullBounded | QuarkPhysics/qsoftbody.cpp:260-264 | the pull points towards the target and is never longer than the distance times the time scale |
| SoftBodies.FarPullIsWholeDistance | QuarkPhysics/qsoftbody.cpp:260-264 | far from the target, the pull is the whole distance times ts |
| SoftBodies.PulledWithinReach | QuarkPhysics/qsoftbody.cpp:255-266 | a pulled particle moves along the line to its target by at most its distance times ts |
| SoftBodies.AtTargetStaysPut | QuarkPhysics/qsoftbody.cpp:255-266 | a particle already at its target is not moved |
| SoftBodies.TranslatedShapeIsMatched | QuarkPhysics/qsoftbody.cpp:163-202 | when every particle sits at its local position moved by one translation, the matched pose is that translation with no turn, so every target is the particle's own position |
| SoftBodies.SoftBody.constructor | QuarkPhysics/qsoftbody.h:37-57 | a mass-spring model, soft-type dynamic body with the option defaults: rigidity 1, rate 0.8, area rigidity 1, target area 0, particle mass 1, shape-matching rate 0.4, every option off |
| SoftBodies.SoftBody.SetAreaPreservingEnabled | QuarkPhysics/qsoftbody.h:107-113 | stores the option; true also sets the target to the total initial polygon area, false leaves the target alone |
| SoftBodies.SoftBody.SetShapeMatchingEnabled | QuarkPhysics/qsoftbody.h:145-149 | stores the option and sets ApplyShapeMatchingInternals to the negation of withoutInternals |
| SoftBodies.SoftBody.GetMass | QuarkPhysics/qsoftbody.h:206-211 | the particle-specific mass exactly when that option is on, else the body's mass |
| SoftBodies.SoftBody.Update | QuarkPhysics/qsoftbody.cpp:47-102 | a static or sleeping body keeps every particle, its latch and its box; otherwise every particle's previous position and force become those of its step (one Integrated step unless passive), with area preservation off its whole motion state is that step and the latch is kept, the latch is never cleared, and the body ends boxed and awake |
| SoftBodies.SoftBody.AdvanceBoxed | QuarkPhysics/qsoftbody.cpp:72-99 | for a body that is neither static nor asleep: every particle's previous position and force follow its step, with area preservation off its whole motion state does and the latch is kept, the latch is never cleared, and the box is recomputed |
| SoftBodies.SoftBody.Advance | QuarkPhysics/qsoftbody.cpp:72-90 | the integration loop followed, when enabled, by PreserveAreas: previous positions and forces follow each particle's step, the latch is never cleared and the body stays awake |
| SoftBodies.SoftBody.IntegrateAll | QuarkPhysics/qsoftbody.cpp:72-85 | every particle of every mesh ends with its Next motion state from where it started: one Integrated step, or unchanged when passive |
| SoftBodies.SoftBody.PreserveAreasLatched | QuarkPhysics/qsoftbody.cpp:88-90 | PreserveAreas never clears the stability latch and changes no particle's previous position or force |
| SoftBodies.SoftBody.IntegrateMesh | QuarkPhysics/qsoftbody.cpp:74-84 | a passive internal particle is skipped; every other particle of the mesh takes exactly one integrated step |
| SoftBodies.SoftBody.Integrate | QuarkPhysics/qsoftbody.cpp:78-83 | one particle's motion state becomes its Integrated step; its local position stays and the body is awake |
| SoftBodies.SoftBody.PreserveAreas | QuarkPhysics/qsoftbody.cpp:104-159 | the meshes with springs are listed in order, each with its deficit: target area times rate less its polygon area at entry; the latch ends as Latch over those deficits; each such mesh's closed-polygon particles end at Inflated from the entry positions by the pressure of its own deficit under the latch of the deficits before it; meshes without springs, and everything while the latch stays unset, keep their positions |
| SoftBodies.SoftBody.AreaPass | QuarkPhysics/qsoftbody.cpp:117-157 | after the pass over the recorded start state: the springy meshes, their deficits and the latch as PreserveAreas states them, and each springy mesh inflated by its own pressure while the others stay |
| SoftBodies.SoftBody.AreaLoop | QuarkPhysics/qsoftbody.cpp:117-157 | from the invariant on no meshes to the invariant on all of them: the latch, deficits and pushes of every springy mesh met, the rest untouched |
| SoftBodies.SoftBody.StartHolds | QuarkPhysics/qsoftbody.cpp:104-117 | the record of the state PreserveAreas starts from, with no mesh met yet, satisfies the loop invariant |
| SoftBodies.SoftBody.SkipSpringless | QuarkPhysics/qsoftbody.cpp:119 | a mesh without springs is passed over and the loop invariant carries to the next mesh unchanged |
| SoftBodies.SoftBody.AreaStep | QuarkPhysics/qsoftbody.cpp:119-156 | one turn on a mesh with springs carries the loop invariant to the next mesh, with that mesh and its deficit added to the run |
| SoftBodies.TurnKept | QuarkPhysics/qsoftbody.cpp:119-156 | what PreserveMesh does to one springy mesh takes the loop invariant over that mesh, with the mesh and its deficit appended |
| SoftBodies.HeldKept | QuarkPhysics/qsoftbody.cpp:117-157 | a turn that changes no mesh's particle list keeps the meshes disjoint and the start record covering them |
| SoftBodies.StepReady | QuarkPhysics/qsoftbody.cpp:119-121 | before a mesh is processed its polygon area is the recorded one and its closed-polygon particles are at their recorded positions |
| SoftBodies.SoftBody.AreasDone | QuarkPhysics/qsoftbody.cpp:117-157 | the invariant after the last mesh gives the springy meshes in order, their deficits against the recorded areas, and the latch over them |
| SoftBodies.SoftBody.AreasDonePushed | QuarkPhysics/qsoftbody.cpp:117-157 | the invariant after the last mesh gives where every closed-polygon particle is: inflated by its own mesh's pressure, or unmoved for a mesh without springs |
| SoftBodies.SoftBody.PreserveMesh | QuarkPhysics/qsoftbody.cpp:119-156 | the returned deficit is target area times rate less the mesh's polygon area at entry; it passes through the latch, the circumference is cached, the mesh's closed polygons are inflated from the given positions by the resulting pressure, and no other particle moves |
| SoftBodies.SoftBody.MeshPressure | QuarkPhysics/qsoftbody.cpp:120-133 | the deficit as in PreserveMesh, never above the target; the latch becomes Stabilized's; the pressure is Pressure of the latched deficit over the cached circumference times the rigidity |
| SoftBodies.SoftBody.MeasureMesh | QuarkPhysics/qsoftbody.cpp:120-123 | the deficit is target area times rate less the mesh's polygon area; the circumference is the body's, cached from then on and kept if already cached; every mesh's decomposition keeps its value |
| SoftBodies.SoftBody.CircumferenceOf | QuarkPhysics/qsoftbody.cpp:121 | the body's circumference, cached afterwards and unchanged if it already was; refreshing the meshes keeps their decompositions' value |
| SoftBodies.SoftBody.PolygonsAreaOf | QuarkPhysics/qsoftbody.cpp:120 | the mesh's sub-convex polygons are refreshed to its decomposition and the result is their total area, which is nonnegative |
| SoftBodies.SoftBody.InflateMesh | QuarkPhysics/qsoftbody.cpp:135-154 | every closed-polygon particle ends at Inflated: each polygon pressurized in turn from what the previous left; zero pressure moves nothing |
| SoftBodies.SoftBody.ApplyPressure | QuarkPhysics/qsoftbody.cpp:136-153 | every particle of the polygon ends at Pressurized: all forces computed from the entry positions, then each applied in turn at its chord's midpoint and split between the two ends; zero pressure moves nothing |
| SoftBodies.SoftBody.PressureTurn | QuarkPhysics/qsoftbody.cpp:146-151 | one turn of the second loop moves the polygon exactly as PressureStep does for that vertex's force |
| SoftBodies.PressureStep | QuarkPhysics/qsoftbody.cpp:146-151 | a turn moves at most the two ends of its chord, and nothing for a zero force |
| SoftBodies.PressureStepSplitsForce | QuarkPhysics/qsoftbody.cpp:147-150 | a turn on a chord of nonzero length moves two distinct particles whose displacements add up to exactly the volume force |
| SoftBodies.PressureFold | QuarkPhysics/qsoftbody.cpp:146-153 | the second loop leaves every particle outside the polygon where it was |
| SoftBodies.PressureFoldOfZero | QuarkPhysics/qsoftbody.cpp:146-153 | with every force zero the second loop moves nothing |
| SoftBodies.InflatedAtZero | QuarkPhysics/qsoftbody.cpp:133-154 | a zero pressure leaves every closed polygon of the mesh where it is |
| SoftBodies.PolygonForces | QuarkPhysics/qsoftbody.cpp:137-144 | one force per vertex, each the pressure force of its two neighbours' positions in the same snapshot |
| SoftBodies.SoftBody.VolumeForces | QuarkPhysics/qsoftbody.cpp:137-144 | one volume force per vertex, each computed from its neighbours' positions before any is applied |
| SoftBodies.SoftBody.GetAveragePositionAndRotation | QuarkPhysics/qsoftbody.cpp:163-202 | a single particle gives its own global position and no turn; otherwise the mean global position and the average rotation of the particles |
| SoftBodies.SoftBody.Centers | QuarkPhysics/qsoftbody.cpp:167-176 | the mean global position and the mean local position of the particles |
| SoftBodies.SoftBody.AlignmentTotals | QuarkPhysics/qsoftbody.cpp:178-189 | the sums of every particle's alignment cosine and sine, a zero length giving 0 |
| SoftBodies.SoftBody.AlignmentStep | QuarkPhysics/qsoftbody.cpp:181-188 | one turn adds particle i's alignment cosine and sine to the sums over the particles before it |
| SoftBodies.SoftBody.ApplyShapeMatching | QuarkPhysics/qsoftbody.cpp:205-269 | meshes with fewer than two particles keep their particles' positions; no local position changes; every other mesh with a nonempty matched list has it shape-matched from the positions at entry: each listed particle pulled in list order, once per occurrence, towards MatchPose of the list at entry |
| SoftBodies.SoftBody.MatchAll | QuarkPhysics/qsoftbody.cpp:218-268 | every mesh is Matched from the entry positions, the particles of small meshes stay there, and no local position changes |
| SoftBodies.SoftBody.MatchStep | QuarkPhysics/qsoftbody.cpp:219-267 | mesh i becomes Matched, the meshes before it stay Matched, and the particles of later and small meshes stay at their entry positions |
| SoftBodies.MatchTurnKept | QuarkPhysics/qsoftbody.cpp:218-268 | matching one mesh, which touches only its own particles and fields, keeps the earlier meshes Matched and the later meshes' particles in place |
| SoftBodies.SoftBody.MatchMesh | QuarkPhysics/qsoftbody.cpp:219-267 | with fewer than two particles nothing moves; otherwise the collision behaviour is brought up to date and the matched list (closed polygons joined for a polyline mesh, else all particles) is shape-matched, a repeated particle pulled once per occurrence; local positions stay |
| SoftBodies.SoftBody.MatchBehaving | QuarkPhysics/qsoftbody.cpp:223-266 | for a known behaviour, a nonempty matched list is shape-matched from the given positions and local positions stay |
| SoftBodies.SoftBody.GatherMatchList | QuarkPhysics/qsoftbody.cpp:223-231 | the joined closed polygons for a polyline mesh, all the mesh's particles otherwise; every listed particle belongs to the mesh |
| SoftBodies.SoftBody.JoinPolygons | QuarkPhysics/qsoftbody.cpp:225-228 | the closed polygons appended one after the other, in order |
| SoftBodies.SoftBody.MatchParticles | QuarkPhysics/qsoftbody.cpp:233-266 | the list, which sits at the given positions, ends shape-matched towards MatchPose of itself, local positions unchanged |
| SoftBodies.SoftBody.MatchingPose | QuarkPhysics/qsoftbody.cpp:233-250 | the fixed pose about the local origin when the fixed transform is on, otherwise the mean local position as centre with the average position and rotation |
| SoftBodies.SoftBody.LocalCenter | QuarkPhysics/qsoftbody.cpp:233-237 | the mean local position of the listed particles |
| SoftBodies.SoftBody.PullParticles | QuarkPhysics/qsoftbody.cpp:255-266 | every listed particle ends where PullFold puts it: pulled in list order, each from where the earlier pulls left it; local positions stay |
| SoftBodies.SoftBody.PullStep | QuarkPhysics/qsoftbody.cpp:256-265 | one turn: particle n is pulled from where the earlier turns left it, and no other particle moves |
| SoftBodies.SoftBody.Pull | QuarkPhysics/qsoftbody.cpp:256-265 | the particle moves by the pull towards its target and keeps its local position |
| SoftBodies.PullFoldOnce | QuarkPhysics/qsoftbody.cpp:255-266 | in a list without repeats each particle is pulled exactly once, from its entry position |
| SoftBodies.ShapeMatchedOnce | QuarkPhysics/qsoftbody.cpp:255-266 | a shape-matched list without repeats has each particle exactly one pull from its entry position towards its target |
| SpatialHashing.CellRange | QuarkPhysics/extensions/qspatialhashing.cpp:51-55 | each bound of the cell range is the floor of the matching box corner scaled by the cell-size factor |
| SpatialHashing.CellsOf | QuarkPhysics/extensions/qspatialhashing.cpp:76-80 | the cells the nested loops visit are exactly the integer pairs inside the range |
| SpatialHashing.SweptStart | QuarkPhysics/extensions/qspatialhashing.cpp:76-77 | before the first iteration the loops have visited no cell |
| SpatialHashing.SweptStep | QuarkPhysics/extensions/qspatialhashing.cpp:77-78 | one inner iteration visits a new cell and adds exactly that cell to the visited ones |
| SpatialHashing.SweptNextColumn | QuarkPhysics/extensions/qspatialhashing.cpp:76-77 | leaving a finished column is the same as starting the next one at its lowest row |
| SpatialHashing.SweptAll | QuarkPhysics/extensions/qspatialhashing.cpp:76-80 | when the outer loop ends every cell of the range has been visited |
| SpatialHashing.UpdatedNothing | QuarkPhysics/extensions/qspatialhashing.cpp:111-119 | editing no cell leaves the cell map as it was |
| SpatialHashing.UpdatedStep | QuarkPhysics/extensions/qspatialhashing.cpp:111-119 | editing one more cell changes that cell alone, starting from its contents before the loops |
| SpatialHashing.RemoveFromCell | QuarkPhysics/extensions/qspatialhashing.cpp:113-117 | after erasing a recorded body from its range, each cell lists what it listed before with the body's single occurrence removed |
| SpatialHashing.RemoveKeepsConsistent | QuarkPhysics/extensions/qspatialhashing.cpp:85-100 | removing a recorded body from its cells keeps cells and recorded ranges in agreement, forgets the body and leaves it in no cell |
| SpatialHashing.AddKeepsConsistent | QuarkPhysics/extensions/qspatialhashing.cpp:74-80 | pushing an unrecorded body onto the cells of a range and recording that range keeps cells and recorded ranges in agreement |
| SpatialHashing.ConsistentMembership | QuarkPhysics/extensions/qspatialhashing.cpp:57-80 | under the agreement invariant a body is in a cell exactly when the cell lies in its recorded range, and every cell of the range exists |
| SpatialHashing.PermuteKeepsConsistent | QuarkPhysics/extensions/qspatialhashing.cpp:135 | reordering one cell's vector keeps cells and recorded ranges in agreement |
| SpatialHashing.BeforeIsStrictWeakOrder | QuarkPhysics/extensions/qspatialhashing.h:83-88 | the horizontal comparator is irreflexive, asymmetric, transitive and its incomparability is transitive, as a sort requires |
| SpatialHashing.InsertSorted | QuarkPhysics/extensions/qspatialhashing.cpp:135 | one insertion step of the sort adds the body to the multiset of bodies |
| SpatialHashing.InsertSortedSorted | QuarkPhysics/extensions/qspatialhashing.cpp:135 | inserting into a sorted vector keeps it sorted by the horizontal comparator |
| SpatialHashing.ConsSorted | QuarkPhysics/extensions/qspatialhashing.h:83-88 | a body that no body of a sorted vector sorts before may lead it |
| SpatialHashing.SortHorizontal | QuarkPhysics/extensions/qspatialhashing.cpp:135 | the sort permutes the cell's bodies |
| SpatialHashing.SortHorizontalSorted | QuarkPhysics/extensions/qspatialhashing.cpp:135 | the sort leaves the cell's bodies ordered by the horizontal comparator |
| SpatialHashing.SweepHitCollides | QuarkPhysics/extensions/qspatialhashing.cpp:152-156 | a pair accepted by the sweep test has overlapping boxes whenever the later box is proper |
| SpatialHashing.SweepCell | QuarkPhysics/extensions/qspatialhashing.cpp:137-165 | sweeping a sorted cell adds only pairs that can collide and pass the sweep test, never a pair already present in either order, and every later pair that can collide and overlaps |
| SpatialHashing.EditStep | QuarkPhysics/extensions/qspatialhashing.cpp:111-119 | editing the cell the loops reached extends the edited region by that cell |
| SpatialHashing.EraseFromCell | QuarkPhysics/extensions/qspatialhashing.cpp:113-117 | finding the body in one cell and erasing it removes its first occurrence and nothing else |
| SpatialHashing.EraseFromColumn | QuarkPhysics/extensions/qspatialhashing.cpp:112-118 | the inner loop of the removal erases the body from every cell of one column and the edited region grows by that column |
| SpatialHashing.PushOntoColumn | QuarkPhysics/extensions/qspatialhashing.cpp:77-79 | the inner loop of the insertion pushes the body onto every cell of one column and the edited region grows by that column |
| SpatialHashing.SweepKeepsPairInvariants | QuarkPhysics/extensions/qspatialhashing.cpp:127-166 | sorting and sweeping one more cell keeps every found pair justified by a shared cell and makes that cell's overlapping pairs found |
| SpatialHashing.SmallCellComplete | QuarkPhysics/extensions/qspatialhashing.cpp:130-132 | a cell of at most one body is skipped, is trivially sorted and misses no pair |
| SpatialHashing.SweepCells | QuarkPhysics/extensions/qspatialhashing.cpp:125-168 | all cells end sorted permutations of themselves; the pairs are unrepeated, can collide, pass the sweep test and share a cell; every pair of a cell that can collide and overlaps is found |
| SpatialHashing.SpatialHash.constructor | QuarkPhysics/extensions/qspatialhashing.cpp:35-38 | the hash starts empty with the default cell size 128; the size argument is not used |
| SpatialHashing.SpatialHash.Clear | QuarkPhysics/extensions/qspatialhashing.cpp:40-45 | recorded ranges, cells and pairs are all cleared and the cell size is kept |
| SpatialHashing.SpatialHash.SetCellSize | QuarkPhysics/extensions/qspatialhashing.cpp:102-107 | the hash is cleared, the cell size is the argument and the factor is its reciprocal |
| SpatialHashing.SpatialHash.RemoveBodyFromCells | QuarkPhysics/extensions/qspatialhashing.cpp:109-120 | every cell of the range loses the body's first occurrence and missing cells are created empty; nothing else changes |
| SpatialHashing.SpatialHash.AddBodyToCells | QuarkPhysics/extensions/qspatialhashing.cpp:76-80 | every cell of the range gets the body pushed on its end, missing cells created; nothing else changes |
| SpatialHashing.SpatialHash.Insert | QuarkPhysics/extensions/qspatialhashing.cpp:48-83 | the body's recorded range becomes its box's current range and it is in exactly the cells of that range; every other body stays in exactly the cells of its recorded range |
| SpatialHashing.SpatialHash.FileUnder | QuarkPhysics/extensions/qspatialhashing.cpp:74-80 | recording the new range and pushing the body onto its cells files it in exactly those cells and restores the agreement invariant |
| SpatialHashing.SpatialHash.Remove | QuarkPhysics/extensions/qspatialhashing.cpp:85-100 | a recorded body leaves every cell and its record; other bodies stay in the cells of their ranges; an unknown body changes nothing |
| SpatialHashing.SpatialHash.GetPairs | QuarkPhysics/extensions/qspatialhashing.cpp:122-171 | the pairs are recomputed: unrepeated, able to collide, passing the sweep test and sharing a cell, and complete for every overlapping pair of a cell; the cells end sorted permutations of themselves |
| AreaBodies.Leaving | QuarkPhysics/qareabody.cpp:46-57 | the intended blacklist lists exactly the visited bodies that are disabled or out of contact, and lists none twice over a visiting order without repeats |
| AreaBodies.LeavingOnce | QuarkPhysics/qareabody.cpp:46-57 | over a visiting order without repeats each leaving body is listed exactly once and no other body is listed |
| AreaBodies.BlackListAsWritten | QuarkPhysics/qareabody.cpp:46-57 | the blacklist as written names exactly the leaving bodies, possibly more than once |
| AreaBodies.BlackListAsWrittenCounts | QuarkPhysics/qareabody.cpp:49-57 | as written a disabled body is listed twice, a body only out of contact once, and a staying body never |
| AreaBodies.DisabledBodyExitsTwice | QuarkPhysics/qareabody.cpp:49-57 | a disabled body inside the area is reported exiting twice as written and once as intended |
| AreaBodies.GravityAfter | QuarkPhysics/qareabody.cpp:59-75 | without gravityFree nothing changes; with it a leaving body is under gravity again and a staying rigid body is exempt from it |
| AreaBodies.ReportKeepsBalance | QuarkPhysics/qareabody.cpp:137-146 | reporting each leaving body once and erasing it keeps every body's enter and exit reports balanced against membership |
| AreaBodies.AreaBody.constructor | QuarkPhysics/qareabody.cpp:32-35 | an enabled dynamic area body simulated as a rigid body, with no bodies inside, no gravity exemption and no force |
| AreaBodies.AreaBody.SetGravityFreeEnabled | QuarkPhysics/qareabody.h:83-89 | the option is stored and every body inside gets that gravity exemption |
| AreaBodies.AreaBody.SetLinearForceToApply | QuarkPhysics/qareabody.h:95-98 | the force pushed onto the bodies inside is the argument |
| AreaBodies.AreaBody.AddCollidedBody | QuarkPhysics/qareabody.cpp:36-44 | the body joins the set, the enter notification fires exactly when it was new, and the reports stay balanced |
| AreaBodies.AreaBody.CheckBodies | QuarkPhysics/qareabody.cpp:45-147 | afterwards the set holds exactly the bodies that were in it, are enabled and still touch the area; each leaver is reported exiting once in visiting order and is back under gravity when the area is gravity-free |
| AreaBodies.AreaBody.Sweep | QuarkPhysics/qareabody.cpp:47-136 | the loop lists exactly the leaving bodies in visiting order and sets each rigid body's gravity flag as a gravity-free area demands |
| AreaBodies.AreaBody.Visit | QuarkPhysics/qareabody.cpp:48-75 | a body is blacklisted exactly when it is disabled or out of contact, and a rigid body's gravity flag follows the area's option |
| AreaBodies.AreaBody.Drain | QuarkPhysics/qareabody.cpp:137-146 | every blacklist entry is reported exiting in order and erased from the set; a gravity-free area puts it back under gravity; no other body changes |
| Platformers.AngleBands | QuarkPhysics/extensions/qplatformerbody.cpp:238-288 | while the floor band is narrower than the ceiling threshold, floor, wall and ceiling normals never overlap and cover every angle except the one boundary the wall test leaves out |
| Platformers.StandingIsFloor | QuarkPhysics/extensions/qplatformerbody.cpp:499 | the strict floor test of PostUpdate implies the floor test of GetFloor, and the two differ exactly on the band's edge |
| Platformers.DefaultBands | QuarkPhysics/extensions/qplatformerbody.h:53 | with the default maximum floor angle a wall normal lies strictly between a quarter and three quarters of pi and a ceiling normal beyond three quarters |
| Platformers.JumpEffect | QuarkPhysics/extensions/qplatformerbody.cpp:324-359 | a jump always leaves the button pressed; it takes the new force, restarts the countdown and holds the jump exactly when it starts one, and counts it exactly when it starts on the ground or in the air |
| Platformers.AirJumpStaysBelowMax | QuarkPhysics/extensions/qplatformerbody.cpp:340-346 | an air jump that is counted never brings the count up to the maximum jump count |
| Platformers.HeldJumpIsInert | QuarkPhysics/extensions/qplatformerbody.cpp:348-352 | a second Jump without a release in between keeps the force, the count and the countdown the first left, whatever its arguments |
| Platformers.ReleaseEnablesJump | QuarkPhysics/extensions/qplatformerbody.cpp:361-368 | after ReleaseJump an unconditional jump always starts |
| Platformers.CoherentKept | QuarkPhysics/extensions/qplatformerbody.cpp:324-465 | Jump, ReleaseJump and the bookkeeping of PostUpdate keep the jump state coherent |
| Platformers.TickEffect | QuarkPhysics/extensions/qplatformerbody.cpp:463-465 | after PostUpdate no jump is held, GetIsJumping reports whether one was held, the countdown advanced by one and the count is zero on a floor and unchanged in the air |
| Platformers.GroundedJumpWaits | QuarkPhysics/extensions/qplatformerbody.cpp:334-339 | right after a jump starts, no grounded jump can start again until more than the jump duration of frames has been counted |
| Platformers.LaunchSpeed | QuarkPhysics/extensions/qplatformerbody.cpp:444-447 | the first frame of a jump sets the vertical velocity to exactly the jump force along a unit up direction |
| Platformers.Flagged | QuarkPhysics/extensions/qplatformerbody.cpp:548-558 | on a floor the rising and falling flags clear; in the air moving against up means falling, along up rising, and no vertical motion keeps the flags |
| Platformers.FlagsExclusive | QuarkPhysics/extensions/qplatformerbody.cpp:548-558 | the body is never both rising and falling, and PostUpdate keeps it so |
| Platformers.VerticalStep | QuarkPhysics/extensions/qplatformerbody.cpp:565-572 | moving into a floor or a ceiling stops the body without moving it; otherwise it moves by its vertical velocity and gravity is added afterwards |
| Platformers.ShrinkScalar | QuarkPhysics/extensions/qplatformerbody.cpp:583 | one deceleration step with a rate in [0, 1] does not increase a velocity component |
| Platformers.ApproachScalar | QuarkPhysics/extensions/qplatformerbody.cpp:586 | one acceleration step with a rate in [0, 1] gets no further from the target component |
| Platformers.IdleSlowsDown | QuarkPhysics/extensions/qplatformerbody.cpp:579-584 | an idle body with a deceleration rate in [0, 1] never speeds up on either axis |
| Platformers.WalkApproachesTarget | QuarkPhysics/extensions/qplatformerbody.cpp:585-587 | a walking body with an acceleration rate in [0, 1] gets no further from its target velocity on either axis and reaches it at rate 1 |
| Platformers.Platformer.constructor | QuarkPhysics/extensions/qplatformerbody.cpp:37-45 | a kinematic rigid body with kinematic collisions, fixed rotation, friction 0 and static friction 0.5; the controller fields take their declared defaults |
| Platformers.Platformer.IsJumping | QuarkPhysics/extensions/qplatformerbody.cpp:380-383 | the body reports jumping exactly when a jump was held in the last frame |
| Platformers.Platformer.SetGravity | QuarkPhysics/extensions/qplatformerbody.cpp:61-67 | gravity is stored, up points against it and right is a quarter turn from up, perpendicular to it |
| Platformers.Platformer.Walk | QuarkPhysics/extensions/qplatformerbody.cpp:295-300 | the walking side is the argument |
| Platformers.Platformer.Jump | QuarkPhysics/extensions/qplatformerbody.cpp:324-359 | the jump state becomes the jump step applied to the old state, and validity is kept |
| Platformers.Platformer.ReleaseJump | QuarkPhysics/extensions/qplatformerbody.cpp:361-368 | the jump state becomes the released state, and validity is kept |
| Platformers.Platformer.PostUpdate | QuarkPhysics/extensions/qplatformerbody.cpp:390-619 | the jump bookkeeping, the floor and ceiling flags, the launch, the rising and falling flags, the vertical step and the horizontal velocity all follow their specification functions, and validity is kept |
| Platformers.Platformer.AddJumpVelocity | QuarkPhysics/extensions/qplatformerbody.cpp:442-465 | launch on the first frame of a jump, pick the gravity factor of the frame from the jump phase and pass the jump on to the next frame |
| Platformers.Platformer.Probe | QuarkPhysics/extensions/qplatformerbody.cpp:470-558 | the floor and ceiling flags are the probes' outcome, the rising and falling flags follow the vertical velocity, and a floor resets the jump count |
| Platformers.Platformer.MoveVertically | QuarkPhysics/extensions/qplatformerbody.cpp:565-572 | the vertical velocity and displacement are those of the vertical step |
| Platformers.Platformer.MoveHorizontally | QuarkPhysics/extensions/qplatformerbody.cpp:577-587 | the horizontal velocity is the walking step applied to the old one |

## Left out

- Floating-point behaviour: rounding, NaN, infinities and `-0.0` are not modelled. `QVector::Zero()` is the real zero.
- `sqrt`, `sin`, `cos`, `atan2` and `asin` are parameters with no law beyond the one above. No contract depends on what an angle evaluates to.
- `QAngleConstraint`'s correction is not modelled, because it is built on `atan2`. Its registration in a mesh (`AddAngleConstraint`, `RemoveAngleConstraint`, `RemoveMatchingAngleConstraints`) is modelled.
- `QVector::GeteBisectorUnitVector` and `QVector::AngleToUnitVector` are not modelled: they are angle arithmetic only.
- `QAABB()` is not modelled. Its fields are left uninitialised, so it fixes no box.
- `QBody::ComputeFriction` is not part of this model. The manifold solver takes it as a parameter `friction`.
- The narrow-phase contact generators PolylineAndPolygon, PolylineAndPolyline, CircleAndPolyline and CircleAndPolygon are not modelled: their contact values are float heuristics.
- Collision.CircleContact: only the step for one pair of particles is modelled. The surrounding loop of `CircleAndCircle`, with its sort and its box prefilter, is not.
- The gizmo pushes inside the solver are not modelled: they are debug drawing.
- Event listeners and the virtual `OnX` hooks are foreign callbacks:
  - The manifold solver takes the collision verdict of hook and listener together as a parameter `accept`.
  - The area body records its enter and exit notifications in `enterEvents` and `exitEvents`.
  - The pre-step and step events are not modelled.
- Manifolds.Manifold.Solve and Manifolds.Manifold.SolveFrictionAndVelocities return the pushes the engine makes, in order, instead of applying them to the bodies.
- The manifold solver reads each contact's bodies, with their types, masses and kinematic flags, once as a `Touch` record. It changes none of them.
- Manifolds.Share: the response weights add up to the push only under the requirement `invMass * (massA + massB) == 1`. That holds when `invMass` is `1 / (massA + massB)`, as the constructor sets it.
- Manifolds.CorrectVelocities uses the arm-free relative velocity `LinearVelocity`. Manifolds.ZeroArmsGiveLinearVelocity proves it equals `GetRelativeVelocity` with zero arms, which is how the source calls it.
- Engine.Joint.Update returns the forces for body A and body B instead of calling `QRigidBody::ApplyForce`. That method lives in module RigidBodies, which is built on Engine.
- Engine.World.Update models only the enable gate and the sleep step. The steps in between (broad phase, manifolds, constraints, integration) are not part of this model.
- Engine.World.RemoveBodyAt does not model the final `broadPhase.Clear(bodies)`: the broad phase is rebuilt from the body list every step.
- `QWorld::GetBodyCount` and `QWorld::GetBodyAt` have no member of their own: they are `|bodies|` and `bodies[i]` on the `bodies` field.
- `QWorld::AddBodyGroup`, `QWorld::TestCollisionWithWorld`, `QWorld::GetCollisions` and `QBody::SetPositionAndCollide` are not part of this model. They run the narrow phase against the world.
- `QBody::Update` and `QBody::PostUpdate` of the base class are not modelled. The rigid, soft and platformer versions are.
- Engine.Body.WakeUp: the wake-up is modelled as clearing `isSleeping`. No definition of it is visible in the source, and the sleep step of the world resets the counters itself.
- Engine.Mesh.RefreshSubConvexPolygons: the convex decomposition is a parameter `decompose`. Its definition (`UpdateSubConvexPolygons`) is not part of this model.
- `QMesh::GetMeshDatasFromFile` and `QMesh::GetMeshDatasFromJsonData` are not modelled: they are file I/O and JSON parsing.
- MeshDatas.GenerateRectangleMeshData takes whole, nonnegative grid counts. It requires both counts to be at most 1 or both at least 1. This excludes grids such as (0, 3), which the source sends to the grid branch, where it divides by zero (qmesh.cpp:355). It also excludes fractional and negative grids.
- Engine.CreateWithMeshData requires every index of the data to name a particle. The source looks the indices up without checking them, and both generators are proved to produce such data.
- BVH.BroadPhase.ReCreateTree takes each body's fattened box as input. `QAABB::FattedWithRate`, which computes it, is not part of this model.
- BVH.BroadPhase.ClearTree leaves `root` as it was, as the source does. A rebuild from an empty list therefore keeps the previous root.
- SpatialHashing.SpatialHash.constructor starts `cellSizeFactor` at 1/128. The declaration of that field is not visible in the source.
- SpatialHashing.SpatialHash.GetPairs takes `BodiesCanCollide` as a parameter `canCollide`: its declaration is not visible in the source. Equal-key bodies may be left in any order, as `std::sort` does not fix their order.
- SpatialHashing.SpatialHash.GetPairs: the lookup `pairs.find(bodyPair)` is modelled by HasPair, which ignores the order of the two bodies. That is right only if `QBody::BodyPairHash` gives a pair and its swap the same hash. Its definition is not visible in the source, and the world's own pair hash is order-dependent (BodyPairs.PairHashesAreOrderDependent). Two bodies with equal min.x and max.y can sit in opposite orders in two cells, because `std::sort` is not stable. The source may then store both (a, b) and (b, a), while the model stores one. The "unrepeated" claim rests on this lookup.
- The iteration order of every `std::unordered_map` and `std::unordered_set` is unspecified. Where it matters, the model receives it as a sequence or quantifies over all orders.
- ObjectPool: the node payloads are not modelled. A node is its index, and the pool is the free list threaded through the `next` links.
- RigidBodies.RigidBody.Update works on the body's own values. The world's gravity and time scale come in through `Settings`.
- SoftBodies.SoftBody.Update: with area preservation on, the contract states only the previous positions, the forces and the latch. Where the particles end is stated by SoftBodies.SoftBody.PreserveAreas, from the positions the integration leaves. It is not restated at the level of Update.
- SoftBodies.SoftBody.ApplyPressure skips a chord of zero length. The source still calls `ApplyForceToParticleSegment` and divides by the chord's length there (qparticle.cpp:229), which gives a non-finite position in floating point.
- SoftBodies.Pressure gives 0 for a zero circumference. The source divides by the circumference (qsoftbody.cpp:133).
- SoftBodies.SoftBody.GetAveragePositionAndRotation: the rotation is the `atan2` estimate, stated through the `Numerics` parameter only. Its properties are proved for a translated shape and for a single particle.
- The soft body's plain setters and getters (rigidity, area stiffness, damping, passivation, self collision and similar) are not modelled: they only store a field.
- Platformers.Platformer.PostUpdate takes the outcome of its world probes (floor and ceiling found) as parameters. It returns the vertical displacement instead of calling `AddPosition`.
- Platformers.Platformer.PostUpdate does not model the moving floor (`lastMovableFloor`), the slope projection of the walk or the two velocity limits. These are world queries and `sqrt` scaling.
- `QPlatformerBody::GetPlatformCollisions`, `GetFloor`, `GetCeiling`, `GetRightWall` and `GetLeftWall` query the world. Their angle tests are modelled as IsFloor, IsCeiling and IsWall.
- Platformers.Platformer.constructor takes the initial `jumpReleased` as a parameter `released`: no declaration in the source initialises it.
- AreaBodies.AreaBody.CheckBodies does not apply `linearForceToApply`. It also does not model the soft-body branch that walks the contact particles (qareabody.cpp lines 76-131). Both need the contacts `QWorld::GetCollisions` returns, which are not part of this model.
- AreaBodies.AreaBody.CheckBodies takes the set of bodies that still touch the area as a parameter `touching`, for the same reason.
- Raycasting: the queries work on a snapshot of the bodies (`Target`), which Engine.Targets builds from the live world. The collision behaviour the mesh would derive is used, but not written back into its cache.
- BodyPairs: the hash sets that use the pair functors are not modelled, only the functors themselves.

## Findings

| source | as written | input that shows it | evidently intended | confidence | as-written member | corrected member |
|---|---|---|---|---|---|---|
| QuarkPhysics/qbody.h:573-575 | `SetEnabled(value)` assigns `true` and ignores its argument | `SetEnabled(false)` leaves the body enabled | the enabled flag becomes the argument | high, not executed | Engine.Body.SetEnabledAsWritten | Engine.Body.SetEnabled |
| QuarkPhysics/qareabody.cpp:49-57 | a disabled body is pushed onto the blacklist by both tests | a disabled body inside the area | each leaving body is blacklisted, and reported exiting, once | high, not executed | AreaBodies.DisabledBodyExitsTwice | AreaBodies.LeavingOnce |
| QuarkPhysics/qcollision.cpp:1197 | the fallback clip runs only when the whole shared contact list is empty | a second polygon pair whose first clip adds nothing, after an earlier pair added a contact | the fallback runs when this call's first clip added nothing | medium, not executed | Collision.ClipPairAsWrittenDropsFallback | Collision.ClipPairIndependent |
| QuarkPhysics/qworld.h:52-58 | the pair hashes combine the two halves asymmetrically, while their equality ignores order | the pairs (0, 1) and (1, 0) | pairs the equality calls equal hash equally | high, not executed | BodyPairs.PairHashesAreOrderDependent | BodyPairs.SymmetricHashRespectsEquality |
| QuarkPhysics/qworld.cpp:669-679 | AddJoint adds a collision exception when the joint has collisions enabled | a joint with collisions enabled becomes unable to collide | the exception is added when collisions are disabled, as `QJoint::SetCollisionEnabled` does | high, not executed | Engine.World.AddJointAsWritten | Engine.World.AddJoint |
| QuarkPhysics/qobjectpool.cpp:41-45 | Resize starts at `size - 1` and links the last new node to `newSize` | a fresh pool: the fifth Create reads node 4 of a four-node array | the new nodes are chained after the old ones and the last ends the list | high, not executed | ObjectPool.ResizeAsWrittenOverruns | ObjectPool.Pool.Resize |
| QuarkPhysics/qobjectpool.cpp:78-84 | the sized constructor calls the default constructor on a temporary, so no chain is built | `QObjectPool(n)`: the first Create skips all n initial nodes | n initial nodes, all free in index order | high, not executed | ObjectPool.SizedAsWrittenSkipsInitialNodes | ObjectPool.Pool.Sized |
