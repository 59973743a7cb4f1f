# physics-engine in Dafny

A model of the simulation kernel of a small 2D rigid-body physics engine
written in JavaScript. The engine has three parts:

- **collision.js** — the shapes (point, circle, axis-aligned rectangle,
  line) and the contact manifold. The manifold records whether two shapes
  overlap, the unit normal that pushes the first shape out of the second, and
  how deep they penetrate.
- **dynamics.js** — the bodies:
  - a static body has infinite mass and never moves;
  - a kinematic body moves by its own velocity;
  - a dynamic body has forces and impulses, integrates its motion once per
    tick, and resolves collisions with impulses and a positional
    correction.
- **simulate.js** — the world. It keeps three lists of bodies, pairs them up
  in a brute-force broad phase, and runs one step in a fixed order:
  collisions first, then the kinematic bodies, then the dynamic bodies.

The model has four modules:

- `Vectors` (vectors.dfy) holds the exact vector operations and the
  numeric helpers of `Math`. JavaScript numbers are modelled as exact reals.
  The two vector operations that need a square root (`magnitude` and `unit`)
  are a parameter of type `Norm`. Lemmas that depend on them assume only
  `EuclideanAt`, which says that the magnitude squares to the squared length
  at the vectors involved.
- `Collision` (collision.dfy) holds the shapes as a class, since `translate`
  moves a shape in place. It also holds the manifold as a value:
  - each branch of the manifold constructor is a pure function, plus a
    method that performs the source's steps and is proved equal to that
    function;
  - the whole constructor is `NewManifold`, proved equal to `Collide`.
- `Dynamics` (dynamics.dfy) has one `Body` class whose `variant` says
  whether it is static, kinematic or dynamic. Its methods change its fields
  in place, and each is proved against a pure function of the old state:
  - `Integrate` for `update`;
  - `Resolve` for `impulseResolution`.
- `Simulate` (simulate.dfy) has the `World` class:
  - its broad phase is proved to return exactly the bodies at the index
    pairs of a pure specification, `BroadPhase`;
  - `BroadPhase` is proved complete, sound, free of repeats, and empty
    exactly when no pair can involve a dynamic body;
  - the collision phase resolves the candidate pairs in order, each
    dynamic body of a pair running `impulseResolution` against the other,
    and stops at the first resolution that cannot go through;
  - `Step` runs that phase, then moves every kinematic body and integrates
    every dynamic body from the state the collisions left it in, and keeps
    the world invariant `Valid`: bodies sorted by kind, no body or shape
    shared, every shape at its body's position.

As written, the narrow phase of `step` constructs `Dynamics.Collision`,
which dynamics.js does not export, so the step throws as soon as the broad
phase yields a pair. `StepAsWritten` models that behaviour and is listed
under "## Findings". `Step` models the evidently intended collision phase
with the resolution dynamics.js does provide.

## Model

| member | source | states |
|---|---|---|
| Collision.Clamp | collision.js:3-11 | a value inside [lo, hi] is returned unchanged; below lo gives lo, above hi gives hi; the result lies in the interval when it is non-empty |
| Collision.Shape.Point | collision.js:142-145 | a point has zero offset and starts at its offset |
| Collision.Shape.Circle | collision.js:152-156 | a circle keeps its radius and offset and starts at its offset |
| Collision.Shape.Rect | collision.js:163-167 | a rectangle keeps its width, height and offset and starts at its offset |
| Collision.Shape.Line | collision.js:182-186 | a line's offset is the midpoint of its two ends (twice the offset is start + end) |
| Collision.Shape.Translate | collision.js:136-139 | the global position becomes the given position plus the offset, and the shape itself is returned |
| Collision.Shape.Min | collision.js:173-175 | the min corner is the centre minus half the width and height |
| Collision.Shape.Max | collision.js:177-179 | the max corner is the centre plus half the width and height |
| Collision.Shape.Area | collision.js:147-190 | a rectangle's area is w·h (max minus min on each axis); a circle's is non-negative; points and lines have area 0 |
| Collision.PointPoint | collision.js:19-21 | the Point–Point manifold keeps the zero normal and zero penetration |
| Collision.PointPointMeansSamePoint | collision.js:19-21 | two points collide exactly when they are at the same position |
| Collision.CircleCircle | collision.js:32-46 | no collision leaves the default manifold; a collision has non-negative penetration and a normal along a − b (or the random direction) |
| Collision.CircleCircleSquared | collision.js:32-46 | circles collide exactly when the squared centre distance is at most the squared radius sum; apart centres give the normal a − b |
| Collision.CircleCirclePenetration | collision.js:36-38 | on contact, the sum of the radii minus the penetration is non-negative and squares to the squared centre distance: the penetration is r − d |
| Collision.RectCirclePenetration | collision.js:90-95 | on contact, the radius minus the penetration is non-negative and squares to the squared length of the edge vector, inside or outside: the penetration is r − ‖d − closest‖ |
| Collision.RectCircleNormalDirection | collision.js:91-94 | on contact, the normal, before `unit` is applied, points from the second shape towards the first: its dot product with the first centre minus the second is non-negative |
| Collision.EdgeVectorAlong | collision.js:77-91 | the edge vector d − closest points back along d when the centre is inside the rectangle and forward along it when outside |
| Collision.AwayFromClosest | collision.js:77 | outside the rectangle, d − closest has a non-negative dot product with d |
| Collision.TowardsPushedEdge | collision.js:81-88 | inside the rectangle, the point pushed to the edge lies no nearer the centre along d than d itself |
| Collision.OrientedTowards | collision.js:94 | the two sign flips for an inside centre and for the rectangle coming first turn the edge vector towards the first shape |
| Collision.CircleCircleSwap | collision.js:32-46 | swapping the circles keeps verdict and penetration and reverses the normal when the centres differ |
| Collision.RectRect | collision.js:47-72 | rectangles collide exactly when their min/max boxes meet; the penetration is the smaller overlap, on an axis normal that points from b to a, the x axis exactly when the x overlap is smaller |
| Collision.RectRectSwap | collision.js:47-72 | swapping the rectangles keeps verdict and penetration; an x-axis normal reverses when the centres differ on x |
| Collision.RectRectCorners | collision.js:47-51 | the Rect–Rect test succeeds and reports a collision exactly when the boxes given by the shapes' own min and max corners meet |
| Collision.ClosestPoint | collision.js:77 | the clamped point lies in the half-extents of the rectangle, and equals the centre offset exactly when that offset is inside the rectangle |
| Collision.CentreInsideMeansInBox | collision.js:77-79 | the source's "inside" test (distance to the closest point is zero) holds exactly when the circle centre is in the rectangle |
| Collision.PushToEdge | collision.js:81-88 | the closest point moves to the vertical edge when the x offset dominates, to the horizontal edge otherwise, and keeps the other coordinate |
| Collision.PushedOntoEdge | collision.js:81-88 | a centre offset that is not zero ends on the edge of the dominant axis |
| Collision.SignedIsProduct | collision.js:83-86 | half an extent times Math.sign of a coordinate is the signed half extent |
| Collision.OrientedIsScale | collision.js:94 | scaling the normal by ±1 for the inside flag and for the `a instanceof Rect` flag gives the oriented normal |
| Collision.RectCircle | collision.js:73-97 | no collision leaves the default manifold |
| Collision.RectCircleSquared | collision.js:73-97 | rectangle and circle collide exactly when the centre is in the rectangle or its squared distance to the closest point is at most the squared radius |
| Collision.RectCircleSwap | collision.js:94 | Rect–Circle and Circle–Rect give the same verdict and penetration with opposite normals |
| Collision.ConcentricRectCircle | collision.js:79-96 | a circle centred on the rectangle collides, and the vector that becomes its normal is zero |
| Collision.DeepInsideNegativePenetration | collision.js:90-95 | a centre inside the rectangle deeper than the radius yields a collision with negative penetration |
| Collision.Contact | collision.js:13-99 | Point–Circle in either order is an error (an undeclared variable); every unhandled pair of kinds gives the default manifold |
| Collision.CircleCircleBranch | collision.js:32-46 | the step-by-step Circle–Circle branch, with the normal passed through `unit`, equals the pure Circle–Circle manifold |
| Collision.RectRectBranch | collision.js:47-72 | the step-by-step Rect–Rect branch equals the pure Rect–Rect manifold |
| Collision.RectCircleBranch | collision.js:73-97 | the step-by-step Rect–Circle branch, with its in-place changes to the closest point, equals the pure Rect–Circle manifold |
| Collision.NewManifold | collision.js:13-107 | the manifold constructor, with its normal setter, yields the result of `Collide` for any two shapes |
| Dynamics.InverseMass | dynamics.js:44-49 | the inverse mass is zero exactly for infinite or zero mass; otherwise it times the mass is 1; it is positive exactly for positive finite mass |
| Dynamics.Body.Static | dynamics.js:62-65 | a static body starts at its position with zero velocity, its shape there, default material, zero forces and accumulators and no collisions |
| Dynamics.Body.Kinematic | dynamics.js:76-80 | a kinematic body keeps its position and velocity, with its shape there, default material, zero forces and accumulators and no collisions |
| Dynamics.Body.Dynamic | dynamics.js:92-101 | a dynamic body starts with zero forces, zero impulse and zero correction |
| Dynamics.Body.Mass | dynamics.js:40-42 | a static body's mass is infinite; otherwise the mass is density times area, so it is zero for points and lines |
| Dynamics.Body.InvMass | dynamics.js:44-49 | zero for static bodies, points and lines; otherwise the reciprocal of a non-zero mass |
| Dynamics.Body.Velocity | dynamics.js:71-73 | a static body's velocity reads as zero; other bodies report their own |
| Dynamics.Body.MoveShape | dynamics.js:51-53 | the shape is translated to the body's position plus its offset |
| Dynamics.Body.KinematicUpdate | dynamics.js:82-85 | the position advances by the velocity and the shape follows; nothing else changes |
| Dynamics.Integrate | dynamics.js:107-124 | the persistent force and the correction carry over; the position advances by the new velocity plus the correction; impulse and force are each kept or cleared |
| Dynamics.IntegrateVelocity | dynamics.js:108-116 | the new velocity is the old one plus impulse times inverse mass plus the acceleration |
| Dynamics.IntegrateClearsImpulse | dynamics.js:108-111 | after the update the impulse is zero |
| Dynamics.IntegrateForce | dynamics.js:113-116 | the one-step force is cleared exactly when the acceleration is not zero |
| Dynamics.MasslessBodyCoasts | dynamics.js:103-119 | with zero inverse mass the velocity is unchanged and the body drifts by velocity plus correction |
| Dynamics.Body.DynamicUpdate | dynamics.js:107-124 | the body's motion state becomes `Integrate` of its old state; the shape follows; material is unchanged |
| Dynamics.AccelerationAdds | dynamics.js:126-133 | adding a force, one-step or persistent, adds force times inverse mass to the acceleration |
| Dynamics.Body.ApplyForce | dynamics.js:126-133 | the force is added to the persistent accumulator, or by default to the one-step one; position, velocity, the other force, impulse, correction, density, friction, restitution and the collision count are unchanged |
| Dynamics.Resolve | dynamics.js:140-159 | bodies separating or without contact leave the accumulators alone; a resolved contact counts one more collision |
| Dynamics.ResolveAccumulatesImpulseOverwritesCorrection | dynamics.js:150-155 | the impulse is added to what was accumulated, while the correction replaces it |
| Dynamics.ImpulseMagnitudeNonNegative | dynamics.js:147-148 | for restitution at least −1 and a closing speed, the impulse magnitude is non-negative |
| Dynamics.CorrectionFactorBounds | dynamics.js:153-155 | the correction factor lies between 0 and 20% of the penetration beyond the slop |
| Dynamics.ImpulseCancelsInverseMass | dynamics.js:148 | against an immovable body, impulse times inverse mass is (1 + e) times the closing speed |
| Dynamics.BounceOffImmovable | dynamics.js:142-151 | against an immovable body with a unit normal, the closing speed becomes −e times what it was |
| Dynamics.Body.ImpulseResolution | dynamics.js:140-159 | the accumulators become `Resolve` of the old ones; position, velocity, forces and material are unchanged |
| Dynamics.Body.ImpulseResolutionOfShapes | dynamics.js:135-139 | the manifold of the two shapes is built first; an error leaves the accumulators unchanged, a manifold is resolved; position, velocity, forces, density, friction and restitution are unchanged |
| Simulate.Row | simulate.js:53-58 | one row of the inner loop holds exactly the pairs (i, m), i < m < j, with body i or body m dynamic |
| Simulate.Pairs | simulate.js:52-59 | the pairs after i rows are exactly the (k, m) with k < i, k < m and one of the two dynamic |
| Simulate.RowIncreasing | simulate.js:53-58 | a row lists its pairs in increasing order |
| Simulate.PairsIncreasing | simulate.js:50-61 | the broad phase lists its index pairs in strictly increasing lexicographic order |
| Simulate.DynamicFlags | simulate.js:55 | one flag per body, true exactly for dynamic bodies |
| Simulate.BroadPhaseComplete | simulate.js:46-61 | no false negatives: bodies at positions i < j with one of them dynamic are paired |
| Simulate.BroadPhaseSound | simulate.js:50-61 | every pair is the bodies at some positions i < j, one of them dynamic |
| Simulate.BroadPhaseNoRepeats | simulate.js:50-61 | with distinct bodies, no body is paired with itself and no pair repeats |
| Simulate.BroadPhaseEmpty | simulate.js:50-61 | there are no pairs exactly when there are fewer than two bodies or none is dynamic |
| Simulate.UpdateKinematic | simulate.js:91 | every kinematic body moves by its velocity and its shape follows; its velocity, forces, accumulators, collision count and material are unchanged |
| Simulate.UpdateDynamic | simulate.js:92 | every dynamic body's motion becomes `Integrate` of its old state and its shape follows; its collision count and material are unchanged |
| Simulate.World.constructor | simulate.js:16-23 | a new world has three empty lists and satisfies the world invariant |
| Simulate.World.AllBodies | simulate.js:25-27 | the list of all bodies is as long as the three lists together |
| Simulate.World.AllBodiesLayout | simulate.js:25-27 | all bodies lists the static, then the kinematic, then the dynamic bodies, each once |
| Simulate.World.AddBody | simulate.js:33-43 | the body is appended to the list of its kind, the other lists stay; sorting is kept, and so is the invariant when the body and its shape are new |
| Simulate.World.BroadPhaseCollision | simulate.js:50-61 | the nested loops return exactly the bodies at the `BroadPhase` index pairs, in order |
| Simulate.World.KinematicPhase | simulate.js:91 | every kinematic body moves, keeping velocity, forces, accumulators, collision count and material; dynamic bodies are untouched; the invariant is kept |
| Simulate.World.DynamicPhase | simulate.js:92 | every dynamic body integrates, keeping collision count and material; kinematic bodies are untouched; the invariant is kept |
| Simulate.PairResolutions | simulate.js:68-72 | a candidate pair (i, j) asks for the resolution (i, j) exactly when body i is dynamic and (j, i) exactly when body j is dynamic, and for nothing else |
| Simulate.Resolutions | simulate.js:67-76 | the pairs are resolved in order, at most two resolutions per pair |
| Simulate.ResolutionsCover | simulate.js:67-76 | every resolution has a dynamic body acting against a body of the world, and every dynamic side of every candidate pair is resolved |
| Simulate.ReceivedUntouched | simulate.js:67-76 | a body that no resolution acts for keeps its accumulators through the collision phase |
| Simulate.ReceivedCounts | dynamics.js:157 | through the collision phase a body's collision count never falls and rises by at most one per resolution |
| Simulate.ResolveCall | simulate.js:70-72 | one resolution builds the manifold of the two shapes and runs `impulseResolution`; it goes through exactly when the manifold exists and the inverse masses do not sum to zero, and otherwise stops the phase with the matching outcome; only its own body's accumulators change |
| Simulate.ResolvePair | simulate.js:69-72 | the first body of the pair resolves against the second when dynamic, then the second against the first, stopping at a failure |
| Simulate.ResolvePairs | simulate.js:68-75 | the loop over the pairs runs every resolution in order until one fails, and each body's accumulators are what `Received` gives |
| Simulate.World.NarrowPhase | simulate.js:67-76 | the phase stops exactly where `Stops` says; every body keeps position, velocity, forces and material, and its accumulators are what `Received` gives for the resolutions that ran; the invariant is kept |
| Simulate.World.ResolveCollisions | simulate.js:81-83 | the narrow phase over the broad phase's pairs, with the same guarantees |
| Simulate.World.StepAsWritten | simulate.js:89-92 | as written: the step fails with the candidate pairs, nothing changed, exactly when the broad phase finds one; otherwise kinematic bodies move and dynamic bodies integrate |
| Simulate.World.Step | simulate.js:89-93 | collisions first, stopping where `Stops` says with each body as the resolutions before it left it; when all go through, every kinematic body moves by its velocity and every dynamic body ends as `Integrate` of the state the collisions gave it, with material and the rest unchanged; the invariant is kept |
| Simulate.World.UpdateAfterCollisions | simulate.js:91-92 | after the collision phase, kinematic bodies move and dynamic bodies integrate their post-collision state |
| Simulate.World.UpdatePhases | simulate.js:91-92 | every kinematic body is updated, then every dynamic body; the invariant is kept |

## Left out

- `narrowPhaseCollision` (simulate.js:67-76) constructs `Dynamics.Collision`, which dynamics.js does not export, and calls its `detect` and `resolve`. Those methods are not part of this model. `Step` resolves each candidate pair with the `impulseResolution` of each dynamic body against the other, building the manifold from the two shapes; the manifold's `collision` flag plays the part of `detect`.
- The `console.log` call of the narrow phase (simulate.js:73) is left out. It only writes to the console.
- Simulate.World.Step: a resolution that would divide by a zero sum of inverse masses stops the collision phase with `ZeroMassSum`, and a Point–Circle manifold stops it with `ManifoldFailed`. The source would throw in the second case, and go on with Infinity or NaN in the accumulators in the first, which exact reals cannot hold.
- geometry.js is not part of this model.
- The Layer class (simulate.js:5-13) is left out. It is an empty stub that nothing uses.
- `render`, `run`, the canvas context, the debug flag and the time argument `t` of `step` are left out. They are drawing and animation-loop concerns, and `t` is never read.
- demo.js, animation.js, debug.js and main.js are left out. They cover scene setup, animation and drawing.
- vector.js is not part of this model. Its exact operations are written out in `Vectors`. `magnitude`, `unit` and `distance` are the `Norm` parameter, and the distance between two points is taken as the magnitude of their difference.
- `Math.random` (collision.js:43) is left out. The random direction used for coincident circles is a parameter; in the collision phase, resolution number q of a step uses `random(q)`.
- Floating point is not modelled: JavaScript numbers are exact reals. Rounding, NaN and Infinity are left out, and `Math.PI` is a decimal constant.
- `Body.intersects` (dynamics.js:56-59) is left out. It passes bodies rather than shapes to the manifold constructor, so it only ever reaches the default branch.
- `momentum` (dynamics.js:87-89) is left out. Nothing uses it.
- The x/y getters of Shape and the property accessors of the manifold are left out. Reading the fields directly is the same thing.
- Replacing a body's shape after construction is not modelled. Shapes are fixed when a body is built.
- Static and kinematic bodies carry the force, impulse and correction fields of a dynamic body. Their constructors leave those fields at rest (`AtRest`), and only methods that require a dynamic body write them.
- Dynamics.Resolve: requires `Solvable` (the two inverse masses do not sum to zero), because the source divides by that sum and the quotient would be Infinity, or NaN for 0/0.
- Dynamics.Body.ImpulseResolution: requires a dynamic body and `Solvable`, for the same division by zero.
- Collision.Contact: the Point–Circle branch reads an undeclared variable and throws. It is modelled as the error `UndefinedVariable`, not as a manifold.
- Collision.ConcentricRectCircle: states that the edge vector is zero but not what `unit` makes of it. That depends on the unseen vector class.
- Collision.Shape.Area: states only that a circle's area is non-negative. π·r² is taken with a decimal π.
- Simulate.World.AddBody: any body that is neither dynamic nor static goes to the kinematic list. The model has only three kinds of body, so that branch is the kinematic case. Also, the contract does not state that the multiset of all bodies grows by the new body; it states the list each body joins.
- Simulate.World.AllBodies: its contract states only the length. The order and multiplicity are stated in `Simulate.World.AllBodiesLayout`.
- Simulate.World.Step: requires the world invariant `Valid`. A world whose lists share a body or a shape, which the source does not rule out, is not modelled.
- Simulate.World.StepAsWritten: requires the world invariant `Valid`, as `Step` does.

## Findings

| source | as written | input that shows it | evidently intended | confidence | as-written member | corrected member |
|---|---|---|---|---|---|---|
| simulate.js:70 | the narrow phase constructs `Dynamics.Collision`, which dynamics.js does not export, so `step` throws on the first candidate pair and no body ever moves once a dynamic body shares the world with another body | a world with one static and one dynamic body: `BroadPhaseEmpty` shows the broad phase yields a pair, and `StepAsWritten` then fails with nothing changed | every candidate pair is detected and resolved, then the kinematic and dynamic bodies update | not executed; dynamics.js exports only the three body classes | Simulate.World.StepAsWritten | Simulate.World.Step |
