/**
 * Rigid bodies and their per-step integration (dynamics.js).
 *
 * The source has a class hierarchy RigidBody > StaticBody, KinematicBody >
 * DynamicBody. Here one class Body carries a constant Variant that records
 * which class the body was built as; the members that only a subclass has
 * require that variant. A static body has no velocity field of its own in
 * the source (its getter answers the zero vector); here the field exists but
 * the Velocity function is what every reader uses.
 *
 * The integration step and the impulse resolution are specified by the pure
 * functions Integrate and Resolve over a snapshot of the body's state; the
 * methods that change a body are proved to match them.
 */
module Dynamics {
  import opened Vectors
  import opened Collision

  datatype Variant = Static | Kinematic | Dynamic

  /** A mass, which a static body has as JavaScript's Infinity. */
  datatype Mass = Finite(value: real) | Infinite

  /** `inv_mass`: zero for a zero or infinite mass, the reciprocal otherwise. */
  function InverseMass(m: Mass): (r: real)
    ensures r == 0.0 <==> m.Infinite? || m.value == 0.0
    ensures m.Finite? && m.value != 0.0 ==> r * m.value == 1.0
    ensures r > 0.0 <==> m.Finite? && m.value > 0.0
  {
    match m
    case Infinite => 0.0
    case Finite(v) => if v == 0.0 then 0.0 else 1.0 / v
  }

  /** The part of a dynamic body's state that an integration step reads and writes. */
  datatype Motion = Motion(
    position: Vec,
    velocity: Vec,
    force: Vec,
    persistentForce: Vec,
    impulse: Vec,
    impulseCorrection: Vec)

  /** The `acceleration` getter: the summed forces scaled by the inverse mass. */
  function Acceleration(force: Vec, persistentForce: Vec, invMass: real): Vec {
    force.Add(persistentForce).Scale(invMass)
  }

  /**
   * One `DynamicBody.update`: a pending impulse (of positive magnitude) is
   * turned into velocity and cleared; then a positive acceleration is added
   * to the velocity and the one-step force cleared; then the body moves by
   * its velocity and by the positional correction. Neither the persistent
   * force nor the correction is reset.
   */
  function Integrate(s: Motion, invMass: real, norm: Norm): (r: Motion)
    ensures r.persistentForce == s.persistentForce
    ensures r.impulseCorrection == s.impulseCorrection
    ensures r.position == s.position.Add(r.velocity).Add(s.impulseCorrection)
    ensures r.impulse == s.impulse || r.impulse == Zero
    ensures r.force == s.force || r.force == Zero
  {
    var kicked := norm.magnitude(s.impulse) > 0.0;
    var v1 := if kicked then s.velocity.Add(s.impulse.Scale(invMass)) else s.velocity;
    var acc := Acceleration(s.force, s.persistentForce, invMass);
    var pushed := norm.magnitude(acc) > 0.0;
    var v2 := if pushed then v1.Add(acc) else v1;
    Motion(
      s.position.Add(v2).Add(s.impulseCorrection),
      v2,
      if pushed then Zero else s.force,
      s.persistentForce,
      if kicked then Zero else s.impulse,
      s.impulseCorrection)
  }

  /** `correctionPercent` and `slop` of `impulseResolution`. */
  const CorrectionPercent: real := 0.2
  const Slop: real := 0.01

  /** What `impulseResolution` reads of a body taking part in a contact. */
  datatype Party = Party(velocity: Vec, restitution: real, invMass: real)

  /** What `impulseResolution` writes: the impulse and correction accumulators and the count. */
  datatype Response = Response(impulse: Vec, impulseCorrection: Vec, lifetimeCollisions: nat)

  /** The relative velocity of `b` with respect to `a`, along the normal. */
  function ClosingSpeed(a: Party, b: Party, normal: Vec): real {
    b.velocity.Sub(a.velocity).Dot(normal)
  }

  /** The contact is resolved: there is a collision and the bodies approach. */
  predicate Resolves(a: Party, b: Party, m: Manifold) {
    m.collision && ClosingSpeed(a, b, m.normal) >= 0.0
  }

  /** The case the source divides by zero in: both inverse masses sum to zero. */
  predicate Solvable(a: Party, b: Party, m: Manifold) {
    Resolves(a, b, m) ==> a.invMass + b.invMass != 0.0
  }

  /** The impulse magnitude `j` for restitution `e` and closing speed `speed`. */
  function ImpulseMagnitude(e: real, speed: real, invA: real, invB: real): real
    requires invA + invB != 0.0
  {
    ((1.0 + e) * speed) / (invA + invB)
  }

  /**
   * The factor of the normal in the positional correction of the body with
   * inverse mass `invA`: the penetration beyond the slop, a fixed share of it,
   * split in proportion to the inverse masses.
   */
  function CorrectionFactor(penetration: real, invA: real, invB: real): real
    requires invA + invB != 0.0
  {
    Max(penetration - Slop, 0.0) * CorrectionPercent * invA / (invA + invB)
  }

  /**
   * `impulseResolution` of body `a` against body `b` with manifold `m`, as a
   * function of `a`'s accumulators. Only `a` is written.
   */
  function Resolve(r: Response, a: Party, b: Party, m: Manifold): (r': Response)
    requires Solvable(a, b, m)
    ensures !Resolves(a, b, m) ==> r' == r
    ensures Resolves(a, b, m) ==> r'.lifetimeCollisions == r.lifetimeCollisions + 1
  {
    if Resolves(a, b, m) then
      var speed := ClosingSpeed(a, b, m.normal);
      var e := Min(a.restitution, b.restitution);
      Response(
        r.impulse.Add(m.normal.Scale(ImpulseMagnitude(e, speed, a.invMass, b.invMass))),
        m.normal.Scale(CorrectionFactor(m.penetration, a.invMass, b.invMass)),
        r.lifetimeCollisions + 1)
    else
      r
  }

  /** A rigid body of any of the three kinds. */
  class Body {
    const variant: Variant
    const shape: Shape
    var position: Vec
    var velocity: Vec
    var density: real
    var friction: real
    var restitution: real
    var force: Vec
    var persistentForce: Vec
    var impulse: Vec
    var impulseCorrection: Vec
    var lifetimeCollisions: nat

    /** The shape stands at the body's position plus the shape's offset. */
    predicate Synced()
      reads this, shape
    {
      shape.pos == position.Add(shape.offset)
    }

    /** The material defaults every body starts with. */
    predicate Defaults()
      reads this
    {
      density == 1.0 && friction == 0.0 && restitution == 1.0
    }

    /**
     * No force, impulse or correction, and no collision seen: how a dynamic
     * body starts, and how the accumulators of the other kinds stay.
     */
    predicate AtRest()
      reads this
    {
      && force == Zero && persistentForce == Zero
      && impulse == Zero && impulseCorrection == Zero
      && lifetimeCollisions == 0
    }

    /** `new StaticBody(shape, position)`: the shape setter moves the shape to the body. */
    constructor Static(shape: Shape, position: Vec)
      modifies shape
      ensures variant.Static? && this.shape == shape && this.position == position
      ensures velocity == Zero && Defaults() && AtRest() && Synced()
    {
      variant := Variant.Static;
      this.shape := shape;
      this.position := position;
      velocity := Zero;
      density, friction, restitution := 1.0, 0.0, 1.0;
      force, persistentForce, impulse, impulseCorrection := Zero, Zero, Zero, Zero;
      lifetimeCollisions := 0;
      new;
      MoveShape();
    }

    /** `new KinematicBody(shape, position, velocity)`. */
    constructor Kinematic(shape: Shape, position: Vec, velocity: Vec)
      modifies shape
      ensures variant.Kinematic? && this.shape == shape && this.position == position
      ensures this.velocity == velocity && Defaults() && AtRest() && Synced()
    {
      variant := Variant.Kinematic;
      this.shape := shape;
      this.position := position;
      this.velocity := velocity;
      density, friction, restitution := 1.0, 0.0, 1.0;
      force, persistentForce, impulse, impulseCorrection := Zero, Zero, Zero, Zero;
      lifetimeCollisions := 0;
      new;
      MoveShape();
    }

    /**
     * `new DynamicBody(shape, position, velocity)`: a kinematic body whose
     * force, persistent force, impulse and correction start at zero and
     * which has seen no collision.
     */
    constructor Dynamic(shape: Shape, position: Vec, velocity: Vec)
      modifies shape
      ensures variant.Dynamic? && this.shape == shape && this.position == position
      ensures this.velocity == velocity && Defaults() && AtRest() && Synced()
    {
      variant := Variant.Dynamic;
      this.shape := shape;
      this.position := position;
      this.velocity := velocity;
      density, friction, restitution := 1.0, 0.0, 1.0;
      force, persistentForce, impulse, impulseCorrection := Zero, Zero, Zero, Zero;
      lifetimeCollisions := 0;
      new;
      MoveShape();
    }

    /**
     * The `mass` getter: density times the shape's area, and Infinity for a
     * static body.
     */
    function Mass(): (m: Mass)
      reads this, shape
      ensures m.Infinite? <==> variant.Static?
      ensures !variant.Static? && shape.kind.RectShape? ==> m == Finite(density * (shape.kind.w * shape.kind.h))
      ensures !variant.Static? && (shape.kind.PointShape? || shape.kind.LineShape?) ==> m == Finite(0.0)
    {
      if variant.Static? then Infinite else Finite(density * shape.Area())
    }

    /** The `inv_mass` getter. */
    function InvMass(): (r: real)
      reads this, shape
      ensures variant.Static? ==> r == 0.0
      ensures shape.kind.PointShape? || shape.kind.LineShape? ==> r == 0.0
      ensures Mass().Finite? && Mass().value != 0.0 ==> r * Mass().value == 1.0
    {
      InverseMass(Mass())
    }

    /** The `velocity` getter: a static body always answers the zero vector. */
    function Velocity(): (v: Vec)
      reads this
      ensures variant.Static? ==> v == Zero
      ensures !variant.Static? ==> v == velocity
    {
      if variant.Static? then Zero else velocity
    }

    /** What `impulseResolution` reads of this body. */
    function AsParty(): Party
      reads this, shape
    {
      Party(Velocity(), restitution, InvMass())
    }

    /** The state an integration step reads and writes. */
    function State(): Motion
      reads this
    {
      Motion(position, velocity, force, persistentForce, impulse, impulseCorrection)
    }

    /** The state `impulseResolution` writes. */
    function Accumulators(): Response
      reads this
    {
      Response(impulse, impulseCorrection, lifetimeCollisions)
    }

    /** `moveShape`: places the shape at the body's position. */
    method MoveShape()
      modifies shape
      ensures Synced()
      ensures shape.pos == position.Add(shape.offset)
    {
      var s := shape.Translate(position);
    }

    /** `KinematicBody.update`: moves by the velocity and brings the shape along. */
    method KinematicUpdate()
      requires variant.Kinematic?
      modifies this, shape
      ensures position == old(position).Add(old(velocity))
      ensures velocity == old(velocity)
      ensures Synced()
      ensures density == old(density) && friction == old(friction) && restitution == old(restitution)
      ensures force == old(force) && persistentForce == old(persistentForce)
      ensures impulse == old(impulse) && impulseCorrection == old(impulseCorrection)
      ensures lifetimeCollisions == old(lifetimeCollisions)
    {
      position := position.Add(velocity);
      MoveShape();
    }

    /** `DynamicBody.update`, one integration step. */
    method DynamicUpdate(norm: Norm)
      requires variant.Dynamic?
      modifies this, shape
      ensures State() == Integrate(old(State()), old(InvMass()), norm)
      ensures Synced()
      ensures density == old(density) && friction == old(friction) && restitution == old(restitution)
      ensures lifetimeCollisions == old(lifetimeCollisions)
    {
      ghost var s := State();
      ghost var inv := InvMass();
      ghost var kicked := norm.magnitude(s.impulse) > 0.0;
      ghost var acc := Acceleration(s.force, s.persistentForce, inv);
      ghost var pushed := norm.magnitude(acc) > 0.0;
      if norm.magnitude(impulse) > 0.0 {
        velocity := velocity.Add(impulse.Scale(InvMass()));
        impulse := Zero;
      }
      assert InvMass() == inv && force == s.force && persistentForce == s.persistentForce;
      ghost var v1 := velocity;
      if norm.magnitude(Acceleration(force, persistentForce, InvMass())) > 0.0 {
        velocity := velocity.Add(Acceleration(force, persistentForce, InvMass()));
        force := Zero;
      }
      assert velocity == if pushed then v1.Add(acc) else v1;
      position := position.Add(velocity);
      position := position.Add(impulseCorrection);
      MoveShape();
    }

    /** `applyForce(force, persistent)`: adds to one of the two force accumulators. */
    method ApplyForce(f: Vec, persistent: bool := false)
      requires variant.Dynamic?
      modifies this
      ensures persistent ==> persistentForce == old(persistentForce).Add(f) && force == old(force)
      ensures !persistent ==> force == old(force).Add(f) && persistentForce == old(persistentForce)
      ensures position == old(position) && velocity == old(velocity)
      ensures impulse == old(impulse) && impulseCorrection == old(impulseCorrection)
      ensures density == old(density) && friction == old(friction) && restitution == old(restitution)
      ensures lifetimeCollisions == old(lifetimeCollisions)
    {
      if persistent {
        persistentForce := persistentForce.Add(f);
      } else {
        force := force.Add(f);
      }
    }

    /**
     * `impulseResolution(other, manifold)`: when the manifold collides and
     * the other body approaches along the normal, accumulates the impulse,
     * overwrites the positional correction and counts the collision. The
     * other body is only read.
     */
    method ImpulseResolution(other: Body, m: Manifold)
      requires variant.Dynamic?
      requires Solvable(AsParty(), other.AsParty(), m)
      modifies this
      ensures Accumulators() == Resolve(old(Accumulators()), old(AsParty()), old(other.AsParty()), m)
      ensures position == old(position) && velocity == old(velocity)
      ensures force == old(force) && persistentForce == old(persistentForce)
      ensures density == old(density) && friction == old(friction) && restitution == old(restitution)
      ensures AsParty() == old(AsParty())
    {
      ghost var a, b := AsParty(), other.AsParty();
      ghost var r := Accumulators();
      if m.collision {
        var relativeVelocity := other.Velocity().Sub(Velocity());
        var collisionSpeed := relativeVelocity.Dot(m.normal);
        if collisionSpeed >= 0.0 {
          var e := Min(restitution, other.restitution);
          var j := ImpulseMagnitude(e, collisionSpeed, InvMass(), other.InvMass());
          var kick := m.normal.Scale(j);
          var correction := m.normal.Scale(CorrectionFactor(m.penetration, InvMass(), other.InvMass()));
          assert Resolve(r, a, b, m) == Response(r.impulse.Add(kick), correction, r.lifetimeCollisions + 1);
          impulse := impulse.Add(kick);
          impulseCorrection := correction;
          lifetimeCollisions := lifetimeCollisions + 1;
        }
      }
    }

    /**
     * `impulseResolution(other)` without a manifold: the manifold of the two
     * shapes is built first, which fails for a point and a circle.
     */
    method ImpulseResolutionOfShapes(other: Body, norm: Norm, random: Vec) returns (outcome: Result<Manifold>)
      requires variant.Dynamic?
      requires var c := Collide(shape.Placement(), other.shape.Placement(), norm, random);
        c.Ok? ==> Solvable(AsParty(), other.AsParty(), c.value)
      modifies this
      ensures outcome == old(Collide(shape.Placement(), other.shape.Placement(), norm, random))
      ensures outcome.Err? ==> Accumulators() == old(Accumulators())
      ensures outcome.Ok? ==> Accumulators() == Resolve(old(Accumulators()), old(AsParty()), old(other.AsParty()), outcome.value)
      ensures position == old(position) && velocity == old(velocity)
      ensures force == old(force) && persistentForce == old(persistentForce)
      ensures density == old(density) && friction == old(friction) && restitution == old(restitution)
    {
      outcome := NewManifold(shape, other.shape, norm, random);
      if outcome.Ok? {
        ImpulseResolution(other, outcome.value);
      }
    }
  }

  // Properties of the integration step.

  /** With a Euclidean magnitude, a pending impulse never survives an update. */
  lemma {:induction false} IntegrateClearsImpulse(s: Motion, invMass: real, norm: Norm)
    requires EuclideanAt(norm, s.impulse)
    ensures Integrate(s, invMass, norm).impulse == Zero
  {
    MagnitudeZero(norm, s.impulse);
  }

  /**
   * With a Euclidean magnitude the two guards of the update make no
   * difference to the velocity: it gains the impulse and the acceleration,
   * both scaled by the inverse mass.
   */
  lemma {:induction false} IntegrateVelocity(s: Motion, invMass: real, norm: Norm)
    requires EuclideanAt(norm, s.impulse)
    requires EuclideanAt(norm, Acceleration(s.force, s.persistentForce, invMass))
    ensures Integrate(s, invMass, norm).velocity ==
      s.velocity.Add(s.impulse.Scale(invMass)).Add(Acceleration(s.force, s.persistentForce, invMass))
  {
    MagnitudeZero(norm, s.impulse);
    MagnitudeZero(norm, Acceleration(s.force, s.persistentForce, invMass));
  }

  /**
   * The one-step force is cleared exactly when the acceleration is not zero:
   * a force that the persistent force cancels, or any force on a body of
   * zero inverse mass, is kept for the next step.
   */
  lemma {:induction false} IntegrateForce(s: Motion, invMass: real, norm: Norm)
    requires EuclideanAt(norm, Acceleration(s.force, s.persistentForce, invMass))
    ensures Integrate(s, invMass, norm).force ==
      if Acceleration(s.force, s.persistentForce, invMass) == Zero then s.force else Zero
  {
    MagnitudeZero(norm, Acceleration(s.force, s.persistentForce, invMass));
  }

  /**
   * A body of zero inverse mass (a point or a line, whose area is zero)
   * keeps its velocity through any impulse and force, whatever the magnitude.
   */
  lemma {:induction false} MasslessBodyCoasts(s: Motion, norm: Norm)
    ensures Integrate(s, 0.0, norm).velocity == s.velocity
    ensures Integrate(s, 0.0, norm).position == s.position.Add(s.velocity).Add(s.impulseCorrection)
  {
    assert s.impulse.Scale(0.0) == Zero;
    assert Acceleration(s.force, s.persistentForce, 0.0) == Zero;
  }

  /** A force applied to either accumulator adds its scaled value to the acceleration. */
  lemma {:induction false} AccelerationAdds(force: Vec, persistentForce: Vec, f: Vec, invMass: real)
    ensures Acceleration(force.Add(f), persistentForce, invMass) == Acceleration(force, persistentForce, invMass).Add(f.Scale(invMass))
    ensures Acceleration(force, persistentForce.Add(f), invMass) == Acceleration(force, persistentForce, invMass).Add(f.Scale(invMass))
  {
  }

  // Properties of the impulse resolution.

  /**
   * The impulse is accumulated: what a resolution adds does not depend on
   * the impulse already pending. The correction is overwritten: it does not
   * depend on the correction already stored.
   */
  lemma {:induction false} ResolveAccumulatesImpulseOverwritesCorrection(r1: Response, r2: Response, a: Party, b: Party, m: Manifold)
    requires Solvable(a, b, m) && Resolves(a, b, m)
    ensures Resolve(r1, a, b, m).impulse.Sub(r1.impulse) == Resolve(r2, a, b, m).impulse.Sub(r2.impulse)
    ensures Resolve(r1, a, b, m).impulseCorrection == Resolve(r2, a, b, m).impulseCorrection
  {
  }

  /**
   * With non-negative inverse masses and a restitution of at least -1, the
   * impulse magnitude is never negative: the impulse pushes body `a` along
   * the normal, away from `b`.
   */
  lemma {:induction false} ImpulseMagnitudeNonNegative(e: real, speed: real, invA: real, invB: real)
    requires 0.0 <= invA && 0.0 <= invB && invA + invB != 0.0
    requires -1.0 <= e && 0.0 <= speed
    ensures ImpulseMagnitude(e, speed, invA, invB) >= 0.0
  {
    var top := (1.0 + e) * speed;
    if top > 0.0 {
      var q := Quotient(top, invA + invB);
    } else {
      assert top == 0.0 by {
        if 1.0 + e > 0.0 && speed > 0.0 {
          var p := Product(1.0 + e, speed);
        }
      }
    }
  }

  /**
   * The correction share of `a` is at most the whole correction: its inverse
   * mass over the sum of both, with non-negative inverse masses.
   */
  lemma {:induction false} CorrectionFactorBounds(penetration: real, invA: real, invB: real)
    requires 0.0 <= invA && 0.0 <= invB && invA + invB != 0.0
    ensures 0.0 <= CorrectionFactor(penetration, invA, invB) <= Max(penetration - Slop, 0.0) * CorrectionPercent
  {
    var c := Max(penetration - Slop, 0.0) * CorrectionPercent;
    var s := ShareAtMost(c, invA, invB);
    assert CorrectionFactor(penetration, invA, invB) == s;
  }

  /**
   * Against a body of zero inverse mass (static, or a point or a line), with
   * a unit normal and no impulse pending, the velocity `a` has after its
   * update approaches `b` at minus the restitution times the speed it had.
   */
  lemma {:induction false} BounceOffImmovable(r: Response, a: Party, b: Party, m: Manifold)
    requires a.invMass > 0.0 && b.invMass == 0.0
    requires Resolves(a, b, m) && m.normal.LengthSq() == 1.0
    requires r.impulse == Zero
    ensures var v := a.velocity.Add(Resolve(r, a, b, m).impulse.Scale(a.invMass));
      ClosingSpeed(a.(velocity := v), b, m.normal) == -Min(a.restitution, b.restitution) * ClosingSpeed(a, b, m.normal)
  {
    var speed := ClosingSpeed(a, b, m.normal);
    var e := Min(a.restitution, b.restitution);
    var j := ImpulseMagnitude(e, speed, a.invMass, b.invMass);
    assert Resolve(r, a, b, m).impulse == m.normal.Scale(j);
    ImpulseCancelsInverseMass(e, speed, a.invMass);
    KickAlong(b.velocity, a.velocity, m.normal, j, a.invMass);
  }

  /** Against zero inverse mass, the impulse times the inverse mass of `a` is (1 + e) times the speed. */
  lemma {:induction false} ImpulseCancelsInverseMass(e: real, speed: real, invA: real)
    requires invA > 0.0
    ensures ImpulseMagnitude(e, speed, invA, 0.0) * invA == (1.0 + e) * speed
  {
    Cancel((1.0 + e) * speed, invA);
  }
}
