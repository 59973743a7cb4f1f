/**
 * Shapes and pairwise collision detection (collision.js).
 *
 * A shape is an object whose global position `pos` is updated in place by
 * `translate`; its kind, dimensions and offset never change after
 * construction. A manifold is the value that the `Manifold` constructor
 * leaves behind: a collision flag, a normal and a penetration depth. The
 * constructor is modelled twice: as the method NewManifold, which follows the
 * source statement by statement, and as the function Collide, which states
 * the same result case by case and is what the lemmas talk about.
 */
module Collision {
  import opened Vectors

  /** Math.PI, as the decimal that JavaScript prints for it. */
  const Pi: real := 3.141592653589793

  /** clamp(x, min, max): `min` below the range, `max` above it, `x` otherwise. */
  function Clamp(x: real, lo: real, hi: real): (r: real)
    ensures lo <= x <= hi ==> r == x
    ensures lo <= hi ==> lo <= r <= hi
    ensures x < lo ==> r == lo
    ensures lo <= x && hi < x ==> r == hi
  {
    if x < lo then lo else if x > hi then hi else x
  }

  /** The shape classes Point, Circle, Rect and Line, with their dimensions. */
  datatype Kind =
    | PointShape
    | CircleShape(r: real)
    | RectShape(w: real, h: real)
    | LineShape

  /** What a manifold computation reads of a shape: its kind and its global position. */
  datatype Placed = Placed(kind: Kind, pos: Vec)

  class Shape {
    const kind: Kind
    /** Coordinates relative to the body that carries the shape. */
    const offset: Vec
    /** Global coordinates. */
    var pos: Vec

    constructor Point()
      ensures kind == PointShape && offset == Zero && pos == offset
    {
      kind := PointShape;
      offset := Zero;
      pos := Zero;
    }

    constructor Circle(radius: real, dx: real := 0.0, dy: real := 0.0)
      ensures kind == CircleShape(radius) && offset == Vec(dx, dy) && pos == offset
    {
      kind := CircleShape(radius);
      offset := Vec(dx, dy);
      pos := Vec(dx, dy);
    }

    constructor Rect(width: real, height: real, dx: real := 0.0, dy: real := 0.0)
      ensures kind == RectShape(width, height) && offset == Vec(dx, dy) && pos == offset
    {
      kind := RectShape(width, height);
      offset := Vec(dx, dy);
      pos := Vec(dx, dy);
    }

    /** A line is placed at the midpoint of its two end points. */
    constructor Line(start: Vec, end: Vec)
      ensures kind == LineShape && pos == offset
      ensures offset.Add(offset) == start.Add(end)
    {
      var midpoint := end.Sub(start).Scale(0.5).Add(start);
      kind := LineShape;
      offset := midpoint;
      pos := midpoint;
    }

    /** Moves the shape to `position` plus its offset and returns the shape itself. */
    method Translate(position: Vec) returns (s: Shape)
      modifies this
      ensures pos == position.Add(offset)
      ensures s == this
    {
      pos := position.Add(offset);
      s := this;
    }

    /** The lower corner of a rectangle: half its extents below the centre. */
    function Min(): (r: Vec)
      requires kind.RectShape?
      reads this
      ensures r.Add(Vec(kind.w / 2.0, kind.h / 2.0)) == pos
    {
      Vec(pos.x - kind.w / 2.0, pos.y - kind.h / 2.0)
    }

    /** The upper corner of a rectangle: half its extents above the centre. */
    function Max(): (r: Vec)
      requires kind.RectShape?
      reads this
      ensures r.Sub(Vec(kind.w / 2.0, kind.h / 2.0)) == pos
    {
      Vec(pos.x + kind.w / 2.0, pos.y + kind.h / 2.0)
    }

    /**
     * The `area` getter of each shape class. A rectangle computes its area
     * from its corners; that is width times height wherever it stands.
     */
    function Area(): (r: real)
      reads this
      ensures kind.RectShape? ==> r == kind.w * kind.h
      ensures kind.CircleShape? ==> r >= 0.0
      ensures kind.PointShape? || kind.LineShape? ==> r == 0.0
    {
      match kind
      case PointShape => 0.0
      case CircleShape(radius) => Pi * (radius * radius)
      case RectShape(_, _) => (Max().x - Min().x) * (Max().y - Min().y)
      case LineShape => 0.0
    }

    function Placement(): Placed
      reads this
    {
      Placed(kind, pos)
    }
  }

  /**
   * A manifold as the constructor leaves it. The normal here is the one the
   * getter returns: the setter stores the unit vector of what it is given.
   */
  datatype Manifold = Manifold(collision: bool, normal: Vec, penetration: real)

  /** The defaults the constructor starts from, with the normal before normalisation. */
  const NoContact: Manifold := Manifold(false, Zero, 0.0)

  /** The Point–Circle branch assigns to an undeclared `d`, a ReferenceError. */
  datatype CollisionError = UndefinedVariable

  datatype Result<T> = Ok(value: T) | Err(error: CollisionError)

  /** Point–Point: the points collide when the vector between them has magnitude zero. */
  function PointPoint(a: Vec, b: Vec, norm: Norm): (m: Manifold)
    ensures m.normal == Zero && m.penetration == 0.0
  {
    Manifold(norm.magnitude(a.Sub(b)) == 0.0, Zero, 0.0)
  }

  /**
   * Circle–Circle: the circles collide when the distance between the centres
   * is at most the sum of the radii. The normal points from b's centre to
   * a's, or is the random vector when the centres coincide.
   */
  function CircleCircle(a: Vec, ra: real, b: Vec, rb: real, norm: Norm, random: Vec): (m: Manifold)
    ensures !m.collision ==> m == NoContact
    ensures m.collision ==> m.penetration >= 0.0
    ensures m.collision ==> m.normal == a.Sub(b) || m.normal == random
  {
    var r := ra + rb;
    var d := norm.magnitude(a.Sub(b));
    if r >= d then
      Manifold(true, if d != 0.0 then a.Sub(b) else random, r - d)
    else
      NoContact
  }

  /** The overlap of two axis-aligned rectangles along each axis. */
  function RectOverlap(a: Vec, wa: real, ha: real, b: Vec, wb: real, hb: real): Vec {
    var d := a.Sub(b);
    Vec(wa / 2.0 + wb / 2.0 - Abs(d.x), ha / 2.0 + hb / 2.0 - Abs(d.y))
  }

  /** Two closed boxes, each given by its lower and upper corner, share a point. */
  predicate BoxesMeet(aMin: Vec, aMax: Vec, bMin: Vec, bMax: Vec) {
    aMin.x <= bMax.x && bMin.x <= aMax.x && aMin.y <= bMax.y && bMin.y <= aMax.y
  }

  /**
   * Rect–Rect: the rectangles collide exactly when their boxes meet. The
   * penetration is the smaller overlap, the y overlap on a tie, and the
   * normal is the unit axis of that overlap, pointing from b towards a
   * (towards the negative side when the centres are level on that axis).
   */
  function RectRect(a: Vec, wa: real, ha: real, b: Vec, wb: real, hb: real): (m: Manifold)
    ensures m.collision <==> BoxesMeet(
      Vec(a.x - wa / 2.0, a.y - ha / 2.0), Vec(a.x + wa / 2.0, a.y + ha / 2.0),
      Vec(b.x - wb / 2.0, b.y - hb / 2.0), Vec(b.x + wb / 2.0, b.y + hb / 2.0))
    ensures !m.collision ==> m == NoContact
    ensures m.collision ==>
      var overlap := RectOverlap(a, wa, ha, b, wb, hb);
      && m.penetration == Min(overlap.x, overlap.y) >= 0.0
      && (m.normal == Vec(1.0, 0.0) || m.normal == Vec(-1.0, 0.0) ||
          m.normal == Vec(0.0, 1.0) || m.normal == Vec(0.0, -1.0))
      && (m.normal.x != 0.0 <==> overlap.x < overlap.y)
      && m.normal.Dot(a.Sub(b)) >= 0.0
  {
    var d := a.Sub(b);
    var overlap := RectOverlap(a, wa, ha, b, wb, hb);
    if overlap.x >= 0.0 && overlap.y >= 0.0 then
      if overlap.x < overlap.y then
        Manifold(true, if d.x > 0.0 then Vec(1.0, 0.0) else Vec(-1.0, 0.0), overlap.x)
      else
        Manifold(true, if d.y > 0.0 then Vec(0.0, 1.0) else Vec(0.0, -1.0), overlap.y)
    else
      NoContact
  }

  /** `d` lies in the w-by-h rectangle centred at the origin. */
  predicate InBox(d: Vec, w: real, h: real) {
    Abs(d.x) <= w / 2.0 && Abs(d.y) <= h / 2.0
  }

  /**
   * The point of a w-by-h rectangle centred at the origin closest to `d`:
   * each coordinate clamped to the half-extents. It is `d` itself exactly
   * when `d` lies in the rectangle.
   */
  function ClosestPoint(d: Vec, w: real, h: real): (c: Vec)
    ensures 0.0 <= w ==> Abs(c.x) <= w / 2.0
    ensures 0.0 <= h ==> Abs(c.y) <= h / 2.0
    ensures 0.0 <= w && 0.0 <= h ==> (c == d <==> InBox(d, w, h))
  {
    Vec(Clamp(d.x, -w / 2.0, w / 2.0), Clamp(d.y, -h / 2.0, h / 2.0))
  }

  /** The source's test for a circle centre inside the rectangle: no distance to the closest point. */
  predicate CentreInside(d: Vec, w: real, h: real, norm: Norm) {
    norm.magnitude(d.Sub(ClosestPoint(d, w, h))) == 0.0
  }

  /**
   * For a centre inside the rectangle: moves the closest point onto the edge
   * facing the larger coordinate of `d` (the y edge on a tie). A zero
   * coordinate has sign zero and is not moved.
   */
  function PushToEdge(d: Vec, closest: Vec, w: real, h: real): (c: Vec)
    ensures Abs(d.x) > Abs(d.y) ==> c.y == closest.y && (closest.x == 0.0 ==> c.x == 0.0)
    ensures Abs(d.x) > Abs(d.y) && closest.x != 0.0 ==> Abs(c.x) == Abs(w / 2.0)
    ensures Abs(d.x) <= Abs(d.y) ==> c.x == closest.x && (closest.y == 0.0 ==> c.y == 0.0)
    ensures Abs(d.x) <= Abs(d.y) && closest.y != 0.0 ==> Abs(c.y) == Abs(h / 2.0)
  {
    if Abs(d.x) > Abs(d.y) then
      closest.(x := Signed(w / 2.0, closest.x))
    else
      closest.(y := Signed(h / 2.0, closest.y))
  }

  /** `half` carrying the sign of `c`, and zero when `c` is zero. */
  function Signed(half: real, c: real): real {
    if c > 0.0 then half else if c < 0.0 then -half else 0.0
  }

  /** Signed is the product with Math.sign that the source writes. */
  lemma SignedIsProduct(half: real, c: real)
    ensures half * Sign(c) == Signed(half, c)
  {
  }

  /** The sign the source gives the Rect–Circle normal. */
  function Orientation(inside: bool, rectFirst: bool): real {
    (if inside then 1.0 else -1.0) * (if rectFirst then 1.0 else -1.0)
  }

  /** `n` turned the way the Rect–Circle normal points: kept or reversed. */
  function Oriented(n: Vec, inside: bool, rectFirst: bool): Vec {
    if inside == rectFirst then n else Vec(-n.x, -n.y)
  }

  /** Scaling by the orientation sign keeps or reverses the vector. */
  lemma OrientedIsScale(n: Vec, inside: bool, rectFirst: bool)
    ensures n.Scale(Orientation(inside, rectFirst)) == Oriented(n, inside, rectFirst)
  {
  }

  /**
   * The vector from the closest point of the rectangle (pushed onto an edge
   * when the centre is inside) to the circle centre `d`.
   */
  function EdgeVector(d: Vec, w: real, h: real, norm: Norm): Vec {
    var clamped := ClosestPoint(d, w, h);
    d.Sub(if CentreInside(d, w, h, norm) then PushToEdge(d, clamped, w, h) else clamped)
  }

  /**
   * Rect–Circle, for a w-by-h rectangle centred at `rect` and a circle of
   * the given radius centred at `circle`; `rectFirst` tells whether the
   * rectangle was the first argument. The circle collides when the edge
   * vector is no longer than the radius or the centre is inside.
   */
  function RectCircle(rect: Vec, w: real, h: real, circle: Vec, radius: real, rectFirst: bool, norm: Norm): (m: Manifold)
    ensures !m.collision ==> m == NoContact
  {
    var d := circle.Sub(rect);
    var inside := CentreInside(d, w, h, norm);
    var n := EdgeVector(d, w, h, norm);
    if norm.magnitude(n) <= radius || inside then
      Manifold(true, Oriented(n, inside, rectFirst), radius - norm.magnitude(n))
    else
      NoContact
  }

  /** The shape pairs the constructor has a branch for. */
  predicate Handled(a: Kind, b: Kind) {
    || (a.PointShape? && (b.PointShape? || b.CircleShape?))
    || (a.CircleShape? && (b.PointShape? || b.CircleShape? || b.RectShape?))
    || (a.RectShape? && (b.RectShape? || b.CircleShape?))
  }

  /**
   * The manifold of two placed shapes, with the normal as the constructor
   * passes it to the setter (before normalisation).
   */
  function Contact(a: Placed, b: Placed, norm: Norm, random: Vec): (r: Result<Manifold>)
    ensures r.Err? <==> (a.kind.PointShape? && b.kind.CircleShape?) || (a.kind.CircleShape? && b.kind.PointShape?)
    ensures !Handled(a.kind, b.kind) ==> r == Ok(NoContact)
  {
    match (a.kind, b.kind)
    case (PointShape, PointShape) => Ok(PointPoint(a.pos, b.pos, norm))
    case (PointShape, CircleShape(_)) => Err(UndefinedVariable)
    case (CircleShape(_), PointShape) => Err(UndefinedVariable)
    case (CircleShape(ra), CircleShape(rb)) => Ok(CircleCircle(a.pos, ra, b.pos, rb, norm, random))
    case (RectShape(wa, ha), RectShape(wb, hb)) => Ok(RectRect(a.pos, wa, ha, b.pos, wb, hb))
    case (RectShape(w, h), CircleShape(radius)) => Ok(RectCircle(a.pos, w, h, b.pos, radius, true, norm))
    case (CircleShape(radius), RectShape(w, h)) => Ok(RectCircle(b.pos, w, h, a.pos, radius, false, norm))
    case _ => Ok(NoContact)
  }

  /** What `new Manifold(a, b)` yields: Contact with the normal normalised by the setter. */
  function Collide(a: Placed, b: Placed, norm: Norm, random: Vec): Result<Manifold> {
    match Contact(a, b, norm, random)
    case Err(e) => Err(e)
    case Ok(m) => Ok(Normalised(m, norm))
  }

  /** The normal the setter stores: the unit vector of the one it is given. */
  function Normalised(m: Manifold, norm: Norm): Manifold {
    m.(normal := norm.unit(m.normal))
  }

  /** The Circle–Circle branch of the constructor, applied to the defaults. */
  method CircleCircleBranch(a: Shape, b: Shape, norm: Norm, random: Vec) returns (m: Manifold)
    requires a.kind.CircleShape? && b.kind.CircleShape?
    ensures m == Normalised(CircleCircle(a.pos, a.kind.r, b.pos, b.kind.r, norm, random), norm)
  {
    m := Normalised(NoContact, norm);
    var r := a.kind.r + b.kind.r;
    var d := norm.magnitude(a.pos.Sub(b.pos));
    if r >= d {
      m := m.(collision := true, penetration := r - d);
      if d != 0.0 {
        m := m.(normal := norm.unit(a.pos.Sub(b.pos)));
      } else {
        m := m.(normal := norm.unit(random));
      }
    }
  }

  /** The Rect–Rect branch of the constructor, applied to the defaults. */
  method RectRectBranch(a: Shape, b: Shape, norm: Norm) returns (m: Manifold)
    requires a.kind.RectShape? && b.kind.RectShape?
    ensures m == Normalised(RectRect(a.pos, a.kind.w, a.kind.h, b.pos, b.kind.w, b.kind.h), norm)
  {
    m := Normalised(NoContact, norm);
    var d := a.pos.Sub(b.pos);
    var overlap := Vec(a.kind.w / 2.0 + b.kind.w / 2.0 - Abs(d.x), a.kind.h / 2.0 + b.kind.h / 2.0 - Abs(d.y));
    if overlap.x >= 0.0 && overlap.y >= 0.0 {
      m := m.(collision := true);
      if overlap.x < overlap.y {
        m := m.(penetration := overlap.x);
        if d.x > 0.0 {
          m := m.(normal := norm.unit(Vec(1.0, 0.0)));
        } else {
          m := m.(normal := norm.unit(Vec(-1.0, 0.0)));
        }
      } else {
        m := m.(penetration := overlap.y);
        if d.y > 0.0 {
          m := m.(normal := norm.unit(Vec(0.0, 1.0)));
        } else {
          m := m.(normal := norm.unit(Vec(0.0, -1.0)));
        }
      }
    }
  }

  /**
   * The Rect–Circle branch of the constructor, applied to the defaults, once
   * the two shapes are sorted into the rectangle and the circle; `closest`
   * is moved onto the edge in place when the centre is inside.
   */
  method RectCircleBranch(rect: Shape, circle: Shape, rectFirst: bool, norm: Norm) returns (m: Manifold)
    requires rect.kind.RectShape? && circle.kind.CircleShape?
    ensures m == Normalised(RectCircle(rect.pos, rect.kind.w, rect.kind.h, circle.pos, circle.kind.r, rectFirst, norm), norm)
  {
    m := Normalised(NoContact, norm);
    var d := circle.pos.Sub(rect.pos);
    var closest := Vec(Clamp(d.x, -rect.kind.w / 2.0, rect.kind.w / 2.0), Clamp(d.y, -rect.kind.h / 2.0, rect.kind.h / 2.0));
    assert closest == ClosestPoint(d, rect.kind.w, rect.kind.h);
    var inside := norm.magnitude(d.Sub(closest)) == 0.0;
    if inside {
      if Abs(d.x) > Abs(d.y) {
        SignedIsProduct(rect.kind.w / 2.0, closest.x);
        closest := closest.(x := rect.kind.w / 2.0 * Sign(closest.x));
      } else {
        SignedIsProduct(rect.kind.h / 2.0, closest.y);
        closest := closest.(y := rect.kind.h / 2.0 * Sign(closest.y));
      }
      assert closest == PushToEdge(d, ClosestPoint(d, rect.kind.w, rect.kind.h), rect.kind.w, rect.kind.h);
    }
    var n := d.Sub(closest);
    assert n == EdgeVector(d, rect.kind.w, rect.kind.h, norm);
    OrientedIsScale(n, inside, rectFirst);
    if norm.magnitude(n) <= circle.kind.r || inside {
      m := m.(collision := true);
      m := m.(normal := norm.unit(d.Sub(closest).Scale(Orientation(inside, rectFirst))));
      m := m.(penetration := circle.kind.r - norm.magnitude(n));
    }
  }

  /**
   * The Manifold constructor. `norm` supplies the vector class's magnitude
   * and unit; `random` is the pair of Math.random() draws used when two
   * circles share a centre.
   */
  method NewManifold(a: Shape, b: Shape, norm: Norm, random: Vec) returns (r: Result<Manifold>)
    ensures r == Collide(a.Placement(), b.Placement(), norm, random)
  {
    var m := Normalised(NoContact, norm);
    if a.kind.PointShape? && b.kind.PointShape? {
      m := m.(collision := norm.magnitude(a.pos.Sub(b.pos)) == 0.0);
    } else if (a.kind.PointShape? && b.kind.CircleShape?) || (a.kind.CircleShape? && b.kind.PointShape?) {
      return Err(UndefinedVariable);
    }

    if a.kind.CircleShape? && b.kind.CircleShape? {
      m := CircleCircleBranch(a, b, norm, random);
    } else if a.kind.RectShape? && b.kind.RectShape? {
      m := RectRectBranch(a, b, norm);
    } else if (a.kind.RectShape? && b.kind.CircleShape?) || (a.kind.CircleShape? && b.kind.RectShape?) {
      var rect, circle := if a.kind.RectShape? then a else b, if a.kind.RectShape? then b else a;
      m := RectCircleBranch(rect, circle, a.kind.RectShape?, norm);
    }
    r := Ok(m);
  }

  // Properties of the manifold.

  /** Two points collide exactly when they coincide, for a Euclidean magnitude. */
  lemma PointPointMeansSamePoint(a: Vec, b: Vec, norm: Norm)
    requires EuclideanAt(norm, a.Sub(b))
    ensures PointPoint(a, b, norm).collision <==> a == b
  {
    MagnitudeZero(norm, a.Sub(b));
  }

  /**
   * Circle–Circle in squared form: for a Euclidean magnitude, the circles
   * collide exactly when the squared distance between the centres is at
   * most the squared sum of the radii, and distinct centres give the normal
   * from b's centre to a's.
   */
  lemma CircleCircleSquared(a: Vec, ra: real, b: Vec, rb: real, norm: Norm, random: Vec)
    requires EuclideanAt(norm, a.Sub(b))
    ensures CircleCircle(a, ra, b, rb, norm, random).collision <==>
      0.0 <= ra + rb && a.Sub(b).LengthSq() <= (ra + rb) * (ra + rb)
    ensures CircleCircle(a, ra, b, rb, norm, random).collision && a != b ==>
      CircleCircle(a, ra, b, rb, norm, random).normal == a.Sub(b)
  {
    MagnitudeAtMost(norm, a.Sub(b), ra + rb);
    MagnitudeZero(norm, a.Sub(b));
  }

  /**
   * Swapping the circles of a Circle–Circle test keeps the verdict and the
   * penetration and reverses the normal, unless the centres coincide.
   */
  lemma CircleCircleSwap(a: Vec, ra: real, b: Vec, rb: real, norm: Norm, random: Vec)
    requires EuclideanAt(norm, a.Sub(b)) && EuclideanAt(norm, b.Sub(a))
    ensures var m, w := CircleCircle(a, ra, b, rb, norm, random), CircleCircle(b, rb, a, ra, norm, random);
      && m.collision == w.collision
      && m.penetration == w.penetration
      && (m.collision && a != b ==> Opposite(w.normal, m.normal))
  {
    DistanceSymmetric(norm, a, b);
    MagnitudeZero(norm, b.Sub(a));
    SubZero(b, a);
  }

  /**
   * Swapping the rectangles of a Rect–Rect test keeps the verdict and the
   * penetration. The normal is reversed when the centres differ along the
   * chosen axis; when they are level on it, both orders give the negative axis.
   */
  lemma RectRectSwap(a: Vec, wa: real, ha: real, b: Vec, wb: real, hb: real)
    ensures var m, w := RectRect(a, wa, ha, b, wb, hb), RectRect(b, wb, hb, a, wa, ha);
      && m.collision == w.collision
      && m.penetration == w.penetration
      && (m.collision && m.normal.x != 0.0 && a.x != b.x ==> Opposite(w.normal, m.normal))
      && (m.collision && m.normal.y != 0.0 && a.y != b.y ==> Opposite(w.normal, m.normal))
      && (m.collision && m.normal.x != 0.0 && a.x == b.x ==> w.normal == m.normal == Vec(-1.0, 0.0))
      && (m.collision && m.normal.y != 0.0 && a.y == b.y ==> w.normal == m.normal == Vec(0.0, -1.0))
  {
    assert RectOverlap(a, wa, ha, b, wb, hb) == RectOverlap(b, wb, hb, a, wa, ha);
  }

  /**
   * For a Euclidean magnitude, the source's inside test holds exactly when
   * the circle centre lies in the rectangle.
   */
  lemma CentreInsideMeansInBox(d: Vec, w: real, h: real, norm: Norm)
    requires 0.0 <= w && 0.0 <= h
    requires EuclideanAt(norm, d.Sub(ClosestPoint(d, w, h)))
    ensures CentreInside(d, w, h, norm) <==> InBox(d, w, h)
  {
    MagnitudeZero(norm, d.Sub(ClosestPoint(d, w, h)));
    assert d.Sub(ClosestPoint(d, w, h)) == Zero <==> ClosestPoint(d, w, h) == d;
  }

  /**
   * Rect–Circle in squared form: for a Euclidean magnitude, a circle whose
   * centre lies in the rectangle always collides, and one whose centre lies
   * outside collides exactly when the squared distance to the closest point
   * of the rectangle is at most the squared radius.
   */
  lemma RectCircleSquared(rect: Vec, w: real, h: real, circle: Vec, radius: real, rectFirst: bool, norm: Norm)
    requires 0.0 <= w && 0.0 <= h
    requires EuclideanAt(norm, circle.Sub(rect).Sub(ClosestPoint(circle.Sub(rect), w, h)))
    ensures var d := circle.Sub(rect);
      RectCircle(rect, w, h, circle, radius, rectFirst, norm).collision <==>
        InBox(d, w, h) || (0.0 <= radius && d.Sub(ClosestPoint(d, w, h)).LengthSq() <= radius * radius)
  {
    var d := circle.Sub(rect);
    CentreInsideMeansInBox(d, w, h, norm);
    MagnitudeAtMost(norm, d.Sub(ClosestPoint(d, w, h)), radius);
  }

  /**
   * Swapping the arguments of a Rect–Circle test keeps the verdict and the
   * penetration and reverses the normal: only the `a instanceof Rect`
   * factor changes.
   */
  lemma RectCircleSwap(rect: Vec, w: real, h: real, circle: Vec, radius: real, norm: Norm)
    ensures var m, s := RectCircle(rect, w, h, circle, radius, true, norm), RectCircle(rect, w, h, circle, radius, false, norm);
      && m.collision == s.collision
      && m.penetration == s.penetration
      && Opposite(s.normal, m.normal)
  {
  }

  /**
   * When the circle centre lies in the rectangle but not at its centre, the
   * closest point is pushed onto an edge: a vertical edge when |d.x| is
   * the larger coordinate, a horizontal one otherwise.
   */
  lemma PushedOntoEdge(d: Vec, w: real, h: real)
    requires 0.0 <= w && 0.0 <= h && d != Zero
    ensures var c := PushToEdge(d, ClosestPoint(d, w, h), w, h);
      (Abs(d.x) > Abs(d.y) ==> Abs(c.x) == w / 2.0) &&
      (Abs(d.x) <= Abs(d.y) ==> Abs(c.y) == h / 2.0)
  {
    var c := ClosestPoint(d, w, h);
    if Abs(d.x) > Abs(d.y) {
      assert d.x != 0.0;
      assert w > 0.0 ==> Signed(w / 2.0, c.x) == Signed(w / 2.0, d.x);
    } else {
      assert d.y != 0.0;
      assert h > 0.0 ==> Signed(h / 2.0, c.y) == Signed(h / 2.0, d.y);
    }
  }

  /**
   * A circle centred exactly on the rectangle's centre is reported as
   * colliding, and the vector that becomes its normal is zero: Math.sign(0)
   * is 0, so the push to an edge leaves the closest point at the centre.
   */
  lemma ConcentricRectCircle(rect: Vec, w: real, h: real, radius: real, rectFirst: bool, norm: Norm)
    requires 0.0 <= w && 0.0 <= h
    requires EuclideanAt(norm, Zero)
    ensures RectCircle(rect, w, h, rect, radius, rectFirst, norm).collision
    ensures CentreInside(rect.Sub(rect), w, h, norm) && EdgeVector(rect.Sub(rect), w, h, norm) == Zero
  {
    MagnitudeZero(norm, Zero);
    assert rect.Sub(rect) == Zero;
    assert ClosestPoint(Zero, w, h) == Zero;
  }

  /**
   * A circle whose centre lies inside the rectangle, above its centre and
   * with a vertical offset at least as large as the horizontal one, is pushed
   * to the upper edge (the source pushes along the larger coordinate of the
   * offset, not to the nearest edge). It is reported as colliding with
   * penetration `radius` minus the distance to that edge: the source
   * subtracts the edge distance in both the inside and the outside case. So
   * a centre deeper than the radius gives a negative penetration.
   */
  lemma DeepInsideNegativePenetration(rect: Vec, w: real, h: real, circle: Vec, radius: real, rectFirst: bool, norm: Norm)
    requires 0.0 <= w && 0.0 <= h
    requires InBox(circle.Sub(rect), w, h)
    requires var d := circle.Sub(rect); Abs(d.x) <= d.y && 0.0 < d.y
    requires EuclideanAt(norm, Zero) && EuclideanAt(norm, Vec(0.0, circle.y - rect.y - h / 2.0))
    ensures var m, depth := RectCircle(rect, w, h, circle, radius, rectFirst, norm), h / 2.0 - (circle.y - rect.y);
      && m.collision
      && m.penetration == radius - depth
      && (radius < depth ==> m.penetration < 0.0)
  {
    var d := circle.Sub(rect);
    MagnitudeZero(norm, Zero);
    assert ClosestPoint(d, w, h) == d;
    assert CentreInside(d, w, h, norm);
    var depth := h / 2.0 - d.y;
    assert EdgeVector(d, w, h, norm) == Vec(0.0, -depth);
    MagnitudeIs(norm, Vec(0.0, -depth), depth);
  }

  /**
   * The Circle–Circle penetration is the sum of the radii minus the distance
   * between the centres, stated in squared form.
   */
  lemma CircleCirclePenetration(a: Vec, ra: real, b: Vec, rb: real, norm: Norm, random: Vec)
    requires EuclideanAt(norm, a.Sub(b))
    ensures SquaredDepth(CircleCircle(a, ra, b, rb, norm, random), ra + rb, a.Sub(b))
  {
    var m := CircleCircle(a, ra, b, rb, norm, random);
    assert m.collision ==> m.penetration == ra + rb - norm.magnitude(a.Sub(b));
    DepthSquared(norm, a.Sub(b), ra + rb, m);
  }

  /**
   * The Rect–Circle penetration is the radius minus the length of the edge
   * vector, in the inside and the outside case alike, stated in squared form.
   */
  lemma RectCirclePenetration(rect: Vec, w: real, h: real, circle: Vec, radius: real, rectFirst: bool, norm: Norm)
    requires EuclideanAt(norm, EdgeVector(circle.Sub(rect), w, h, norm))
    ensures SquaredDepth(RectCircle(rect, w, h, circle, radius, rectFirst, norm), radius, EdgeVector(circle.Sub(rect), w, h, norm))
  {
    var m, n := RectCircle(rect, w, h, circle, radius, rectFirst, norm), EdgeVector(circle.Sub(rect), w, h, norm);
    RectCircleDepth(rect, w, h, circle, radius, rectFirst, norm);
    DepthSquared(norm, n, radius, m);
  }

  /**
   * On contact, the depth falls short of `reach` by a length that is not
   * negative and whose square is the squared length of `v`.
   */
  predicate SquaredDepth(m: Manifold, reach: real, v: Vec) {
    m.collision ==> 0.0 <= reach - m.penetration && (reach - m.penetration) * (reach - m.penetration) == v.LengthSq()
  }

  /** A contact whose depth is `reach` less a Euclidean magnitude has that magnitude squared. */
  lemma DepthSquared(norm: Norm, v: Vec, reach: real, m: Manifold)
    requires EuclideanAt(norm, v)
    requires m.collision ==> m.penetration == reach - norm.magnitude(v)
    ensures SquaredDepth(m, reach, v)
  {
    if m.collision {
      EuclideanSquare(norm, v, reach - m.penetration);
    }
  }

  /** On contact, the Rect–Circle penetration is the radius less the edge vector's magnitude. */
  lemma RectCircleDepth(rect: Vec, w: real, h: real, circle: Vec, radius: real, rectFirst: bool, norm: Norm)
    ensures var m := RectCircle(rect, w, h, circle, radius, rectFirst, norm);
      m.collision ==> m.penetration == radius - norm.magnitude(EdgeVector(circle.Sub(rect), w, h, norm))
  {
  }

  /** The product of two numbers of the same sign is not negative. */
  lemma SameSignProduct(u: real, v: real) returns (p: real)
    requires (0.0 <= u && 0.0 <= v) || (u <= 0.0 && v <= 0.0)
    ensures p == u * v && p >= 0.0
  {
    p := u * v;
    if u > 0.0 && v > 0.0 {
      p := Product(u, v);
    } else if u < 0.0 && v < 0.0 {
      p := Product(-u, -v);
    }
  }

  /**
   * Outside the rectangle, the centre offset moves away from its clamped
   * point: `(d - closest) . d` is not negative.
   */
  lemma {:induction false} AwayFromClosest(d: Vec, w: real, h: real)
    requires 0.0 <= w && 0.0 <= h
    ensures d.Sub(ClosestPoint(d, w, h)).Dot(d) >= 0.0
  {
    var c := ClosestPoint(d, w, h);
    var px := SameSignProduct(d.x - c.x, d.x);
    var py := SameSignProduct(d.y - c.y, d.y);
    assert d.Sub(c).Dot(d) == px + py;
  }

  /**
   * Inside the rectangle, the edge point lies further out than the centre
   * offset along it: `(pushed - d) . d` is not negative.
   */
  lemma {:induction false} TowardsPushedEdge(d: Vec, w: real, h: real)
    requires InBox(d, w, h)
    ensures PushToEdge(d, d, w, h).Sub(d).Dot(d) >= 0.0
  {
    var p := PushToEdge(d, d, w, h);
    if Abs(d.x) > Abs(d.y) {
      assert p == Vec(Signed(w / 2.0, d.x), d.y);
      var gap := Signed(w / 2.0, d.x) - d.x;
      assert d.x > 0.0 ==> gap >= 0.0;
      assert d.x < 0.0 ==> gap <= 0.0;
      var px := SameSignProduct(gap, d.x);
      assert p.Sub(d) == Vec(gap, 0.0);
    } else {
      assert p == Vec(d.x, Signed(h / 2.0, d.y));
      var gap := Signed(h / 2.0, d.y) - d.y;
      assert d.y > 0.0 ==> gap >= 0.0;
      assert d.y < 0.0 ==> gap <= 0.0;
      var py := SameSignProduct(gap, d.y);
      assert p.Sub(d) == Vec(0.0, gap);
    }
  }

  /**
   * The Rect–Circle normal (before normalisation) points from the second
   * shape towards the first: towards the rectangle's centre when the
   * rectangle comes first, towards the circle's centre otherwise.
   */
  lemma {:induction false} RectCircleNormalDirection(rect: Vec, w: real, h: real, circle: Vec, radius: real, rectFirst: bool, norm: Norm)
    requires 0.0 <= w && 0.0 <= h
    requires EuclideanAt(norm, circle.Sub(rect).Sub(ClosestPoint(circle.Sub(rect), w, h)))
    ensures var m := RectCircle(rect, w, h, circle, radius, rectFirst, norm);
      m.collision ==> m.normal.Dot(if rectFirst then rect.Sub(circle) else circle.Sub(rect)) >= 0.0
  {
    var d := circle.Sub(rect);
    if RectCircle(rect, w, h, circle, radius, rectFirst, norm).collision {
      EdgeVectorAlong(d, w, h, norm);
      OrientedTowards(EdgeVector(d, w, h, norm), d, CentreInside(d, w, h, norm), rectFirst);
      assert rect.Sub(circle) == Vec(-d.x, -d.y);
    }
  }

  /**
   * The edge vector points back along the centre offset `d` when the centre
   * is inside the rectangle, and forward along it when it is outside.
   */
  lemma {:induction false} EdgeVectorAlong(d: Vec, w: real, h: real, norm: Norm)
    requires 0.0 <= w && 0.0 <= h
    requires EuclideanAt(norm, d.Sub(ClosestPoint(d, w, h)))
    ensures var k := EdgeVector(d, w, h, norm).Dot(d);
      if CentreInside(d, w, h, norm) then k <= 0.0 else k >= 0.0
  {
    CentreInsideMeansInBox(d, w, h, norm);
    if CentreInside(d, w, h, norm) {
      TowardsPushedEdge(d, w, h);
      var u := PushToEdge(d, d, w, h).Sub(d);
      assert EdgeVector(d, w, h, norm) == Vec(-u.x, -u.y);
      ReversedDot(u, d);
    } else {
      AwayFromClosest(d, w, h);
    }
  }

  /**
   * The two reversals of the normal (for an inside centre, and for the
   * rectangle coming first) turn an edge vector that points back along `d`
   * inside and forward outside into one that points towards the first shape.
   */
  lemma OrientedTowards(n: Vec, d: Vec, inside: bool, rectFirst: bool)
    requires if inside then n.Dot(d) <= 0.0 else n.Dot(d) >= 0.0
    ensures Oriented(n, inside, rectFirst).Dot(if rectFirst then Vec(-d.x, -d.y) else d) >= 0.0
  {
    ReversedDot(n, d);
  }

  /** Rect–Rect in terms of the rectangles' own min and max corners. */
  lemma RectRectCorners(a: Shape, b: Shape, norm: Norm, random: Vec)
    requires a.kind.RectShape? && b.kind.RectShape?
    ensures Contact(a.Placement(), b.Placement(), norm, random).Ok?
    ensures Contact(a.Placement(), b.Placement(), norm, random).value.collision <==>
      BoxesMeet(a.Min(), a.Max(), b.Min(), b.Max())
  {
  }
}
