/**
 * The camera: a per-frame state machine over position, velocity, per-axis boundaries, an
 * animated move with a target and a remaining time, a frame counter and a stack of saved
 * positions for undo.
 *
 * The kinematic rules are stated as functions on values (the specification) with lemmas about
 * them; the class Camera holds the state and its methods are proved against those functions.
 */
module CameraEngine {
  import opened Geometry
  import Preferences

  // ---------------------------------------------------------------------------------------
  // Boundary-aware velocity decay along one axis

  /** Where a body at pos moving at v comes to rest under a constant deceleration d. */
  function RestPoint(pos: real, v: real, d: real): real
    requires d != 0.0
  {
    if v >= 0.0 then pos + v * v / (2.0 * d) else pos - v * v / (2.0 * d)
  }

  /**
   * The divisions of a velocity update are defined: a moving axis has a non-zero deceleration,
   * and when its rest point passes the boundary ahead the position is not on that boundary.
   */
  predicate DecayDefined(v: real, pos: real, d: real, lo: real, hi: real)
  {
    (v > 0.0 ==> d != 0.0 && (RestPoint(pos, v, d) > hi ==> pos != hi))
    && (v < 0.0 ==> d != 0.0 && (RestPoint(pos, v, d) < lo ==> pos != lo))
  }

  /** The velocity and the deceleration after the boundary check of one update. */
  datatype Braking = Braking(vel: real, decel: real)

  /**
   * The boundary check: if the rest point passes the boundary ahead, the deceleration becomes
   * the one that stops exactly on it; if that comes out negative (the position is already past
   * the boundary), motion on the axis stops.
   */
  function BoundaryBraking(v: real, pos: real, d: real, lo: real, hi: real): Braking
    requires DecayDefined(v, pos, d, lo, hi)
  {
    if v > 0.0 && RestPoint(pos, v, d) > hi then
      var d' := v * v / (2.0 * (hi - pos));
      if d' < 0.0 then Braking(0.0, 0.0) else Braking(v, d')
    else if v < 0.0 && RestPoint(pos, v, d) < lo then
      var d' := v * v / (2.0 * (pos - lo));
      if d' < 0.0 then Braking(0.0, 0.0) else Braking(v, d')
    else Braking(v, d)
  }

  /**
   * The velocity along one axis after a frame of dt: it decays towards zero and never changes
   * sign; with a positive deceleration and a non-negative frame time it never grows in magnitude.
   */
  function DecayedVelocity(v: real, pos: real, d: real, lo: real, hi: real, dt: real): (r: real)
    requires DecayDefined(v, pos, d, lo, hi)
    ensures v > 0.0 ==> r >= 0.0
    ensures v < 0.0 ==> r <= 0.0
    ensures v == 0.0 ==> r == 0.0
    ensures d > 0.0 && dt >= 0.0 ==> (v > 0.0 ==> r <= v) && (v < 0.0 ==> v <= r)
  {
    var b := BoundaryBraking(v, pos, d, lo, hi);
    if v > 0.0 then
      if d > 0.0 && dt >= 0.0 then
        assert b.decel >= 0.0 by {
          if RestPoint(pos, v, d) > hi { DecelerationSign(v, hi - pos); }
        }
        assert b.decel * dt >= 0.0 by { ProductNonNegative(b.decel, dt); }
        Max(0.0, b.vel - b.decel * dt)
      else Max(0.0, b.vel - b.decel * dt)
    else if v < 0.0 then
      if d > 0.0 && dt >= 0.0 then
        assert b.decel >= 0.0 by {
          if RestPoint(pos, v, d) < lo { DecelerationSign(v, pos - lo); }
        }
        assert b.decel * dt >= 0.0 by { ProductNonNegative(b.decel, dt); }
        Min(0.0, b.vel + b.decel * dt)
      else Min(0.0, b.vel + b.decel * dt)
    else v
  }

  lemma ProductNonNegative(a: real, b: real)
    requires a >= 0.0 && b >= 0.0
    ensures a * b >= 0.0
  {
  }

  /** The stopping deceleration v^2 / (2 dist) has the sign of the distance. */
  lemma DecelerationSign(v: real, dist: real)
    requires dist != 0.0
    ensures dist > 0.0 ==> v * v / (2.0 * dist) >= 0.0
    ensures dist > 0.0 && v != 0.0 ==> v * v / (2.0 * dist) > 0.0
    ensures dist < 0.0 && v != 0.0 ==> v * v / (2.0 * dist) < 0.0
  {
    if v != 0.0 {
      QuotientOfProductSign(v, v, 2.0 * dist);
    }
  }

  /** a * b / c for non-zero a and b of the same sign has the sign of c. */
  lemma QuotientOfProductSign(a: real, b: real, c: real)
    requires (a > 0.0 && b > 0.0) || (a < 0.0 && b < 0.0)
    requires c != 0.0
    ensures c > 0.0 ==> a * b / c > 0.0
    ensures c < 0.0 ==> a * b / c < 0.0
  {
    assert a * b > 0.0;
    var q := a * b / c;
    assert q * c == a * b;
  }

  /**
   * Moving towards the upper boundary from inside it with a positive deceleration: the camera
   * keeps its velocity and comes to rest no further than the boundary, and exactly on it when
   * the configured deceleration would have carried it past.
   */
  lemma {:induction false} RestsWithinUpperBoundary(v: real, pos: real, d: real, lo: real, hi: real)
    requires v > 0.0 && d > 0.0 && pos < hi
    ensures DecayDefined(v, pos, d, lo, hi)
    ensures BoundaryBraking(v, pos, d, lo, hi).vel == v
    ensures BoundaryBraking(v, pos, d, lo, hi).decel > 0.0
    ensures RestPoint(pos, v, BoundaryBraking(v, pos, d, lo, hi).decel) <= hi
    ensures RestPoint(pos, v, d) > hi ==> RestPoint(pos, v, BoundaryBraking(v, pos, d, lo, hi).decel) == hi
  {
    var b := BoundaryBraking(v, pos, d, lo, hi);
    DecelerationSign(v, d);
    if RestPoint(pos, v, d) > hi {
      StoppingDistance(v, hi - pos);
    } else {
      assert b.decel == d;
    }
  }

  /** The mirror image of RestsWithinUpperBoundary for motion towards the lower boundary. */
  lemma {:induction false} RestsWithinLowerBoundary(v: real, pos: real, d: real, lo: real, hi: real)
    requires v < 0.0 && d > 0.0 && lo < pos
    ensures DecayDefined(v, pos, d, lo, hi)
    ensures BoundaryBraking(v, pos, d, lo, hi).vel == v
    ensures BoundaryBraking(v, pos, d, lo, hi).decel > 0.0
    ensures RestPoint(pos, v, BoundaryBraking(v, pos, d, lo, hi).decel) >= lo
    ensures RestPoint(pos, v, d) < lo ==> RestPoint(pos, v, BoundaryBraking(v, pos, d, lo, hi).decel) == lo
  {
    var b := BoundaryBraking(v, pos, d, lo, hi);
    DecelerationSign(v, d);
    if RestPoint(pos, v, d) < lo {
      StoppingDistance(v, pos - lo);
    } else {
      assert b.decel == d;
    }
  }

  /** v^2 / (2 (v^2 / (2 dist))) == dist: the stopping deceleration stops after exactly dist. */
  lemma StoppingDistance(v: real, dist: real)
    requires v != 0.0 && dist > 0.0
    ensures v * v / (2.0 * dist) > 0.0
    ensures v * v / (2.0 * (v * v / (2.0 * dist))) == dist
  {
    DecelerationSign(v, dist);
    var q := v * v / (2.0 * dist);
    assert q * (2.0 * dist) == v * v;
    assert dist * (2.0 * q) == v * v;
  }

  /** Already past the upper boundary and still moving towards it: the axis stops dead. */
  lemma PastUpperBoundaryHalts(v: real, pos: real, d: real, lo: real, hi: real, dt: real)
    requires v > 0.0 && d > 0.0 && pos > hi
    ensures DecayDefined(v, pos, d, lo, hi)
    ensures BoundaryBraking(v, pos, d, lo, hi) == Braking(0.0, 0.0)
    ensures DecayedVelocity(v, pos, d, lo, hi, dt) == 0.0
  {
    DecelerationSign(v, d);
    DecelerationSign(v, hi - pos);
  }

  /** Already past the lower boundary and still moving towards it: the axis stops dead. */
  lemma PastLowerBoundaryHalts(v: real, pos: real, d: real, lo: real, hi: real, dt: real)
    requires v < 0.0 && d > 0.0 && pos < lo
    ensures DecayDefined(v, pos, d, lo, hi)
    ensures BoundaryBraking(v, pos, d, lo, hi) == Braking(0.0, 0.0)
    ensures DecayedVelocity(v, pos, d, lo, hi, dt) == 0.0
  {
    DecelerationSign(v, d);
    DecelerationSign(v, pos - lo);
  }

  /**
   * The boundary check of UpdateVelocityComponent, for a component moving in either direction:
   * the velocity and deceleration it leaves for the decay.
   */
  method CheckBoundary(vel: real, pos: real, decel: real, lo: real, hi: real)
    returns (v: real, d: real)
    requires DecayDefined(vel, pos, decel, lo, hi)
    ensures Braking(v, d) == BoundaryBraking(vel, pos, decel, lo, hi)
  {
    v, d := vel, decel;
    if v > 0.0 {
      var rest := pos + v * v / (2.0 * d);
      assert rest == RestPoint(pos, vel, decel);
      if rest > hi {
        d := v * v / (2.0 * (hi - pos));
        if d < 0.0 {
          v := 0.0;
          d := 0.0;
        }
      }
    } else if v < 0.0 {
      var rest := pos - v * v / (2.0 * d);
      assert rest == RestPoint(pos, vel, decel);
      if rest < lo {
        d := v * v / (2.0 * (pos - lo));
        if d < 0.0 {
          v := 0.0;
          d := 0.0;
        }
      }
    }
  }

  /**
   * UpdateVelocityComponent: updates one velocity component in place (the reference parameter
   * is the in-out pair vel / v): the boundary check, then the decay toward zero.
   */
  method UpdateVelocityComponent(vel: real, pos: real, decel: real, lo: real, hi: real, dt: real)
    returns (v: real)
    requires DecayDefined(vel, pos, decel, lo, hi)
    ensures v == DecayedVelocity(vel, pos, decel, lo, hi, dt)
  {
    var d;
    v, d := CheckBoundary(vel, pos, decel, lo, hi);
    if vel > 0.0 {
      v := Max(0.0, v - d * dt);
    } else if vel < 0.0 {
      v := Min(0.0, v + d * dt);
    }
  }

  // ---------------------------------------------------------------------------------------
  // Animated moves and the per-frame motion

  /** The camera's motion state: position, velocity and the remaining time of an animated move. */
  datatype Motion = Motion(pos: Vec3, velocity: Vec3, moveTime: real)

  /** The decelerations and boundaries the free (not animated) motion obeys. */
  datatype Limits = Limits(lo: Vec3, hi: Vec3, pan: real, zoom: real)

  predicate FreeMotionDefined(m: Motion, l: Limits)
  {
    DecayDefined(m.velocity.x, m.pos.x, l.pan, l.lo.x, l.hi.x)
    && DecayDefined(m.velocity.y, m.pos.y, l.pan, l.lo.y, l.hi.y)
    && DecayDefined(m.velocity.z, m.pos.z, l.zoom, l.lo.z, l.hi.z)
  }

  predicate VelocityUpdateDefined(m: Motion, l: Limits)
  {
    m.moveTime > 0.0 || FreeMotionDefined(m, l)
  }

  /**
   * The velocity that, decaying uniformly to zero, covers target - pos in the remaining time:
   * u = -2 (pos - target) / t.
   */
  function AnimatedVelocity(pos: Vec3, target: Vec3, moveTime: real): Vec3
    requires moveTime > 0.0
  {
    Vec3(-2.0 * (pos.x - target.x) / moveTime,
         -2.0 * (pos.y - target.y) / moveTime,
         -2.0 * (pos.z - target.z) / moveTime)
  }

  /** UpdateVelocity on values: the animated branch when time remains, free decay otherwise. */
  function VelocityUpdate(m: Motion, target: Vec3, l: Limits, dt: real): Motion
    requires VelocityUpdateDefined(m, l)
  {
    if m.moveTime > 0.0 then
      var t := Max(0.0, m.moveTime - dt);
      if t <= dt then Motion(target, Origin, 0.0)
      else Motion(m.pos, AnimatedVelocity(m.pos, target, m.moveTime), t)
    else
      Motion(m.pos,
             Vec3(DecayedVelocity(m.velocity.x, m.pos.x, l.pan, l.lo.x, l.hi.x, dt),
                  DecayedVelocity(m.velocity.y, m.pos.y, l.pan, l.lo.y, l.hi.y, dt),
                  DecayedVelocity(m.velocity.z, m.pos.z, l.zoom, l.lo.z, l.hi.z, dt)),
             m.moveTime)
  }

  /** One frame of motion: the velocity update, then the position advanced by velocity * dt. */
  function Step(m: Motion, target: Vec3, l: Limits, dt: real): Motion
    requires VelocityUpdateDefined(m, l)
  {
    var u := VelocityUpdate(m, target, l, dt);
    Motion(u.pos.Add(u.velocity.Scale(dt)), u.velocity, u.moveTime)
  }

  /**
   * The last frame of an animated move: once the remaining time is at most one frame, the
   * camera is placed exactly on the target, at rest, with no time left.
   */
  lemma AnimatedMoveSnaps(m: Motion, target: Vec3, l: Limits, dt: real)
    requires m.moveTime > 0.0 && Max(0.0, m.moveTime - dt) <= dt
    ensures Step(m, target, l, dt) == Motion(target, Origin, 0.0)
  {
    assert Origin.Scale(dt) == Origin;
    assert target.Add(Origin) == target;
  }

  /**
   * A frame in the middle of an animated move: the remaining time drops by dt and every
   * coordinate's offset from the target shrinks by the factor 1 - 2 dt / t.
   */
  lemma {:induction false} AnimatedMoveApproaches(m: Motion, target: Vec3, l: Limits, dt: real)
    requires m.moveTime > 0.0 && Max(0.0, m.moveTime - dt) > dt
    ensures Step(m, target, l, dt).moveTime == m.moveTime - dt
    ensures Step(m, target, l, dt).velocity == AnimatedVelocity(m.pos, target, m.moveTime)
    ensures Step(m, target, l, dt).pos.x - target.x == (m.pos.x - target.x) * (1.0 - 2.0 * dt / m.moveTime)
    ensures Step(m, target, l, dt).pos.y - target.y == (m.pos.y - target.y) * (1.0 - 2.0 * dt / m.moveTime)
    ensures Step(m, target, l, dt).pos.z - target.z == (m.pos.z - target.z) * (1.0 - 2.0 * dt / m.moveTime)
  {
    var t := m.moveTime;
    OffsetShrinks(m.pos.x, target.x, t, dt);
    OffsetShrinks(m.pos.y, target.y, t, dt);
    OffsetShrinks(m.pos.z, target.z, t, dt);
  }

  lemma OffsetShrinks(p: real, q: real, t: real, dt: real)
    requires t > 0.0
    ensures p + (-2.0 * (p - q) / t) * dt - q == (p - q) * (1.0 - 2.0 * dt / t)
  {
    assert (-2.0 * (p - q) / t) * dt == -(p - q) * (2.0 * dt / t);
  }

  /**
   * With no remaining move time the animated branch is never entered: the frame decays the
   * velocity freely and keeps the move time, so the camera does not jump to the move target.
   */
  lemma NoAnimationWithoutMoveTime(m: Motion, target: Vec3, l: Limits, dt: real)
    requires m.moveTime <= 0.0 && FreeMotionDefined(m, l)
    ensures VelocityUpdate(m, target, l, dt).pos == m.pos
    ensures VelocityUpdate(m, target, l, dt).moveTime == m.moveTime
    ensures m.velocity == Origin ==> Step(m, target, l, dt).pos == m.pos
  {
    if m.velocity == Origin {
      var u := VelocityUpdate(m, target, l, dt);
      assert u.velocity == Origin;
      assert Origin.Scale(dt) == Origin;
    }
  }

  /** The remaining move time never grows and never becomes negative during an animated move. */
  lemma MoveTimeCountsDown(m: Motion, target: Vec3, l: Limits, dt: real)
    requires m.moveTime > 0.0 && dt >= 0.0
    ensures 0.0 <= VelocityUpdate(m, target, l, dt).moveTime <= m.moveTime
  {
  }

  // ---------------------------------------------------------------------------------------
  // View geometry

  /** World units per pixel at height z: tan(fovy / 2) * z / viewport width. */
  function PixelWorldRatio(tanHalfFovy: real, z: real, viewportX: int): real
    requires viewportX > 0
  {
    tanHalfFovy * z / viewportX as real
  }

  /** The pan deceleration: the configured decay times the world size of a pixel. */
  function PanDeceleration(decay: real, tanHalfFovy: real, z: real, viewportX: int): real
    requires viewportX > 0
  {
    decay * PixelWorldRatio(tanHalfFovy, z, viewportX)
  }

  /** The zoom deceleration: a tenth of the configured decay, whatever the camera's state. */
  function ZoomDeceleration(decay: real): real
  {
    decay * 0.1
  }

  /** The pan deceleration scales linearly with the camera's height. */
  lemma PanDecelerationLinearInHeight(decay: real, tanHalfFovy: real, z: real, k: real, viewportX: int)
    requires viewportX > 0
    ensures PanDeceleration(decay, tanHalfFovy, k * z, viewportX) == k * PanDeceleration(decay, tanHalfFovy, z, viewportX)
    ensures PanDeceleration(decay, tanHalfFovy, 0.0, viewportX) == 0.0
  {
    var w := viewportX as real;
    assert tanHalfFovy * (k * z) / w == k * (tanHalfFovy * z / w);
    assert decay * (k * (tanHalfFovy * z / w)) == k * (decay * (tanHalfFovy * z / w));
  }

  /** The visible rectangle of the image plane z = 0, as a (min, max) pair of corners. */
  datatype Rect = Rect(min: Vec2, max: Vec2)

  /**
   * GetVisibleWorldBounds: the rectangle seen from pos is centred under the camera, is
   * 2 tan(fovy / 2) z high and has the viewport's aspect ratio.
   */
  function VisibleBounds(pos: Vec3, tanHalfFovy: real, aspect: real): (r: Rect)
    ensures r.min.x + r.max.x == 2.0 * pos.x && r.min.y + r.max.y == 2.0 * pos.y
    ensures r.max.y - r.min.y == 2.0 * tanHalfFovy * pos.z
    ensures r.max.x - r.min.x == (r.max.y - r.min.y) * aspect
  {
    var halfHeight := tanHalfFovy * pos.z;
    var halfWidth := halfHeight * aspect;
    Rect(Vec2(pos.x - halfWidth, pos.y - halfHeight), Vec2(pos.x + halfWidth, pos.y + halfHeight))
  }

  /** The smallest camera height a wheel zoom may reach: a whole tile fits, and never the near plane. */
  function MinZoomDistance(imageSize: real, tanHalfFovy: real, nearPlane: real): real
    requires tanHalfFovy > 0.0
  {
    Max(imageSize * 0.5 / tanHalfFovy, nearPlane)
  }

  function Abs(x: real): real { if x < 0.0 then -x else x }

  /**
   * ZoomScreenPoint's target: move along the ray through the screen point (from its near to its
   * far end) by the zoom amount measured in depth, but stop at the minimum zoom distance.
   */
  function ZoomTarget(pos: Vec3, near: Vec3, far: Vec3, amount: real, minZoom: real): (t: Vec3)
    requires far.z != near.z
    ensures t.z >= minZoom || pos.z + (far.z - near.z) * (amount / Abs(far.z - near.z)) >= minZoom
    ensures pos.z + (far.z - near.z) * (amount / Abs(far.z - near.z)) < minZoom ==> t.z == minZoom
    ensures pos.z + (far.z - near.z) * (amount / Abs(far.z - near.z)) >= minZoom ==>
      t.z == (if far.z > near.z then pos.z + amount else pos.z - amount)
  {
    var dir := far.Sub(near);
    var magnitude := amount / Abs(dir.z);
    var magnitude' := if pos.z + dir.z * magnitude < minZoom then -(pos.z - minZoom) / dir.z else magnitude;
    assert dir.z * (-(pos.z - minZoom) / dir.z) == -(pos.z - minZoom);
    assert dir.z * (amount / Abs(dir.z)) == if dir.z > 0.0 then amount else -amount;
    pos.Add(dir.Scale(magnitude'))
  }

  /** The zoom target is never below the minimum zoom distance. */
  lemma {:induction false} ZoomNeverBelowMinimum(pos: Vec3, near: Vec3, far: Vec3, amount: real, minZoom: real)
    requires far.z != near.z
    ensures ZoomTarget(pos, near, far, amount, minZoom).z >= minZoom
  {
    var t := ZoomTarget(pos, near, far, amount, minZoom);
    if pos.z + (far.z - near.z) * (amount / Abs(far.z - near.z)) >= minZoom {
      var dz := far.z - near.z;
      assert dz * (amount / Abs(dz)) == if dz > 0.0 then amount else -amount;
    }
  }

  /**
   * ZoomExtents' target: the centre of the rectangle, at the height where the rectangle's
   * dominant dimension (relative to the viewport's aspect ratio) exactly fills the view.
   */
  function ExtentsTarget(lo: Vec2, hi: Vec2, aspect: real, tanHalfFovy: real): (t: Vec3)
    requires hi.y != lo.y && aspect > 0.0 && tanHalfFovy > 0.0
    ensures t.x + t.x == lo.x + hi.x && t.y + t.y == lo.y + hi.y
  {
    var width := hi.x - lo.x;
    var height := hi.y - lo.y;
    var z := if width / height > aspect then width / aspect * 0.5 / tanHalfFovy else height * 0.5 / tanHalfFovy;
    Vec3((lo.x + hi.x) * 0.5, (lo.y + hi.y) * 0.5, z)
  }

  /**
   * For a proper rectangle, the view from the ZoomExtents target contains it: the visible
   * half-width and half-height are at least half the rectangle's width and height, with
   * equality on the dimension that drove the choice of height.
   */
  lemma {:induction false} ZoomExtentsFits(lo: Vec2, hi: Vec2, aspect: real, tanHalfFovy: real)
    requires lo.x < hi.x && lo.y < hi.y && aspect > 0.0 && tanHalfFovy > 0.0
    ensures var t := ExtentsTarget(lo, hi, aspect, tanHalfFovy);
      var view := VisibleBounds(t, tanHalfFovy, aspect);
      view.min.x <= lo.x && hi.x <= view.max.x && view.min.y <= lo.y && hi.y <= view.max.y
    ensures var t := ExtentsTarget(lo, hi, aspect, tanHalfFovy);
      var view := VisibleBounds(t, tanHalfFovy, aspect);
      if (hi.x - lo.x) / (hi.y - lo.y) > aspect then view.max.x - view.min.x == hi.x - lo.x
      else view.max.y - view.min.y == hi.y - lo.y
  {
    var t := ExtentsTarget(lo, hi, aspect, tanHalfFovy);
    var width := hi.x - lo.x;
    var height := hi.y - lo.y;
    var halfHeight := tanHalfFovy * t.z;
    var halfWidth := halfHeight * aspect;
    if width / height > aspect {
      assert t.z == width / aspect * 0.5 / tanHalfFovy;
      assert halfHeight == width / aspect * 0.5;
      assert halfWidth == width * 0.5;
      assert width > aspect * height by {
        assert width == (width / height) * height;
        MultiplyBothSides(width / height, aspect, height);
      }
      assert halfHeight >= height * 0.5 by {
        assert width / aspect > height by {
          DivideBothSides(width, aspect * height, aspect);
        }
      }
    } else {
      assert t.z == height * 0.5 / tanHalfFovy;
      assert halfHeight == height * 0.5;
      assert width <= aspect * height by {
        assert width == (width / height) * height;
        MultiplyBothSidesWeak(width / height, aspect, height);
      }
      assert halfWidth == height * 0.5 * aspect;
    }
  }

  lemma MultiplyBothSides(a: real, b: real, c: real)
    requires a > b && c > 0.0
    ensures a * c > b * c
  {
  }

  lemma MultiplyBothSidesWeak(a: real, b: real, c: real)
    requires a <= b && c > 0.0
    ensures a * c <= b * c
  {
  }

  lemma DivideBothSides(a: real, b: real, c: real)
    requires a > b && c > 0.0
    ensures a / c > b / c
  {
    assert a / c - b / c == (a - b) / c;
  }

  /** Frame counters are unsigned and masked to 29 bits each frame. */
  const FrameMask: int := 0x1FFF_FFFF

  /** The slew offset after one frame: three quarters of the way to its goal. */
  function Converge(slew: Vec2, goal: Vec2): (r: Vec2)
    ensures r.x - goal.x == (slew.x - goal.x) * 0.25 && r.y - goal.y == (slew.y - goal.y) * 0.25
  {
    Vec2(slew.x + (goal.x - slew.x) * 0.75, slew.y + (goal.y - slew.y) * 0.75)
  }

  // ---------------------------------------------------------------------------------------
  // The camera object

  class Camera {
    var viewportX: int
    var viewportY: int
    /** tan(fovy / 2), computed once by the constructor. */
    const tanHalfFovy: real
    var fovy: real
    var aspect: real
    var nearPlane: real
    var farPlane: real

    var home: Vec3
    var pos: Vec3
    var look: Vec3
    var up: Vec3

    var slew: Vec2
    var slewGoal: Vec2

    var velocity: Vec3
    var minBound: Vec3
    var maxBound: Vec3

    /** Time remaining of the animated move, and its destination. */
    var moveTime: real
    var moveTo: Vec3

    const minFramesForSavePosition: int
    /** Frames since the last swipe or drag. */
    var frameCount: int
    /** Saved positions, the top of the stack last. */
    var undoStack: seq<Vec3>

    ghost predicate Valid()
      reads this
    {
      viewportX >= 1 && viewportY >= 1 && aspect > 0.0 && tanHalfFovy > 0.0
      && 0 <= frameCount <= FrameMask && minFramesForSavePosition == 5
    }

    /** The motion part of the state. */
    function MotionState(): Motion
      reads this
    {
      Motion(pos, velocity, moveTime)
    }

    /** The boundaries and decelerations of the next frame, for the given decay preference. */
    function FrameLimits(decay: real): Limits
      reads this
      requires Valid()
    {
      Limits(minBound, maxBound, PanDeceleration(decay, tanHalfFovy, pos.z, viewportX), ZoomDeceleration(decay))
    }

    /** The camera as constructed: a 640x480 view from (0, 0, 20) looking at the origin. */
    constructor ()
      ensures Valid()
      ensures viewportX == 640 && viewportY == 480 && fovy == 90.0 && tanHalfFovy == 1.0
      ensures aspect == 640.0 / 480.0 && nearPlane == 0.1 && farPlane == 1000.0
      ensures home == Vec3(0.0, 0.0, 20.0) && pos == Vec3(0.0, 0.0, 20.0)
      ensures look == Origin && up == Vec3(0.0, 1.0, 0.0)
      ensures slew == Vec2(0.0, 0.0) && slewGoal == Vec2(0.0, 0.0) && velocity == Origin
      ensures minBound == Vec3(-1.0, -1.0, 0.1) && maxBound == Vec3(1.0, 1.0, 500.0)
      ensures moveTime == 0.0 && moveTo == Origin
      ensures frameCount == 0 && undoStack == []
    {
      viewportX, viewportY := 640, 480;
      fovy := 90.0;
      aspect := 640.0 / 480.0;
      nearPlane, farPlane := 0.1, 1000.0;
      home := Vec3(0.0, 0.0, 20.0);
      pos := Vec3(0.0, 0.0, 20.0);
      look := Origin;
      up := Vec3(0.0, 1.0, 0.0);
      slew, slewGoal := Vec2(0.0, 0.0), Vec2(0.0, 0.0);
      velocity := Origin;
      minBound := Vec3(-1.0, -1.0, 0.1);
      maxBound := Vec3(1.0, 1.0, 500.0);
      moveTime := 0.0;
      moveTo := Origin;
      minFramesForSavePosition := 5;
      frameCount := 0;
      undoStack := [];
      tanHalfFovy := 1.0;
    }

    /** Changes the position only: no history entry, velocity and move target untouched. */
    method SetPosition(p: Vec3)
      modifies this`pos
      ensures pos == p
    {
      pos := p;
    }

    method SetHomePosition(p: Vec3)
      modifies this`home
      ensures home == p
    {
      home := p;
    }

    /** SetBoundaryX/Y/Z: overwrite one axis's bounds, with no check that min <= max. */
    method SetBoundaryX(lo: real, hi: real)
      modifies this`minBound, this`maxBound
      ensures minBound == old(minBound).(x := lo) && maxBound == old(maxBound).(x := hi)
    {
      minBound := minBound.(x := lo);
      maxBound := maxBound.(x := hi);
    }

    method SetBoundaryY(lo: real, hi: real)
      modifies this`minBound, this`maxBound
      ensures minBound == old(minBound).(y := lo) && maxBound == old(maxBound).(y := hi)
    {
      minBound := minBound.(y := lo);
      maxBound := maxBound.(y := hi);
    }

    method SetBoundaryZ(lo: real, hi: real)
      modifies this`minBound, this`maxBound
      ensures minBound == old(minBound).(z := lo) && maxBound == old(maxBound).(z := hi)
    {
      minBound := minBound.(z := lo);
      maxBound := maxBound.(z := hi);
    }

    /** Pushes the current position on the undo stack. */
    method SavePosition()
      modifies this`undoStack
      ensures undoStack == old(undoStack) + [pos]
    {
      undoStack := undoStack + [pos];
    }

    /**
     * Starts an animated move to target over time, and saves the current position. A time of
     * zero or less starts nothing: the next frames decay the velocity as usual.
     */
    method MoveTo(target: Vec3, time: real)
      modifies this`moveTime, this`moveTo, this`undoStack
      ensures moveTime == time && moveTo == target
      ensures undoStack == old(undoStack) + [pos]
    {
      moveTime := time;
      moveTo := target;
      SavePosition();
    }

    method MoveToHome()
      modifies this`moveTime, this`moveTo, this`undoStack
      ensures moveTime == 1.0 && moveTo == home
      ensures undoStack == old(undoStack) + [pos]
    {
      MoveTo(home, 1.0);
    }

    /**
     * Goes back to the last saved position over one second. The move pushes a new entry, which
     * is popped again, so the stack loses exactly its old top. An empty stack changes nothing.
     */
    method UndoLastMove()
      modifies this`moveTime, this`moveTo, this`undoStack
      ensures old(undoStack) == [] ==> moveTime == old(moveTime) && moveTo == old(moveTo) && undoStack == []
      ensures old(undoStack) != [] ==>
        moveTo == old(undoStack)[|old(undoStack)| - 1] && moveTime == 1.0
        && undoStack == old(undoStack)[..|old(undoStack)| - 1]
    {
      if |undoStack| > 0 {
        var top := undoStack[|undoStack| - 1];
        undoStack := undoStack[..|undoStack| - 1];
        MoveTo(top, 1.0);
        undoStack := undoStack[..|undoStack| - 1];
      }
    }

    /** The pan impulse of a swipe: 15 times the world distance the screen delta spans. */
    function SwipeImpulse(dx: real, dy: real): Vec3
      reads this
      requires Valid()
    {
      var visibleHeight := tanHalfFovy * pos.z * 2.0;
      var visibleWidth := visibleHeight * aspect;
      Vec3(visibleWidth * (dx / viewportX as real) * 15.0, visibleHeight * (dy / viewportY as real) * 15.0, 0.0)
    }

    /**
     * The history rule of swipes and drags: a non-zero delta saves the position when more than
     * five frames passed since the last one, and restarts the frame count.
     */
    method Debounce(dx: real, dy: real)
      requires Valid()
      modifies this`undoStack, this`frameCount
      ensures Valid()
      ensures (dx != 0.0 || dy != 0.0) && old(frameCount) > 5 ==> undoStack == old(undoStack) + [pos]
      ensures !((dx != 0.0 || dy != 0.0) && old(frameCount) > 5) ==> undoStack == old(undoStack)
      ensures frameCount == if dx != 0.0 || dy != 0.0 then 0 else old(frameCount)
    {
      if dx != 0.0 || dy != 0.0 {
        if frameCount > minFramesForSavePosition {
          SavePosition();
        }
        frameCount := 0;
      }
    }

    /** Swipe: adds the swipe impulse to the velocity, then applies the history rule. */
    method Swipe(dx: real, dy: real)
      requires Valid()
      modifies this`velocity, this`undoStack, this`frameCount
      ensures Valid()
      ensures velocity == old(velocity).Add(old(SwipeImpulse(dx, dy)))
      ensures (dx != 0.0 || dy != 0.0) && old(frameCount) > 5 ==> undoStack == old(undoStack) + [pos]
      ensures !((dx != 0.0 || dy != 0.0) && old(frameCount) > 5) ==> undoStack == old(undoStack)
      ensures frameCount == if dx != 0.0 || dy != 0.0 then 0 else old(frameCount)
    {
      var impulse := SwipeImpulse(dx, dy);
      velocity := velocity.Add(impulse);
      Debounce(dx, dy);
    }

    /**
     * MoveScreenDelta: stops all motion and moves the camera (and the point it looks at) by the
     * world distance the screen delta spans; the history rule then saves the moved position.
     */
    method MoveScreenDelta(dx: real, dy: real)
      requires Valid()
      modifies this`velocity, this`pos, this`look, this`undoStack, this`frameCount
      ensures Valid()
      ensures velocity == Origin
      ensures pos == old(pos).(x := old(pos.x) + old(SwipeImpulse(dx, dy)).x / 15.0,
                               y := old(pos.y) + old(SwipeImpulse(dx, dy)).y / 15.0)
      ensures look == old(look).(x := pos.x, y := pos.y)
      ensures (dx != 0.0 || dy != 0.0) && old(frameCount) > 5 ==> undoStack == old(undoStack) + [pos]
      ensures !((dx != 0.0 || dy != 0.0) && old(frameCount) > 5) ==> undoStack == old(undoStack)
      ensures frameCount == if dx != 0.0 || dy != 0.0 then 0 else old(frameCount)
    {
      var visibleHeight := tanHalfFovy * pos.z * 2.0;
      var visibleWidth := visibleHeight * aspect;
      velocity := Origin;
      pos := pos.(x := pos.x + visibleWidth * (dx / viewportX as real),
                  y := pos.y + visibleHeight * (dy / viewportY as real));
      look := look.(x := pos.x, y := pos.y);
      Debounce(dx, dy);
    }

    /**
     * ZoomScreenPoint, given the ray through the screen point: an animated move towards the
     * zoom target, never below the minimum zoom distance.
     */
    method ZoomScreenPoint(near: Vec3, far: Vec3, amount: real, time: real, imageSize: real)
      requires Valid() && far.z != near.z
      modifies this`moveTime, this`moveTo, this`undoStack
      ensures moveTo == ZoomTarget(pos, near, far, amount, MinZoomDistance(imageSize, tanHalfFovy, nearPlane))
      ensures moveTo.z >= MinZoomDistance(imageSize, tanHalfFovy, nearPlane)
      ensures moveTime == time && undoStack == old(undoStack) + [pos]
    {
      var minZoom := MinZoomDistance(imageSize, tanHalfFovy, nearPlane);
      var target := ZoomTarget(pos, near, far, amount, minZoom);
      ZoomNeverBelowMinimum(pos, near, far, amount, minZoom);
      MoveTo(target, time);
    }

    /** ZoomExtents: a one-second move to the height that fits the rectangle. */
    method ZoomExtents(lo: Vec2, hi: Vec2)
      requires Valid() && hi.y != lo.y
      modifies this`moveTime, this`moveTo, this`undoStack
      ensures moveTo == ExtentsTarget(lo, hi, aspect, tanHalfFovy)
      ensures moveTime == 1.0 && undoStack == old(undoStack) + [pos]
    {
      var x := (lo.x + hi.x) * 0.5;
      var y := (lo.y + hi.y) * 0.5;
      var width := hi.x - lo.x;
      var height := hi.y - lo.y;
      var z;
      if width / height > aspect {
        z := width / aspect * 0.5 / tanHalfFovy;
      } else {
        z := height * 0.5 / tanHalfFovy;
      }
      MoveTo(Vec3(x, y, z), 1.0);
    }

    /**
     * ZoomScreenExtents, given the rays through the two screen corners: their image-plane
     * points are the world rectangle to fit.
     */
    method ZoomScreenExtents(nearMin: Vec3, farMin: Vec3, nearMax: Vec3, farMax: Vec3)
      requires Valid() && nearMin.z != farMin.z && nearMax.z != farMax.z
      requires ImagePlanePoint(nearMax, farMax).y != ImagePlanePoint(nearMin, farMin).y
      modifies this`moveTime, this`moveTo, this`undoStack
      ensures moveTo == ExtentsTarget(ImagePlanePoint(nearMin, farMin), ImagePlanePoint(nearMax, farMax), aspect, tanHalfFovy)
      ensures moveTime == 1.0 && undoStack == old(undoStack) + [pos]
    {
      var lo := ImagePlanePoint(nearMin, farMin);
      var hi := ImagePlanePoint(nearMax, farMax);
      ZoomExtents(lo, hi);
    }

    /** ResizeViewport: sizes below 1 become 1; the aspect ratio follows the new size. */
    method ResizeViewport(sizeX: int, sizeY: int)
      requires Valid()
      modifies this`viewportX, this`viewportY, this`aspect
      ensures Valid()
      ensures viewportX == (if sizeX > 0 then sizeX else 1) && viewportY == (if sizeY > 0 then sizeY else 1)
      ensures aspect == viewportX as real / viewportY as real
    {
      viewportX := if sizeX > 0 then sizeX else 1;
      viewportY := if sizeY > 0 then sizeY else 1;
      aspect := viewportX as real / viewportY as real;
    }

    /** UpdateVelocity: the animated branch, or a free decay of each component. */
    method UpdateVelocity(dt: real, decay: real)
      requires Valid() && VelocityUpdateDefined(MotionState(), FrameLimits(decay))
      modifies this`pos, this`velocity, this`moveTime
      ensures MotionState() == VelocityUpdate(old(MotionState()), moveTo, old(FrameLimits(decay)), dt)
    {
      if moveTime > 0.0 {
        velocity := AnimatedVelocity(pos, moveTo, moveTime);
        moveTime := Max(0.0, moveTime - dt);
        if moveTime <= dt {
          moveTime := 0.0;
          pos := moveTo;
          velocity := Origin;
        }
      } else {
        var pan := PanDeceleration(decay, tanHalfFovy, pos.z, viewportX);
        var zoom := ZoomDeceleration(decay);
        var vx := UpdateVelocityComponent(velocity.x, pos.x, pan, minBound.x, maxBound.x, dt);
        var vy := UpdateVelocityComponent(velocity.y, pos.y, pan, minBound.y, maxBound.y, dt);
        var vz := UpdateVelocityComponent(velocity.z, pos.z, zoom, minBound.z, maxBound.z, dt);
        velocity := Vec3(vx, vy, vz);
      }
    }

    /** The frame counter advances, kept to its low 29 bits so that it never overflows. */
    method CountFrame()
      requires 0 <= frameCount <= FrameMask
      modifies this`frameCount
      ensures frameCount == (old(frameCount) + 1) % (FrameMask + 1) && 0 <= frameCount <= FrameMask
    {
      frameCount := (frameCount + 1) % (FrameMask + 1);
    }

    /** The position moves by velocity * dt. */
    method Advance(dt: real)
      modifies this`pos
      ensures pos == old(pos).Add(velocity.Scale(dt))
    {
      pos := pos.Add(velocity.Scale(dt));
    }

    /**
     * The look point follows the position in the plane; with slew enabled it runs ahead by the
     * slew offset, which converges towards the velocity scaled by the slew preference.
     */
    method FollowPosition(slewEnabled: bool, slewScalar: real)
      modifies this`slew, this`slewGoal, this`look
      ensures slewEnabled ==>
        slewGoal == Vec2(velocity.x * slewScalar, velocity.y * slewScalar)
        && slew == Converge(old(slew), slewGoal)
        && look == old(look).(x := pos.x + slew.x, y := pos.y + slew.y)
      ensures !slewEnabled ==>
        slew == old(slew) && slewGoal == old(slewGoal) && look == old(look).(x := pos.x, y := pos.y)
    {
      if slewEnabled {
        slewGoal := Vec2(velocity.x * slewScalar, velocity.y * slewScalar);
        slew := Converge(slew, slewGoal);
        look := look.(x := pos.x + slew.x, y := pos.y + slew.y);
      } else {
        look := look.(x := pos.x, y := pos.y);
      }
    }

    /**
     * Tick: one frame. The motion follows Step; the look point follows the position in the
     * plane, ahead of it by the slew offset when slew is enabled; the frame counter advances
     * modulo 2^29.
     */
    method Tick(dt: real, cfg: Preferences.Config)
      requires Valid() && VelocityUpdateDefined(MotionState(), FrameLimits(cfg.cameraVelocityDecay))
      modifies this`pos, this`velocity, this`moveTime, this`slew, this`slewGoal, this`look, this`frameCount
      ensures Valid()
      ensures MotionState() == Step(old(MotionState()), moveTo, old(FrameLimits(cfg.cameraVelocityDecay)), dt)
      ensures cfg.cameraSlewEnabled ==>
        slewGoal == Vec2(velocity.x * cfg.cameraSlewScalar, velocity.y * cfg.cameraSlewScalar)
        && slew == Converge(old(slew), slewGoal)
        && look == old(look).(x := pos.x + slew.x, y := pos.y + slew.y)
      ensures !cfg.cameraSlewEnabled ==>
        slew == old(slew) && slewGoal == old(slewGoal) && look == old(look).(x := pos.x, y := pos.y)
      ensures frameCount == (old(frameCount) + 1) % (FrameMask + 1)
    {
      Move(dt, cfg.cameraVelocityDecay);
      CountAndFollow(cfg);
    }

    /** The rest of Tick once the camera has moved: the frame count, then the look point. */
    method CountAndFollow(cfg: Preferences.Config)
      requires 0 <= frameCount <= FrameMask
      modifies this`slew, this`slewGoal, this`look, this`frameCount
      ensures cfg.cameraSlewEnabled ==>
        slewGoal == Vec2(velocity.x * cfg.cameraSlewScalar, velocity.y * cfg.cameraSlewScalar)
        && slew == Converge(old(slew), slewGoal)
        && look == old(look).(x := pos.x + slew.x, y := pos.y + slew.y)
      ensures !cfg.cameraSlewEnabled ==>
        slew == old(slew) && slewGoal == old(slewGoal) && look == old(look).(x := pos.x, y := pos.y)
      ensures frameCount == (old(frameCount) + 1) % (FrameMask + 1) && 0 <= frameCount <= FrameMask
    {
      CountFrame();
      FollowPosition(cfg.cameraSlewEnabled, cfg.cameraSlewScalar);
    }

    /** The motion part of Tick: the velocity update, then the position advance. */
    method Move(dt: real, decay: real)
      requires Valid() && VelocityUpdateDefined(MotionState(), FrameLimits(decay))
      modifies this`pos, this`velocity, this`moveTime
      ensures MotionState() == Step(old(MotionState()), moveTo, old(FrameLimits(decay)), dt)
    {
      UpdateVelocity(dt, decay);
      Advance(dt);
    }
  }

  /**
   * A client's view of the undo stack: after two moves, one undo heads back to where the second
   * move started and leaves only the first move's entry.
   */
  method UndoAfterTwoMoves(c: Camera, a: Vec3, b: Vec3)
    requires c.undoStack == []
    modifies c
    ensures c.moveTo == c.pos && c.moveTime == 1.0 && c.undoStack == [c.pos]
  {
    c.MoveTo(a, 1.0);
    c.MoveTo(b, 1.0);
    c.UndoLastMove();
  }
}
