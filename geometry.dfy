/**
 * Boxes, sizes and rotations, and the box helpers of utils.py:
 * `is_thin_object`, `is_point_bbox`, `calculate_overlap` and `is_collision_3d`.
 * Lengths are mathematical reals; the tolerances of the source are explicit constants.
 */
module Geometry {
  import opened Wrappers

  /** The four cardinal rotations about the vertical axis. */
  datatype Rotation = R0 | R90 | R180 | R270

  /** The angle in degrees, as the source stores it in `z_angle`. */
  function Degrees(r: Rotation): (d: int)
    ensures d % 90 == 0 && 0 <= d < 360
  {
    match r
    case R0 => 0
    case R90 => 90
    case R180 => 180
    case R270 => 270
  }

  /** `z_angle // 90`, the number of quarter turns. */
  function Quarter(r: Rotation): (q: nat)
    ensures q < 4 && q * 90 == Degrees(r)
  {
    Degrees(r) / 90
  }

  /** The rotation with the given number of quarter turns (modulo four). */
  function FromQuarter(q: nat): (r: Rotation)
    ensures Quarter(r) == q % 4
  {
    match q % 4
    case 0 => R0
    case 1 => R90
    case 2 => R180
    case _ => R270
  }

  /** A quarter or three-quarter turn exchanges the length and width axes. */
  predicate IsSideways(r: Rotation) {
    r == R90 || r == R270
  }

  datatype Size = Size(length: real, width: real, height: real)
  datatype Position = Position(x: real, y: real, z: real)

  /** `room_dimensions`: extent along x, y and z. */
  datatype Room = Room(length: real, width: real, height: real)

  /** A box of admissible centre positions, `(x_min, x_max, y_min, y_max, z_min, z_max)`. */
  datatype Box = Box(xMin: real, xMax: real, yMin: real, yMax: real, zMin: real, zMax: real)

  /** Tolerance used by `calculate_overlap` and by the collision test. */
  const Eps: real := 0.001

  function Abs(a: real): real { if a < 0.0 then -a else a }
  function Max(a: real, b: real): real { if a < b then b else a }
  function Min(a: real, b: real): real { if a < b then a else b }

  /** The size in world axes: length and width exchange at 90 and 270 degrees. */
  function Oriented(s: Size, r: Rotation): (o: Size)
    ensures o.height == s.height
    ensures IsSideways(r) ==> o.length == s.width && o.width == s.length
    ensures !IsSideways(r) ==> o == s
  {
    if IsSideways(r) then Size(s.width, s.length, s.height) else s
  }

  function Min3(a: real, b: real, c: real): real { Min(a, Min(b, c)) }
  function Max3(a: real, b: real, c: real): real { Max(a, Max(b, c)) }

  /** `is_thin_object`: the smallest dimension is positive and at most 1/40 of the largest. */
  predicate IsThin(s: Size) {
    var lo := Min3(s.length, s.width, s.height);
    lo > 0.0 && Max3(s.length, s.width, s.height) / lo >= 40.0
  }

  /** `np.isclose(a, b)` with its default tolerances (relative 1e-5 of `b`, absolute 1e-8). */
  predicate IsClose(a: real, b: real) {
    Abs(a - b) <= 0.00000001 + 0.00001 * Abs(b)
  }

  /** `is_point_bbox`: every axis of the box is (numerically) a single coordinate. */
  predicate IsPointBox(b: Box) {
    IsClose(b.xMin, b.xMax) && IsClose(b.yMin, b.yMax) && IsClose(b.zMin, b.zMax)
  }

  /** The componentwise meet: max of the minima, min of the maxima. */
  function Meet(a: Box, b: Box): Box {
    Box(Max(a.xMin, b.xMin), Min(a.xMax, b.xMax),
        Max(a.yMin, b.yMin), Min(a.yMax, b.yMax),
        Max(a.zMin, b.zMin), Min(a.zMax, b.zMax))
  }

  /** Every axis of the box is non-empty up to the tolerance. */
  predicate NonEmptyUpToEps(b: Box) {
    b.xMin <= b.xMax + Eps && b.yMin <= b.yMax + Eps && b.zMin <= b.zMax + Eps
  }

  /** `calculate_overlap`: the intersection of two optional boxes, `None` when it is empty. */
  function CalculateOverlap(b1: Option<Box>, b2: Option<Box>): (r: Option<Box>)
    ensures (b1.None? || b2.None?) ==> r.None?
    ensures b1.Some? && b2.Some? ==>
      (r.Some? <==>
        (Max(b1.value.xMin, b2.value.xMin) <= Min(b1.value.xMax, b2.value.xMax) + Eps &&
         Max(b1.value.yMin, b2.value.yMin) <= Min(b1.value.yMax, b2.value.yMax) + Eps &&
         Max(b1.value.zMin, b2.value.zMin) <= Min(b1.value.zMax, b2.value.zMax) + Eps))
    ensures r.Some? ==>
      r.value.xMin >= b1.value.xMin && r.value.xMin >= b2.value.xMin &&
      r.value.xMax <= b1.value.xMax && r.value.xMax <= b2.value.xMax &&
      r.value.yMin >= b1.value.yMin && r.value.yMin >= b2.value.yMin &&
      r.value.yMax <= b1.value.yMax && r.value.yMax <= b2.value.yMax &&
      r.value.zMin >= b1.value.zMin && r.value.zMin >= b2.value.zMin &&
      r.value.zMax <= b1.value.zMax && r.value.zMax <= b2.value.zMax
    ensures r.Some? ==> (r.value.xMin == b1.value.xMin || r.value.xMin == b2.value.xMin) &&
                        (r.value.xMax == b1.value.xMax || r.value.xMax == b2.value.xMax)
  {
    if b1.None? || b2.None? then None
    else
      var m := Meet(b1.value, b2.value);
      if NonEmptyUpToEps(m) then Some(m) else None
  }

  lemma CalculateOverlapCommutes(b1: Option<Box>, b2: Option<Box>)
    ensures CalculateOverlap(b1, b2) == CalculateOverlap(b2, b1)
  {
  }

  /**
   * The running intersection `overlap = calculate_overlap(overlap, pos)` over a list of boxes,
   * starting from `start`.
   */
  function OverlapAll(start: Option<Box>, boxes: seq<Box>): Option<Box>
    decreases |boxes|
  {
    if |boxes| == 0 then start
    else OverlapAll(CalculateOverlap(start, Some(boxes[0])), boxes[1..])
  }

  /** Once the running intersection is empty it stays empty. */
  lemma {:induction false} OverlapAllNoneAbsorbs(boxes: seq<Box>)
    ensures OverlapAll(None, boxes) == None
    decreases |boxes|
  {
    if |boxes| > 0 {
      OverlapAllNoneAbsorbs(boxes[1..]);
    }
  }

  /** A non-empty running intersection lies inside the start box and every listed box. */
  lemma {:induction false} OverlapAllInside(start: Option<Box>, boxes: seq<Box>)
    requires OverlapAll(start, boxes).Some?
    ensures start.Some? && Inside(OverlapAll(start, boxes).value, start.value)
    ensures forall i :: 0 <= i < |boxes| ==> Inside(OverlapAll(start, boxes).value, boxes[i])
    decreases |boxes|
  {
    if |boxes| > 0 {
      var next := CalculateOverlap(start, Some(boxes[0]));
      if next.None? {
        OverlapAllNoneAbsorbs(boxes[1..]);
        assert false;
      }
      OverlapAllInside(next, boxes[1..]);
      forall i | 0 <= i < |boxes|
        ensures Inside(OverlapAll(start, boxes).value, boxes[i])
      {
        if i > 0 {
          assert boxes[i] == boxes[1..][i - 1];
        }
      }
    }
  }

  /** `inner` narrows `outer` on every bound. */
  predicate Inside(inner: Box, outer: Box) {
    inner.xMin >= outer.xMin && inner.xMax <= outer.xMax &&
    inner.yMin >= outer.yMin && inner.yMax <= outer.yMax &&
    inner.zMin >= outer.zMin && inner.zMax <= outer.zMax
  }

  /** A box-shaped object placed in the room: centre, own-frame size and rotation. */
  datatype Body = Body(pos: Position, size: Size, rot: Rotation)

  /** `check_overlap`: strict overlap of two intervals, touching within `Eps` excluded. */
  predicate IntervalsCollide(min1: real, max1: real, min2: real, max2: real) {
    min1 < max2 && max1 > min2 && Abs(min1 - max2) > Eps && Abs(max1 - min2) > Eps
  }

  function XMin(b: Body): real { b.pos.x - Oriented(b.size, b.rot).length / 2.0 }
  function XMax(b: Body): real { b.pos.x + Oriented(b.size, b.rot).length / 2.0 }
  function YMin(b: Body): real { b.pos.y - Oriented(b.size, b.rot).width / 2.0 }
  function YMax(b: Body): real { b.pos.y + Oriented(b.size, b.rot).width / 2.0 }
  function ZMin(b: Body): real { b.pos.z - b.size.height / 2.0 }
  function ZMax(b: Body): real { b.pos.z + b.size.height / 2.0 }

  /** The three axis tests of `is_collision_3d` on two bodies, thinness aside. */
  predicate BoundsCollide(a: Body, b: Body) {
    IntervalsCollide(XMin(a), XMax(a), XMin(b), XMax(b)) &&
    IntervalsCollide(YMin(a), YMax(a), YMin(b), YMax(b)) &&
    IntervalsCollide(ZMin(a), ZMax(a), ZMin(b), ZMax(b))
  }

  /** `is_collision_3d(obj1, obj2)`: thin objects never collide; otherwise the rotated boxes overlap. */
  predicate IsCollision3D(a: Body, b: Body) {
    !IsThin(a.size) && !IsThin(b.size) && BoundsCollide(a, b)
  }

  /** `is_collision_3d(obj, box, bbox_instead=True)`: the box is an unrotated body around its centre. */
  predicate IsCollisionWithBox(a: Body, box: Box) {
    var b := Body(Position((box.xMax + box.xMin) / 2.0, (box.yMax + box.yMin) / 2.0, (box.zMax + box.zMin) / 2.0),
                  Size(box.xMax - box.xMin, box.yMax - box.yMin, box.zMax - box.zMin), R0);
    !IsThin(a.size) && BoundsCollide(a, b)
  }

  /** The collision test does not depend on the order of its two objects. */
  lemma CollisionSymmetric(a: Body, b: Body)
    ensures IsCollision3D(a, b) == IsCollision3D(b, a)
  {
  }

  /** A thin object collides with nothing, in either role. */
  lemma ThinNeverCollides(a: Body, b: Body)
    requires IsThin(a.size) || IsThin(b.size)
    ensures !IsCollision3D(a, b)
  {
  }

  /** Faces that touch within the tolerance along one axis never count as a collision. */
  lemma TouchingIsNotCollision(a: Body, b: Body)
    requires Abs(XMax(a) - XMin(b)) <= Eps || Abs(YMax(a) - YMin(b)) <= Eps || Abs(ZMax(a) - ZMin(b)) <= Eps
    ensures !IsCollision3D(a, b) && !IsCollision3D(b, a)
  {
  }
}
