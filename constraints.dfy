/**
 * The constraint interval engine of constraint_functions.py: one function per preposition,
 * each mapping the dependent object A, the positioned reference B, the adjacency flag,
 * A's floor flag and the room dimensions to the box of admissible centre positions of A.
 *
 * Each function is split as the source computes it: the raw bounds (`...Raw`), then the
 * swap that orders every pair (`Normalise...`), then the clamp into the room (`Clamp...`).
 */
module Constraints {
  import opened Geometry

  /** The object being placed: its own-frame size and its rotation. */
  datatype Dependent = Dependent(size: Size, rot: Rotation)

  /** The already positioned reference object (or room layout element). */
  datatype Reference = Reference(id: string, pos: Position, size: Size, rot: Rotation)

  const SouthWall: string := "south_wall"
  const NorthWall: string := "north_wall"
  const EastWall: string := "east_wall"
  const WestWall: string := "west_wall"
  const Ceiling: string := "ceiling"
  const MiddleOfRoom: string := "middle of the room"

  predicate IsWall(id: string) {
    id == SouthWall || id == NorthWall || id == EastWall || id == WestWall
  }

  /**
   * The lateral margin `((is_adjacent * w) - (not is_adjacent * w)) / 2` exactly as Python
   * parses it: `not` binds looser than `*`, so the second term is `not (is_adjacent * w)`,
   * which is 1 when `is_adjacent * w` is zero and 0 otherwise.
   */
  function Margin(isAdjacent: bool, w: real): (m: real)
    ensures isAdjacent && w != 0.0 ==> m == w / 2.0
    ensures !isAdjacent ==> m == -0.5
    ensures isAdjacent && w == 0.0 ==> m == -0.5
  {
    var product := if isAdjacent then w else 0.0;
    var negated := if product == 0.0 then 1.0 else 0.0;
    (product - negated) / 2.0
  }

  /** The swap `if x_min > x_max: x_min, x_max = x_max, x_min` on the x and y axes. */
  function NormaliseXY(b: Box): (r: Box)
    ensures r.xMin == Min(b.xMin, b.xMax) && r.xMax == Max(b.xMin, b.xMax)
    ensures r.yMin == Min(b.yMin, b.yMax) && r.yMax == Max(b.yMin, b.yMax)
    ensures r.zMin == b.zMin && r.zMax == b.zMax
  {
    var (x0, x1) := if b.xMin > b.xMax then (b.xMax, b.xMin) else (b.xMin, b.xMax);
    var (y0, y1) := if b.yMin > b.yMax then (b.yMax, b.yMin) else (b.yMin, b.yMax);
    Box(x0, x1, y0, y1, b.zMin, b.zMax)
  }

  /** The same swap on all three axes (used by "on" and "under"). */
  function NormaliseXYZ(b: Box): (r: Box)
    ensures r.xMin == Min(b.xMin, b.xMax) && r.xMax == Max(b.xMin, b.xMax)
    ensures r.yMin == Min(b.yMin, b.yMax) && r.yMax == Max(b.yMin, b.yMax)
    ensures r.zMin == Min(b.zMin, b.zMax) && r.zMax == Max(b.zMin, b.zMax)
  {
    var n := NormaliseXY(b);
    var (z0, z1) := if b.zMin > b.zMax then (b.zMax, b.zMin) else (b.zMin, b.zMax);
    Box(n.xMin, n.xMax, n.yMin, n.yMax, z0, z1)
  }

  /**
   * The room clamp on x and y: `x_max = max(l/2, min(x_max, L - l/2))`, `x_min = max(x_min, l/2)`,
   * where `l` and `w` are A's world-axis length and width.
   */
  function ClampXY(b: Box, a: Size, room: Room): (r: Box)
    ensures r.xMin == Max(b.xMin, a.length / 2.0) && r.yMin == Max(b.yMin, a.width / 2.0)
    ensures a.length / 2.0 <= r.xMax <= Max(a.length / 2.0, room.length - a.length / 2.0)
    ensures a.width / 2.0 <= r.yMax <= Max(a.width / 2.0, room.width - a.width / 2.0)
    ensures a.length / 2.0 <= b.xMax <= room.length - a.length / 2.0 ==> r.xMax == b.xMax
    ensures a.width / 2.0 <= b.yMax <= room.width - a.width / 2.0 ==> r.yMax == b.yMax
    ensures r.zMin == b.zMin && r.zMax == b.zMax
  {
    Box(Max(b.xMin, 0.0 + a.length / 2.0), Max(a.length / 2.0, Min(b.xMax, room.length - a.length / 2.0)),
        Max(b.yMin, 0.0 + a.width / 2.0), Max(a.width / 2.0, Min(b.yMax, room.width - a.width / 2.0)),
        b.zMin, b.zMax)
  }

  /** The same clamp applied to z as well (used by "on" and "under"). */
  function ClampXYZ(b: Box, a: Size, room: Room): (r: Box)
    ensures r.xMin >= a.length / 2.0 && r.yMin >= a.width / 2.0 && r.zMin >= a.height / 2.0
    ensures a.height / 2.0 <= r.zMax <= Max(a.height / 2.0, room.height - a.height / 2.0)
    ensures r.zMin == Max(b.zMin, a.height / 2.0)
    ensures a.height / 2.0 <= b.zMax <= room.height - a.height / 2.0 ==> r.zMax == b.zMax
    ensures var c := ClampXY(b, a, room); r.xMin == c.xMin && r.xMax == c.xMax && r.yMin == c.yMin && r.yMax == c.yMax
  {
    var c := ClampXY(b, a, room);
    Box(c.xMin, c.xMax, c.yMin, c.yMax,
        Max(b.zMin, 0.0 + a.height / 2.0), Max(a.height / 2.0, Min(b.zMax, room.height - a.height / 2.0)))
  }

  /** Clamps guarantee these lower bounds and upper-bound range; a min may still exceed its max. */
  predicate ClampedXY(r: Box, a: Size, room: Room) {
    r.xMin >= a.length / 2.0 && r.yMin >= a.width / 2.0 &&
    a.length / 2.0 <= r.xMax <= Max(a.length / 2.0, room.length - a.length / 2.0) &&
    a.width / 2.0 <= r.yMax <= Max(a.width / 2.0, room.width - a.width / 2.0)
  }

  /** The signs of the `sign_map` row for a wall (used by "on" a wall). */
  datatype Signs = Signs(bxMin: real, bxMax: real, byMin: real, byMax: real,
                         axMin: real, axMax: real, ayMin: real, ayMax: real)

  function WallSigns(wall: string): Signs
    requires IsWall(wall)
  {
    if wall == WestWall then Signs(1.0, 1.0, -1.0, 1.0, 1.0, 1.0, 1.0, -1.0)
    else if wall == EastWall then Signs(-1.0, -1.0, -1.0, 1.0, -1.0, -1.0, 1.0, -1.0)
    else if wall == NorthWall then Signs(-1.0, 1.0, -1.0, -1.0, 1.0, -1.0, -1.0, -1.0)
    else Signs(-1.0, 1.0, 1.0, 1.0, 1.0, -1.0, 1.0, 1.0)
  }

  // ---------------------------------------------------------------- on

  /**
   * Raw bounds of `get_on_constraint`. Both sizes are in world axes. The source's
   * `elif == "middle of the room"` branch is unreachable (the first test already admits that id),
   * so it has no counterpart here.
   */
  function OnRaw(a: Dependent, b: Reference, isOnFloor: bool): Box {
    var sA := Oriented(a.size, a.rot);
    var sB := Oriented(b.size, b.rot);
    var p := b.pos;
    if !IsWall(b.id) && b.id != Ceiling then
      var z := if !isOnFloor then p.z + sB.height / 2.0 + sA.height / 2.0 else sA.height / 2.0;
      Box(p.x - sB.length / 2.0 + sA.length / 2.0, p.x + sB.length / 2.0 - sA.length / 2.0,
          p.y - sB.width / 2.0 + sA.width / 2.0, p.y + sB.width / 2.0 - sA.width / 2.0, z, z)
    else if b.id == Ceiling then
      var z := p.z - sB.height / 2.0 - sA.height / 2.0;
      Box(p.x - sB.length / 2.0 + sA.length / 2.0, p.x + sB.length / 2.0 - sA.length / 2.0,
          p.y - sB.width / 2.0 + sA.width / 2.0, p.y + sB.width / 2.0 - sA.width / 2.0, z, z)
    else
      var s := WallSigns(b.id);
      Box(p.x + s.bxMin * sB.length / 2.0 + s.axMin * sA.length / 2.0,
          p.x + s.bxMax * sB.length / 2.0 + s.axMax * sA.length / 2.0,
          p.y + s.byMin * sB.width / 2.0 + s.ayMin * sA.width / 2.0,
          p.y + s.byMax * sB.width / 2.0 + s.ayMax * sA.width / 2.0,
          if !isOnFloor then p.z - sB.height / 2.0 + sA.height / 2.0 else sA.height / 2.0,
          if !isOnFloor then p.z + sB.height / 2.0 - sA.height / 2.0 else sA.height / 2.0)
  }

  /** `get_on_constraint` (also used for "in the middle of"). */
  function OnConstraint(a: Dependent, b: Reference, isAdjacent: bool, isOnFloor: bool, room: Room): (r: Box)
    ensures ClampedXY(r, Oriented(a.size, a.rot), room)
    ensures r.zMin >= a.size.height / 2.0
    ensures isOnFloor && b.id != Ceiling ==> r.zMin == a.size.height / 2.0 == r.zMax
  {
    var sA := Oriented(a.size, a.rot);
    ClampXYZ(NormaliseXYZ(OnRaw(a, b, isOnFloor)), sA, room)
  }

  // ---------------------------------------------------------------- under

  function UnderRaw(a: Dependent, b: Reference, isOnFloor: bool): Box {
    var sA := Oriented(a.size, a.rot);
    var sB := Oriented(b.size, b.rot);
    var p := b.pos;
    Box(p.x - sB.length / 2.0 - sA.length / 2.0, p.x + sB.length / 2.0 + sA.length / 2.0,
        p.y - sB.width / 2.0 - sA.width / 2.0, p.y + sB.width / 2.0 + sA.width / 2.0,
        sA.height / 2.0,
        if !isOnFloor then p.z - sB.height / 2.0 - sA.height / 2.0 else sA.height / 2.0)
  }

  /** `get_under_contraint`. */
  function UnderConstraint(a: Dependent, b: Reference, isAdjacent: bool, isOnFloor: bool, room: Room): (r: Box)
    ensures ClampedXY(r, Oriented(a.size, a.rot), room)
    ensures r.zMin >= a.size.height / 2.0
    ensures isOnFloor ==> r.zMin == a.size.height / 2.0 == r.zMax
  {
    ClampXYZ(NormaliseXYZ(UnderRaw(a, b, isOnFloor)), Oriented(a.size, a.rot), room)
  }

  // ---------------------------------------------------------------- same-level z

  /** z bounds shared by left of, right of, in front and behind: from B's base to the ceiling. */
  function LevelZMin(a: Size, b: Reference, isOnFloor: bool): real {
    if !isOnFloor then b.pos.z - b.size.height / 2.0 + a.height / 2.0 else a.height / 2.0
  }

  function LevelZMax(a: Size, room: Room, isOnFloor: bool): real {
    if !isOnFloor then room.height - a.height / 2.0 else a.height / 2.0
  }

  // ---------------------------------------------------------------- left of

  /** Raw bounds of `get_left_of_constraint`; B's size is used unrotated, its rotation picks the branch. */
  function LeftOfRaw(a: Dependent, b: Reference, adj: bool, isOnFloor: bool, room: Room): Box {
    var sA := Oriented(a.size, a.rot);
    var sB := b.size;
    var p := b.pos;
    var z0 := LevelZMin(sA, b, isOnFloor);
    var z1 := LevelZMax(sA, room, isOnFloor);
    match b.rot
    case R0 =>
      Box(if adj then p.x - sB.length / 2.0 - sA.length / 2.0 else sA.length / 2.0,
          p.x - sB.length / 2.0 - sA.length / 2.0,
          p.y - sB.width / 2.0 + Margin(adj, sA.width), p.y + sB.width / 2.0 - Margin(adj, sA.width), z0, z1)
    case R90 =>
      Box(p.x - sB.width / 2.0 + Margin(adj, sA.length), p.x + sB.width / 2.0 - Margin(adj, sA.length),
          p.y + sB.length / 2.0 + sA.width / 2.0,
          if adj then p.y + sB.length / 2.0 + sA.width / 2.0 else room.width - sA.width / 2.0, z0, z1)
    case R180 =>
      Box(p.x + sB.length / 2.0 + sA.length / 2.0,
          if adj then p.x + sB.length / 2.0 + sA.length / 2.0 else room.length - sA.length / 2.0,
          p.y - sB.width / 2.0 + Margin(adj, sA.width), p.y + sB.width / 2.0 - Margin(adj, sA.width), z0, z1)
    case R270 =>
      Box(p.x - sB.width / 2.0 + Margin(adj, sA.length), p.x + sB.width / 2.0 - Margin(adj, sA.length),
          if adj then p.y - sB.length / 2.0 - sA.width / 2.0 else sA.width / 2.0,
          p.y - sB.length / 2.0 - sA.width / 2.0, z0, z1)
  }

  /** `get_left_of_constraint`. */
  function LeftOfConstraint(a: Dependent, b: Reference, isAdjacent: bool, isOnFloor: bool, room: Room): (r: Box)
    ensures ClampedXY(r, Oriented(a.size, a.rot), room)
    ensures isOnFloor ==> r.zMin == a.size.height / 2.0 == r.zMax
    ensures !isOnFloor ==> r.zMax == room.height - a.size.height / 2.0
  {
    var sA := Oriented(a.size, a.rot);
    ClampXY(NormaliseXY(LeftOfRaw(a, b, isAdjacent, isOnFloor, room)), sA, room)
  }

  // ---------------------------------------------------------------- right of

  function RightOfRaw(a: Dependent, b: Reference, adj: bool, isOnFloor: bool, room: Room): Box {
    var sA := Oriented(a.size, a.rot);
    var sB := b.size;
    var p := b.pos;
    var z0 := LevelZMin(sA, b, isOnFloor);
    var z1 := LevelZMax(sA, room, isOnFloor);
    match b.rot
    case R0 =>
      Box(p.x + sB.length / 2.0 + sA.length / 2.0,
          if adj then p.x + sB.length / 2.0 + sA.length / 2.0 else room.length - sA.length / 2.0,
          p.y - sB.width / 2.0 + Margin(adj, sA.width), p.y + sB.width / 2.0 - Margin(adj, sA.width), z0, z1)
    case R90 =>
      Box(p.x - sB.width / 2.0 + Margin(adj, sA.length), p.x + sB.width / 2.0 - Margin(adj, sA.length),
          p.y - sB.length / 2.0 - sA.width / 2.0,
          if adj then p.y - sB.length / 2.0 - sA.width / 2.0 else sA.width / 2.0, z0, z1)
    case R180 =>
      Box(if adj then p.x - sB.length / 2.0 - sA.length / 2.0 else sA.length / 2.0,
          p.x - sB.length / 2.0 - sA.length / 2.0,
          p.y + sB.width / 2.0 - Margin(adj, sA.width), p.y - sB.width / 2.0 + Margin(adj, sA.width), z0, z1)
    case R270 =>
      Box(p.x + sB.width / 2.0 - Margin(adj, sA.length), p.x - sB.width / 2.0 + Margin(adj, sA.length),
          p.y + sB.length / 2.0 + sA.width / 2.0,
          if adj then p.y + sB.length / 2.0 + sA.width / 2.0 else room.width - sA.width / 2.0, z0, z1)
  }

  /** `get_right_of_constraint`. */
  function RightOfConstraint(a: Dependent, b: Reference, isAdjacent: bool, isOnFloor: bool, room: Room): (r: Box)
    ensures ClampedXY(r, Oriented(a.size, a.rot), room)
    ensures isOnFloor ==> r.zMin == a.size.height / 2.0 == r.zMax
    ensures !isOnFloor ==> r.zMax == room.height - a.size.height / 2.0
  {
    var sA := Oriented(a.size, a.rot);
    ClampXY(NormaliseXY(RightOfRaw(a, b, isAdjacent, isOnFloor, room)), sA, room)
  }

  // ---------------------------------------------------------------- in front

  function InFrontRaw(a: Dependent, b: Reference, adj: bool, isOnFloor: bool, room: Room): Box {
    var sA := Oriented(a.size, a.rot);
    var sB := b.size;
    var p := b.pos;
    var z0 := LevelZMin(sA, b, isOnFloor);
    var z1 := LevelZMax(sA, room, isOnFloor);
    match b.rot
    case R0 =>
      Box(p.x - sB.length / 2.0 + Margin(adj, sA.length), p.x + sB.length / 2.0 - Margin(adj, sA.length),
          p.y + sB.width / 2.0 + sA.width / 2.0,
          if adj then p.y + sB.width / 2.0 + sA.width / 2.0 else room.width - sA.width / 2.0, z0, z1)
    case R90 =>
      Box(p.x + sB.width / 2.0 + sA.length / 2.0,
          if adj then p.x + sB.width / 2.0 + sA.length / 2.0 else room.length - sA.length / 2.0,
          p.y - sB.length / 2.0 + Margin(adj, sA.width), p.y + sB.length / 2.0 - Margin(adj, sA.width), z0, z1)
    case R180 =>
      Box(p.x - sB.length / 2.0 + Margin(adj, sA.length), p.x + sB.length / 2.0 - Margin(adj, sA.length),
          if adj then p.y - sB.width / 2.0 - sA.width / 2.0 else sA.width / 2.0,
          p.y - sB.width / 2.0 - sA.width / 2.0, z0, z1)
    case R270 =>
      Box(if adj then p.x - sB.width / 2.0 - sA.length / 2.0 else sA.length / 2.0,
          p.x - sB.width / 2.0 - sA.length / 2.0,
          p.y - sB.length / 2.0 + Margin(adj, sA.width), p.y + sB.length / 2.0 - Margin(adj, sA.width), z0, z1)
  }

  /** `get_in_front_constraint`. */
  function InFrontConstraint(a: Dependent, b: Reference, isAdjacent: bool, isOnFloor: bool, room: Room): (r: Box)
    ensures ClampedXY(r, Oriented(a.size, a.rot), room)
    ensures isOnFloor ==> r.zMin == a.size.height / 2.0 == r.zMax
    ensures !isOnFloor ==> r.zMax == room.height - a.size.height / 2.0
  {
    var sA := Oriented(a.size, a.rot);
    ClampXY(NormaliseXY(InFrontRaw(a, b, isAdjacent, isOnFloor, room)), sA, room)
  }

  // ---------------------------------------------------------------- behind

  function BehindRaw(a: Dependent, b: Reference, adj: bool, isOnFloor: bool, room: Room): Box {
    var sA := Oriented(a.size, a.rot);
    var sB := b.size;
    var p := b.pos;
    var z0 := LevelZMin(sA, b, isOnFloor);
    var z1 := LevelZMax(sA, room, isOnFloor);
    match b.rot
    case R0 =>
      Box(p.x - sB.length / 2.0 + Margin(adj, sA.length), p.x + sB.length / 2.0 - Margin(adj, sA.length),
          if adj then p.y - sB.width / 2.0 - sA.width / 2.0 else sA.width / 2.0,
          p.y - sB.width / 2.0 - sA.width / 2.0, z0, z1)
    case R90 =>
      Box(if adj then p.x - sB.width / 2.0 - sA.length / 2.0 else sA.length / 2.0,
          p.x - sB.width / 2.0 - sA.length / 2.0,
          p.y - sB.length / 2.0 + Margin(adj, sA.width), p.y + sB.length / 2.0 - Margin(adj, sA.width), z0, z1)
    case R180 =>
      Box(p.x - sB.length / 2.0 + Margin(adj, sA.length), p.x + sB.length / 2.0 - Margin(adj, sA.length),
          p.y + sB.width / 2.0 + sA.width / 2.0,
          if adj then p.y + sB.width / 2.0 + sA.width / 2.0 else room.width - sA.width / 2.0, z0, z1)
    case R270 =>
      Box(p.x + sB.width / 2.0 + sA.length / 2.0,
          if adj then p.x + sB.width / 2.0 + sA.length / 2.0 else room.length - sA.length / 2.0,
          p.y + sB.length / 2.0 - Margin(adj, sA.width), p.y - sB.length / 2.0 + Margin(adj, sA.width), z0, z1)
  }

  /** `get_behind_constraint`. */
  function BehindConstraint(a: Dependent, b: Reference, isAdjacent: bool, isOnFloor: bool, room: Room): (r: Box)
    ensures ClampedXY(r, Oriented(a.size, a.rot), room)
    ensures isOnFloor ==> r.zMin == a.size.height / 2.0 == r.zMax
    ensures !isOnFloor ==> r.zMax == room.height - a.size.height / 2.0
  {
    var sA := Oriented(a.size, a.rot);
    ClampXY(NormaliseXY(BehindRaw(a, b, isAdjacent, isOnFloor, room)), sA, room)
  }

  // ---------------------------------------------------------------- above

  function AboveRaw(a: Dependent, b: Reference, isOnFloor: bool, room: Room): Box {
    var sA := Oriented(a.size, a.rot);
    var sB := b.size;
    var p := b.pos;
    var z0 := if !isOnFloor then p.z + sB.height / 2.0 + sA.height / 2.0 else sA.height / 2.0;
    var z1 := if !isOnFloor then room.height else sA.height / 2.0;
    if b.rot == R0 || b.rot == R180 then
      Box(p.x - sB.length / 2.0 - sA.length / 2.0, p.x + sB.length / 2.0 + sA.length / 2.0,
          p.y - sB.width / 2.0 - sA.width / 2.0, p.y + sB.width / 2.0 + sA.width / 2.0, z0, z1)
    else
      Box(p.x - sB.width / 2.0 - sA.length / 2.0, p.x + sB.width / 2.0 + sA.length / 2.0,
          p.y - sB.length / 2.0 - sA.width / 2.0, p.y + sB.length / 2.0 + sA.width / 2.0, z0, z1)
  }

  /**
   * `get_above_constraint`: after the x/y clamp only `z_min` is clamped
   * (`z_min = max(h/2, min(z_min, H - h/2))`, then `z_min = max(z_min, h/2)`); `z_max` stays raw.
   */
  function AboveConstraint(a: Dependent, b: Reference, isAdjacent: bool, isOnFloor: bool, room: Room): (r: Box)
    ensures ClampedXY(r, Oriented(a.size, a.rot), room)
    ensures a.size.height / 2.0 <= r.zMin <= Max(a.size.height / 2.0, room.height - a.size.height / 2.0)
    ensures r.zMax == if isOnFloor then a.size.height / 2.0 else room.height
  {
    var sA := Oriented(a.size, a.rot);
    var c := ClampXY(NormaliseXY(AboveRaw(a, b, isOnFloor, room)), sA, room);
    var z0 := Max(sA.height / 2.0, Min(c.zMin, room.height - sA.height / 2.0));
    var z0' := Max(z0, 0.0 + sA.height / 2.0);
    Box(c.xMin, c.xMax, c.yMin, c.yMax, z0', c.zMax)
  }

  // ---------------------------------------------------------------- in the corner

  /** `get_in_corner_constraint`: no swap, no clamp, and the z pair is `(z_min, z_min)`. */
  function InCornerConstraint(a: Dependent, b: Reference, isAdjacent: bool, isOnFloor: bool, room: Room): (r: Box)
    ensures r.zMin == r.zMax
    ensures isOnFloor ==> r.zMin == a.size.height / 2.0
    ensures b.rot == R0 || b.rot == R180 ==> r.yMin == r.yMax
    ensures b.rot == R90 || b.rot == R270 ==> r.xMin == r.xMax
  {
    var sA := Oriented(a.size, a.rot);
    var sB := b.size;
    var p := b.pos;
    var z := if !isOnFloor then p.z - sB.height / 2.0 + sA.height / 2.0 else sA.height / 2.0;
    match b.rot
    case R0 =>
      Box(p.x - sB.length / 2.0 + sA.length / 2.0, p.x + sB.length / 2.0 - sA.length / 2.0,
          p.y + sB.width / 2.0 + sA.width / 2.0, p.y + sB.width / 2.0 + sA.width / 2.0, z, z)
    case R90 =>
      Box(p.x + sB.width / 2.0 + sA.length / 2.0, p.x + sB.width / 2.0 + sA.length / 2.0,
          p.y - sB.length / 2.0 + sA.width / 2.0, p.y + sB.length / 2.0 - sA.width / 2.0, z, z)
    case R180 =>
      Box(p.x - sB.length / 2.0 + sA.length / 2.0, p.x + sB.length / 2.0 - sA.length / 2.0,
          p.y - sB.width / 2.0 - sA.width / 2.0, p.y - sB.width / 2.0 - sA.width / 2.0, z, z)
    case R270 =>
      Box(p.x - sB.width / 2.0 - sA.length / 2.0, p.x - sB.width / 2.0 - sA.length / 2.0,
          p.y - sB.length / 2.0 + sA.width / 2.0, p.y + sB.length / 2.0 - sA.width / 2.0, z, z)
  }

  // ---------------------------------------------------------------- properties

  /**
   * Adjacent "left of" a reference at rotation 0: A's x is pinned flush against B's left face,
   * and y spans B's width minus A's half width on each side (before the room clamp).
   */
  lemma LeftOfAdjacentAtR0(a: Dependent, b: Reference, isOnFloor: bool, room: Room)
    requires b.rot == R0
    requires Oriented(a.size, a.rot).width != 0.0
    ensures var sA := Oriented(a.size, a.rot);
            var raw := LeftOfRaw(a, b, true, isOnFloor, room);
            raw.xMin == raw.xMax == b.pos.x - b.size.length / 2.0 - sA.length / 2.0 &&
            raw.yMin == b.pos.y - b.size.width / 2.0 + sA.width / 2.0 &&
            raw.yMax == b.pos.y + b.size.width / 2.0 - sA.width / 2.0
  {
  }

  /** At reference rotation 0, adjacent left-of and right-of boxes mirror about B's x, with equal y ranges. */
  lemma LeftRightMirrorAtR0(a: Dependent, b: Reference, isOnFloor: bool, room: Room)
    requires b.rot == R0
    ensures var l := LeftOfRaw(a, b, true, isOnFloor, room);
            var r := RightOfRaw(a, b, true, isOnFloor, room);
            l.xMin + r.xMax == 2.0 * b.pos.x && l.xMax + r.xMin == 2.0 * b.pos.x &&
            l.yMin == r.yMin && l.yMax == r.yMax && l.zMin == r.zMin && l.zMax == r.zMax
  {
  }

  /**
   * Not adjacent, rotation 0: the far bound of "left of" relaxes to the room's left edge
   * (`x_min = l/2`), and the lateral term is -1/2, widening y by 0.5 on each side.
   */
  lemma LeftOfRelaxedAtR0(a: Dependent, b: Reference, isOnFloor: bool, room: Room)
    requires b.rot == R0
    ensures var sA := Oriented(a.size, a.rot);
            var raw := LeftOfRaw(a, b, false, isOnFloor, room);
            raw.xMin == sA.length / 2.0 && raw.xMax == b.pos.x - b.size.length / 2.0 - sA.length / 2.0 &&
            raw.yMin == b.pos.y - b.size.width / 2.0 - 0.5 && raw.yMax == b.pos.y + b.size.width / 2.0 + 0.5
  {
  }

  /** Not adjacent, rotation 0: "in front" relaxes its far bound to the room's far wall, `W - w/2`. */
  lemma InFrontRelaxedAtR0(a: Dependent, b: Reference, isOnFloor: bool, room: Room)
    requires b.rot == R0
    ensures var sA := Oriented(a.size, a.rot);
            var raw := InFrontRaw(a, b, false, isOnFloor, room);
            raw.yMin == b.pos.y + b.size.width / 2.0 + sA.width / 2.0 && raw.yMax == room.width - sA.width / 2.0 &&
            raw.xMin == b.pos.x - b.size.length / 2.0 - 0.5 && raw.xMax == b.pos.x + b.size.length / 2.0 + 0.5
  {
  }

  /** A's length and width exchange when A is rotated by 90 or 270 degrees; B's size is not rotated by "left of". */
  lemma LeftOfUsesRotatedA(a: Dependent, b: Reference, adj: bool, isOnFloor: bool, room: Room)
    requires IsSideways(a.rot) && b.rot == R0
    ensures LeftOfRaw(a, b, adj, isOnFloor, room).xMax == b.pos.x - b.size.length / 2.0 - a.size.width / 2.0
  {
  }

  /** "on" and "under" do rotate B's size: at 90 degrees its width spans x. */
  lemma OnUsesRotatedB(a: Dependent, b: Reference, isOnFloor: bool)
    requires IsSideways(b.rot) && !IsWall(b.id) && b.id != Ceiling
    ensures var sA := Oriented(a.size, a.rot);
            OnRaw(a, b, isOnFloor).xMin == b.pos.x - b.size.width / 2.0 + sA.length / 2.0 &&
            UnderRaw(a, b, isOnFloor).xMin == b.pos.x - b.size.width / 2.0 - sA.length / 2.0
  {
  }

  /** The worked example: a floor chair adjacent "left of" a desk at (2, 2) in a 4 x 4 x 2.5 room. */
  lemma ChairLeftOfDesk()
    ensures LeftOfConstraint(Dependent(Size(0.5, 0.5, 0.9), R0),
                             Reference("desk_1", Position(2.0, 2.0, 0.375), Size(1.2, 0.6, 0.75), R0),
                             true, true, Room(4.0, 4.0, 2.5))
            == Box(1.15, 1.15, 1.95, 2.05, 0.45, 0.45)
  {
  }
}
