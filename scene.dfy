/**
 * The scene graph of utils.py: objects with their qualitative placement, the six room layout
 * elements (`get_room_priors`) and rotation inference (`get_rotation`).
 */
module Scene {
  import opened Wrappers
  import opened Geometry
  import opened Constraints

  /** The prepositions of the scene graph. */
  datatype Prep = On | Under | LeftOf | RightOf | InFront | Behind | Above | InCorner | InTheMiddleOf

  /** An entry of `room_layout_elements`: a layout element and a preposition (always adjacent). */
  datatype LayoutEdge = LayoutEdge(element: string, prep: Prep)

  /** An entry of `objects_in_room`: a reference object, a preposition and `is_adjacent`. */
  datatype ObjectEdge = ObjectEdge(target: string, prep: Prep, adjacent: bool)

  datatype Placement = Placement(layout: seq<LayoutEdge>, objects: seq<ObjectEdge>)

  /** `cluster.constraint_area`: the footprint of the children on each side. */
  datatype ClusterArea = ClusterArea(xNeg: real, xPos: real, yNeg: real, yPos: real)

  /**
   * One scene graph entry. Room layout elements have an empty placement, no facing and an
   * explicit rotation; `rotation`, `position` and `cluster` are the keys set by the rotation,
   * clustering and placing passes.
   */
  datatype SceneObject = SceneObject(
    id: string, size: Size, onFloor: bool, facing: Option<string>,
    rotation: Option<Rotation>, placement: Placement,
    position: Option<Position>, cluster: Option<ClusterArea>)

  /** Errors that the source raises as exceptions. */
  datatype SceneError =
    | MissingObject(id: string)      // an id that no scene graph entry has
    | RecursionLimit                 // `get_rotation` recursing through a cycle of first parents
    | MissingRotation(id: string)    // a reference whose `rotation` key was never set
    | NotAWall(id: string)           // a corner parent that is not one of the four walls
    | NoParents(id: string)          // `parents_room_layout[0]` on an object without parents
    | MissingDepth(id: string)       // an object that `get_depth` never reached
    | NoDepths                       // `max()` of an empty set of depths
    | MissingCluster(id: string)     // placing an object whose `cluster` key was never set

  /** `ROOM_LAYOUT_ELEMENTS`. */
  const LayoutIds: seq<string> := [SouthWall, NorthWall, WestWall, EastWall, Ceiling, MiddleOfRoom]

  predicate IsLayoutId(id: string) {
    id in LayoutIds
  }

  /** The rotation an object takes when it faces (or is) a layout element (`layout_rot`). */
  function LayoutRot(id: string): Rotation
    requires IsLayoutId(id)
  {
    if id == WestWall then R270
    else if id == EastWall then R90
    else if id == SouthWall then R180
    else R0
  }

  /** `get_room_priors`: the four walls, the floor ("middle of the room") and the ceiling. */
  function GetRoomPriors(room: Room): (priors: seq<SceneObject>)
    ensures |priors| == 6
    ensures forall i :: 0 <= i < 6 ==>
              IsLayoutId(priors[i].id) && priors[i].position.Some? &&
              priors[i].rotation.Some? && priors[i].placement == Placement([], [])
    ensures forall i, j :: 0 <= i < j < 6 ==> priors[i].id != priors[j].id
  {
    var xMid := room.length / 2.0;
    var yMid := room.width / 2.0;
    var zMid := room.height / 2.0;
    [ Prior(SouthWall, Position(xMid, 0.0, zMid), Size(room.length, 0.0, room.height), R0),
      Prior(NorthWall, Position(xMid, room.width, zMid), Size(room.length, 0.0, room.height), R180),
      Prior(EastWall, Position(room.length, yMid, zMid), Size(room.width, 0.0, room.height), R270),
      Prior(WestWall, Position(0.0, yMid, zMid), Size(room.width, 0.0, room.height), R90),
      Prior(MiddleOfRoom, Position(xMid, yMid, 0.0), Size(room.length, room.width, 0.0), R0),
      Prior(Ceiling, Position(xMid, yMid, room.height), Size(room.length, room.width, 0.0), R0) ]
  }

  function Prior(id: string, pos: Position, size: Size, rot: Rotation): SceneObject {
    SceneObject(id, size, false, None, Some(rot), Placement([], []), Some(pos), None)
  }

  /** The placed body of a positioned entry with a rotation. */
  function BodyOf(o: SceneObject): Body
    requires o.position.Some? && o.rotation.Some?
  {
    Body(o.position.value, o.size, o.rotation.value)
  }

  /** Each layout element occupies exactly the face of the room it names. */
  lemma RoomPriorsAreRoomFaces(room: Room)
    ensures var p := GetRoomPriors(room);
            var s, n, e, w, m, c := BodyOf(p[0]), BodyOf(p[1]), BodyOf(p[2]), BodyOf(p[3]), BodyOf(p[4]), BodyOf(p[5]);
            XMin(s) == 0.0 && XMax(s) == room.length && YMin(s) == 0.0 == YMax(s) &&
            XMin(n) == 0.0 && XMax(n) == room.length && YMin(n) == room.width == YMax(n) &&
            XMin(e) == room.length == XMax(e) && YMin(e) == 0.0 && YMax(e) == room.width &&
            XMin(w) == 0.0 == XMax(w) && YMin(w) == 0.0 && YMax(w) == room.width &&
            ZMin(s) == 0.0 && ZMax(s) == room.height && ZMin(e) == 0.0 && ZMax(e) == room.height &&
            XMin(m) == 0.0 && XMax(m) == room.length && YMin(m) == 0.0 && YMax(m) == room.width &&
            ZMin(m) == 0.0 == ZMax(m) && ZMin(c) == room.height == ZMax(c)
  {
    SouthNorthFaces(room);
    EastWestFaces(room);
    FloorCeilingFaces(room);
  }

  lemma SouthNorthFaces(room: Room)
    ensures var p := GetRoomPriors(room);
            var s, n := BodyOf(p[0]), BodyOf(p[1]);
            XMin(s) == 0.0 && XMax(s) == room.length && YMin(s) == 0.0 == YMax(s) &&
            XMin(n) == 0.0 && XMax(n) == room.length && YMin(n) == room.width == YMax(n) &&
            ZMin(s) == 0.0 && ZMax(s) == room.height
  {
  }

  lemma EastWestFaces(room: Room)
    ensures var p := GetRoomPriors(room);
            var e, w := BodyOf(p[2]), BodyOf(p[3]);
            XMin(e) == room.length == XMax(e) && YMin(e) == 0.0 && YMax(e) == room.width &&
            XMin(w) == 0.0 == XMax(w) && YMin(w) == 0.0 && YMax(w) == room.width &&
            ZMin(e) == 0.0 && ZMax(e) == room.height
  {
  }

  lemma FloorCeilingFaces(room: Room)
    ensures var p := GetRoomPriors(room);
            var m, c := BodyOf(p[4]), BodyOf(p[5]);
            XMin(m) == 0.0 && XMax(m) == room.length && YMin(m) == 0.0 && YMax(m) == room.width &&
            ZMin(m) == 0.0 == ZMax(m) && ZMin(c) == room.height == ZMax(c)
  {
  }

  /** Facing a wall turns an object the opposite way from the wall's own stored rotation. */
  lemma FacingAWallIsOpposite(room: Room, i: nat)
    requires i < 4
    ensures var p := GetRoomPriors(room)[i];
            Quarter(LayoutRot(p.id)) == (Quarter(p.rotation.value) + 2) % 4
  {
  }

  // ---------------------------------------------------------------- lookup

  /** `get_object_from_scene_graph` and `[e for e in scene_graph if ...][0]`: the first entry with the id. */
  function Find(id: string, sg: seq<SceneObject>): (r: Option<SceneObject>)
    ensures r.Some? ==> r.value in sg && r.value.id == id
    ensures r.None? <==> forall o :: o in sg ==> o.id != id
  {
    if |sg| == 0 then None
    else if sg[0].id == id then Some(sg[0])
    else Find(id, sg[1..])
  }

  /** The index of the first entry with the id. */
  function IndexOf(id: string, sg: seq<SceneObject>): (r: Option<nat>)
    ensures r.Some? ==> r.value < |sg| && sg[r.value].id == id && forall k :: 0 <= k < r.value ==> sg[k].id != id
    ensures r.None? <==> forall k :: 0 <= k < |sg| ==> sg[k].id != id
  {
    if |sg| == 0 then None
    else if sg[0].id == id then Some(0)
    else match IndexOf(id, sg[1..])
      case None => None
      case Some(k) => Some(k + 1)
  }

  /** The ids of the entries, in order (`[x["new_object_id"] for x in scene_graph]`). */
  function Ids(sg: seq<SceneObject>): (r: seq<string>)
    ensures |r| == |sg| && forall k :: 0 <= k < |sg| ==> r[k] == sg[k].id
  {
    if |sg| == 0 then [] else [sg[0].id] + Ids(sg[1..])
  }

  predicate DistinctIds(sg: seq<SceneObject>) {
    forall i, j :: 0 <= i < j < |sg| ==> sg[i].id != sg[j].id
  }

  /** The first object reference of a placement list whose target is not in the scene graph. */
  function FirstMissing(refs: seq<ObjectEdge>, sg: seq<SceneObject>): (r: Option<string>)
    ensures r.None? <==> forall k :: 0 <= k < |refs| ==> Find(refs[k].target, sg).Some?
    ensures r.Some? ==> Find(r.value, sg).None? && exists k :: 0 <= k < |refs| && refs[k].target == r.value
  {
    if |refs| == 0 then None
    else if Find(refs[0].target, sg).None? then Some(refs[0].target)
    else
      var rest := FirstMissing(refs[1..], sg);
      assert forall k :: 1 <= k < |refs| ==> refs[k] == refs[1..][k - 1];
      rest
  }

  // ---------------------------------------------------------------- rotation

  /** The rotation an object determines on its own: explicit, by facing, or by its own layout id. */
  function OwnRotation(o: SceneObject): Option<Rotation> {
    if o.rotation.Some? then o.rotation
    else if o.facing.Some? && IsLayoutId(o.facing.value) then Some(LayoutRot(o.facing.value))
    else if IsLayoutId(o.id) then Some(LayoutRot(o.id))
    else None
  }

  /**
   * `get_rotation`. Every parent is looked up before the first one is followed, so any missing
   * parent is an error. `fuel` bounds the recursion, which in the source ends in a
   * RecursionError on a cycle of first parents.
   */
  function GetRotation(o: SceneObject, sg: seq<SceneObject>, fuel: nat): Result<Rotation, SceneError>
    decreases fuel
  {
    if OwnRotation(o).Some? then Ok(OwnRotation(o).value)
    else
      var missing := FirstMissing(o.placement.objects, sg);
      if missing.Some? then Err(MissingObject(missing.value))
      else if |o.placement.objects| == 0 then Ok(R0)
      else if fuel == 0 then Err(RecursionLimit)
      else GetRotation(Find(o.placement.objects[0].target, sg).value, sg, fuel - 1)
  }

  /** The recursion allowance used wherever the source calls `get_rotation`. */
  function Fuel(sg: seq<SceneObject>): nat {
    |sg| + 1
  }

  /** An explicit rotation wins; then facing a layout element; then the object's own layout id. */
  lemma RotationPrecedence(o: SceneObject, sg: seq<SceneObject>, fuel: nat)
    ensures o.rotation.Some? ==> GetRotation(o, sg, fuel) == Ok(o.rotation.value)
    ensures o.rotation.None? && o.facing.Some? && IsLayoutId(o.facing.value) ==>
              GetRotation(o, sg, fuel) == Ok(LayoutRot(o.facing.value))
    ensures o.rotation.None? && (o.facing.None? || !IsLayoutId(o.facing.value)) && IsLayoutId(o.id) ==>
              GetRotation(o, sg, fuel) == Ok(LayoutRot(o.id))
  {
  }

  /** Without an own rotation, a missing parent is an error and an object without parents gets 0. */
  lemma RotationFallback(o: SceneObject, sg: seq<SceneObject>, fuel: nat)
    requires OwnRotation(o).None?
    ensures (exists k :: 0 <= k < |o.placement.objects| && Find(o.placement.objects[k].target, sg).None?) ==>
              GetRotation(o, sg, fuel).Err? && GetRotation(o, sg, fuel).error.MissingObject?
    ensures |o.placement.objects| == 0 ==> GetRotation(o, sg, fuel) == Ok(R0)
  {
  }

  /**
   * A resolved rotation is 0 or the own rotation of the object or of some entry of the scene
   * graph: rotations only ever come from an object's own data or are inherited.
   */
  lemma {:induction false} RotationIsInherited(o: SceneObject, sg: seq<SceneObject>, fuel: nat)
    requires GetRotation(o, sg, fuel).Ok?
    ensures var r := GetRotation(o, sg, fuel).value;
            r == R0 || OwnRotation(o) == Some(r) || exists p :: p in sg && OwnRotation(p) == Some(r)
    decreases fuel
  {
    if OwnRotation(o).None? && |o.placement.objects| > 0 && fuel > 0 &&
       FirstMissing(o.placement.objects, sg).None? {
      var parent := Find(o.placement.objects[0].target, sg).value;
      RotationIsInherited(parent, sg, fuel - 1);
    }
  }

  /** More recursion allowance never changes a rotation that resolved. */
  lemma {:induction false} RotationFuelMonotone(o: SceneObject, sg: seq<SceneObject>, fuel: nat, more: nat)
    requires fuel <= more && GetRotation(o, sg, fuel).Ok?
    ensures GetRotation(o, sg, more) == GetRotation(o, sg, fuel)
    decreases fuel
  {
    if OwnRotation(o).None? && |o.placement.objects| > 0 && FirstMissing(o.placement.objects, sg).None? {
      var parent := Find(o.placement.objects[0].target, sg).value;
      RotationFuelMonotone(parent, sg, fuel - 1, more - 1);
    }
  }
}
