/**
 * `get_possible_positions` of utils.py: the region each spatial relationship of an object
 * allows, computed by the constraint functions against every reference that already has a
 * position. Looking the object up also fixes its rotation in the scene graph.
 */
module Positions {
  import opened Wrappers
  import opened Geometry
  import opened Constraints
  import opened Scene

  /** An allowed region together with the relationship that produced it. */
  datatype Candidate = Candidate(ref: string, prep: Prep, box: Box)

  /**
   * `room_layout_elements + objects_in_room` as one list of relationships; a layout element
   * relationship has no `is_adjacent` key and so counts as adjacent.
   */
  function AllEdges(o: SceneObject): (r: seq<ObjectEdge>)
    ensures |r| == |o.placement.layout| + |o.placement.objects|
    ensures forall k :: 0 <= k < |o.placement.layout| ==>
              r[k] == ObjectEdge(o.placement.layout[k].element, o.placement.layout[k].prep, true)
    ensures forall k :: 0 <= k < |o.placement.objects| ==> r[|o.placement.layout| + k] == o.placement.objects[k]
  {
    LayoutAsEdges(o.placement.layout) + o.placement.objects
  }

  function LayoutAsEdges(ls: seq<LayoutEdge>): (r: seq<ObjectEdge>)
    ensures |r| == |ls| && forall k :: 0 <= k < |ls| ==> r[k] == ObjectEdge(ls[k].element, ls[k].prep, true)
  {
    if |ls| == 0 then [] else [ObjectEdge(ls[0].element, ls[0].prep, true)] + LayoutAsEdges(ls[1..])
  }

  /** `func_map[prep](obj_A, obj_B, adjacency, is_on_floor, room_dimensions)`. */
  function ConstraintBox(prep: Prep, a: Dependent, b: Reference, adjacent: bool, onFloor: bool, room: Room): Box {
    match prep
    case On => OnConstraint(a, b, adjacent, onFloor, room)
    case InTheMiddleOf => OnConstraint(a, b, adjacent, onFloor, room)
    case Under => UnderConstraint(a, b, adjacent, onFloor, room)
    case LeftOf => LeftOfConstraint(a, b, adjacent, onFloor, room)
    case RightOf => RightOfConstraint(a, b, adjacent, onFloor, room)
    case InFront => InFrontConstraint(a, b, adjacent, onFloor, room)
    case Behind => BehindConstraint(a, b, adjacent, onFloor, room)
    case Above => AboveConstraint(a, b, adjacent, onFloor, room)
    case InCorner => InCornerConstraint(a, b, adjacent, onFloor, room)
  }

  /** The reference an entry of the scene graph provides once it is positioned and rotated. */
  function AsReference(b: SceneObject): Reference
    requires b.position.Some? && b.rotation.Some?
  {
    Reference(b.id, b.position.value, b.size, b.rotation.value)
  }

  /**
   * One relationship: its reference must exist, contributes nothing while unpositioned, and
   * must have a rotation once positioned (the constraint functions read it).
   */
  function CandidateFor(a: Dependent, onFloor: bool, e: ObjectEdge, sg: seq<SceneObject>, room: Room)
    : Result<Option<Candidate>, SceneError>
  {
    var b := Find(e.target, sg);
    if b.None? then Err(MissingObject(e.target))
    else if b.value.position.None? then Ok(None)
    else if b.value.rotation.None? then Err(MissingRotation(b.value.id))
    else Ok(Some(Candidate(e.target, e.prep, ConstraintBox(e.prep, a, AsReference(b.value), e.adjacent, onFloor, room))))
  }

  /** The loop over the relationships, as far as `es`. */
  function CandidatesFold(a: Dependent, onFloor: bool, es: seq<ObjectEdge>, sg: seq<SceneObject>, room: Room)
    : Result<seq<Candidate>, SceneError>
    decreases |es|
  {
    if |es| == 0 then Ok([])
    else
      var acc :- CandidatesFold(a, onFloor, es[..|es| - 1], sg, room);
      var c :- CandidateFor(a, onFloor, es[|es| - 1], sg, room);
      Ok(acc + if c.Some? then [c.value] else [])
  }

  /** The reference of the relationship exists, and has a rotation if it has a position. */
  predicate Usable(e: ObjectEdge, sg: seq<SceneObject>) {
    Find(e.target, sg).Some? && (Find(e.target, sg).value.position.Some? ==> Find(e.target, sg).value.rotation.Some?)
  }

  /** The reference of the relationship is positioned. */
  predicate Placed(e: ObjectEdge, sg: seq<SceneObject>) {
    Find(e.target, sg).Some? && Find(e.target, sg).value.position.Some?
  }

  /** The scene graph after `obj["rotation"] = {"z_angle": rot}` on the first entry with the id. */
  function WithRotation(sg: seq<SceneObject>, i: nat, rot: Rotation): (r: seq<SceneObject>)
    requires i < |sg|
    ensures |r| == |sg| && r[i] == sg[i].(rotation := Some(rot))
    ensures forall j :: 0 <= j < |sg| && j != i ==> r[j] == sg[j]
  {
    sg[i := sg[i].(rotation := Some(rot))]
  }

  /** What `get_possible_positions` computes: the rotation it resolves and the candidate regions. */
  datatype Possible = Possible(index: nat, rot: Rotation, cands: seq<Candidate>)

  /**
   * `get_possible_positions(object_id, scene_graph, room_dimensions)`: the object must exist; its
   * rotation is resolved and written back before any relationship is evaluated, so that the
   * constraint functions see it.
   */
  function PossiblePositions(id: string, sg: seq<SceneObject>, room: Room): Result<Possible, SceneError> {
    match IndexOf(id, sg)
    case None => Err(MissingObject(id))
    case Some(i) =>
      var rot :- GetRotation(sg[i], sg, Fuel(sg));
      var cands :- CandidatesFold(Dependent(sg[i].size, rot), sg[i].onFloor, AllEdges(sg[i]),
                                  WithRotation(sg, i, rot), room);
      Ok(Possible(i, rot, cands))
  }

  /** The scene graph as `get_possible_positions` leaves it: the rotation written once it resolved. */
  function AfterPossiblePositions(id: string, sg: seq<SceneObject>): (r: seq<SceneObject>)
    ensures |r| == |sg|
  {
    match IndexOf(id, sg)
    case None => sg
    case Some(i) =>
      match GetRotation(sg[i], sg, Fuel(sg))
      case Err(_) => sg
      case Ok(rot) => WithRotation(sg, i, rot)
  }

  /** `get_possible_positions`, with the loop over the relationships. */
  method GetPossiblePositions(id: string, sg: seq<SceneObject>, room: Room)
    returns (sg': seq<SceneObject>, r: Result<Possible, SceneError>)
    ensures r == PossiblePositions(id, sg, room)
    ensures sg' == AfterPossiblePositions(id, sg)
  {
    var found := IndexOf(id, sg);
    if found.None? {
      return sg, Err(MissingObject(id));
    }
    var i := found.value;
    var rot := GetRotation(sg[i], sg, Fuel(sg));
    if rot.Err? {
      return sg, Err(rot.error);
    }
    var rotated := WithRotation(sg, i, rot.value);
    var a := Dependent(sg[i].size, rot.value);
    var es := AllEdges(sg[i]);
    var cands: seq<Candidate> := [];
    for k := 0 to |es|
      invariant CandidatesFold(a, sg[i].onFloor, es[..k], rotated, room) == Ok(cands)
    {
      var c := CandidateFor(a, sg[i].onFloor, es[k], rotated, room);
      if c.Err? {
        CandidatesStepErr(a, sg[i].onFloor, es, rotated, room, k);
        CandidatesErrStays(a, sg[i].onFloor, es, rotated, room, k + 1);
        return rotated, Err(c.error);
      }
      CandidatesStep(a, sg[i].onFloor, es, rotated, room, k, cands, c.value);
      if c.value.Some? {
        cands := cands + [c.value.value];
      }
    }
    assert es[..|es|] == es;
    sg' := rotated;
    r := Ok(Possible(i, rot.value, cands));
  }

  /** One more relationship of the loop, when it yields a region or none. */
  lemma CandidatesStep(a: Dependent, onFloor: bool, es: seq<ObjectEdge>, sg: seq<SceneObject>, room: Room, k: nat,
                       acc: seq<Candidate>, c: Option<Candidate>)
    requires k < |es|
    requires CandidatesFold(a, onFloor, es[..k], sg, room) == Ok(acc)
    requires CandidateFor(a, onFloor, es[k], sg, room) == Ok(c)
    ensures c.None? ==> CandidatesFold(a, onFloor, es[..k + 1], sg, room) == Ok(acc)
    ensures c.Some? ==> CandidatesFold(a, onFloor, es[..k + 1], sg, room) == Ok(acc + [c.value])
  {
    assert es[..k + 1][..k] == es[..k];
    assert acc + [] == acc;
  }

  /** One more relationship of the loop, when it fails. */
  lemma CandidatesStepErr(a: Dependent, onFloor: bool, es: seq<ObjectEdge>, sg: seq<SceneObject>, room: Room, k: nat)
    requires k < |es|
    requires CandidatesFold(a, onFloor, es[..k], sg, room).Ok?
    requires CandidateFor(a, onFloor, es[k], sg, room).Err?
    ensures CandidatesFold(a, onFloor, es[..k + 1], sg, room) == Err(CandidateFor(a, onFloor, es[k], sg, room).error)
  {
    assert es[..k + 1][..k] == es[..k];
  }

  /** Once the loop has failed, evaluating more relationships keeps the first error. */
  lemma {:induction false} CandidatesErrStays(a: Dependent, onFloor: bool, es: seq<ObjectEdge>, sg: seq<SceneObject>,
                                              room: Room, n: nat)
    requires n <= |es| && CandidatesFold(a, onFloor, es[..n], sg, room).Err?
    ensures CandidatesFold(a, onFloor, es, sg, room) == CandidatesFold(a, onFloor, es[..n], sg, room)
    decreases |es| - n
  {
    if n < |es| {
      assert es[..n + 1][..n] == es[..n];
      CandidatesErrStays(a, onFloor, es, sg, room, n + 1);
    } else {
      assert es[..n] == es;
    }
  }

  /** The loop fails exactly when some relationship names a missing or unrotated positioned reference. */
  lemma {:induction false} CandidatesFoldOk(a: Dependent, onFloor: bool, es: seq<ObjectEdge>, sg: seq<SceneObject>, room: Room)
    ensures CandidatesFold(a, onFloor, es, sg, room).Ok? <==> forall k :: 0 <= k < |es| ==> Usable(es[k], sg)
    decreases |es|
  {
    if |es| > 0 {
      var pre := es[..|es| - 1];
      CandidatesFoldOk(a, onFloor, pre, sg, room);
      assert forall k :: 0 <= k < |pre| ==> pre[k] == es[k];
    }
  }

  /**
   * A successful loop yields at most one region per relationship, and one for every
   * relationship exactly when every reference is positioned.
   */
  lemma {:induction false} CandidatesFoldCount(a: Dependent, onFloor: bool, es: seq<ObjectEdge>, sg: seq<SceneObject>, room: Room)
    requires CandidatesFold(a, onFloor, es, sg, room).Ok?
    ensures |CandidatesFold(a, onFloor, es, sg, room).value| <= |es|
    ensures |CandidatesFold(a, onFloor, es, sg, room).value| == |es| <==> forall k :: 0 <= k < |es| ==> Placed(es[k], sg)
    decreases |es|
  {
    if |es| > 0 {
      var pre, last := es[..|es| - 1], es[|es| - 1];
      CandidatesFoldNext(a, onFloor, es, sg, room);
      CandidatesFoldCount(a, onFloor, pre, sg, room);
      var n, m := |CandidatesFold(a, onFloor, pre, sg, room).value|, |CandidatesFold(a, onFloor, es, sg, room).value|;
      assert m == n + if Placed(last, sg) then 1 else 0;
      if m == |es| {
        forall k | 0 <= k < |es| ensures Placed(es[k], sg) {
          if k < |pre| {
            assert pre[k] == es[k];
          }
        }
      }
      if forall k :: 0 <= k < |es| ==> Placed(es[k], sg) {
        forall k | 0 <= k < |pre| ensures Placed(pre[k], sg) {
          assert pre[k] == es[k];
        }
        assert Placed(es[|es| - 1], sg);
      } else {
        var k :| 0 <= k < |es| && !Placed(es[k], sg);
        if k < |pre| {
          assert pre[k] == es[k];
        }
      }
    }
  }

  /** The loop over the relationships one relationship further, when it succeeds. */
  lemma CandidatesFoldNext(a: Dependent, onFloor: bool, es: seq<ObjectEdge>, sg: seq<SceneObject>, room: Room)
    requires |es| > 0 && CandidatesFold(a, onFloor, es, sg, room).Ok?
    ensures var pre, last := es[..|es| - 1], es[|es| - 1];
            CandidatesFold(a, onFloor, pre, sg, room).Ok? &&
            CandidateFor(a, onFloor, last, sg, room).Ok? &&
            (CandidateFor(a, onFloor, last, sg, room).value.Some? <==> Placed(last, sg)) &&
            CandidatesFold(a, onFloor, es, sg, room).value ==
              CandidatesFold(a, onFloor, pre, sg, room).value +
              if Placed(last, sg) then [CandidateFor(a, onFloor, last, sg, room).value.value] else []
  {
  }

  /**
   * Every region comes from one of the relationships, against its positioned reference, by the
   * constraint function of its preposition.
   */
  lemma {:induction false} CandidatesFoldSound(a: Dependent, onFloor: bool, es: seq<ObjectEdge>, sg: seq<SceneObject>, room: Room)
    requires CandidatesFold(a, onFloor, es, sg, room).Ok?
    ensures forall c :: c in CandidatesFold(a, onFloor, es, sg, room).value ==>
              exists k :: 0 <= k < |es| && es[k].target == c.ref && es[k].prep == c.prep && Placed(es[k], sg) &&
                          Find(es[k].target, sg).value.rotation.Some? &&
                          c.box == ConstraintBox(c.prep, a, AsReference(Find(es[k].target, sg).value), es[k].adjacent, onFloor, room)
    decreases |es|
  {
    if |es| > 0 {
      var pre := es[..|es| - 1];
      CandidatesFoldSound(a, onFloor, pre, sg, room);
      assert forall k :: 0 <= k < |pre| ==> pre[k] == es[k];
    }
  }

  /** An object's resolved rotation is stored on it, and nothing else in the scene graph changes. */
  lemma AfterPossiblePositionsStores(id: string, sg: seq<SceneObject>, room: Room)
    requires PossiblePositions(id, sg, room).Ok?
    ensures var p := PossiblePositions(id, sg, room).value;
            p.index < |sg| && sg[p.index].id == id &&
            AfterPossiblePositions(id, sg) == WithRotation(sg, p.index, p.rot)
  {
  }

  /** An object that already has a rotation keeps it: get_rotation returns the stored one. */
  lemma StoredRotationKept(id: string, sg: seq<SceneObject>, room: Room)
    requires IndexOf(id, sg).Some? && sg[IndexOf(id, sg).value].rotation.Some?
    ensures AfterPossiblePositions(id, sg) == sg
  {
    var i := IndexOf(id, sg).value;
    RotationPrecedence(sg[i], sg, Fuel(sg));
    assert WithRotation(sg, i, sg[i].rotation.value) == sg;
  }
}
