/**
 * `check_impossible_relationships` of utils.py, and `get_conflicts`, which gathers the
 * five structural checks.
 */
module Sides {
  import opened Wrappers
  import opened Geometry
  import opened Constraints
  import opened Scene
  import opened Graph
  import opened Conflicts
  import opened Relations

  // ---------------------------------------------------------------- check_impossible_relationships

  /** The adjacent children of `node` that sit on side `q` of it, each reported against `p`. */
  function SideHitsFor(g: Digraph, node: string, p: string, kids: seq<string>, q: Prep): seq<Conflict>
    decreases |kids|
  {
    if |kids| == 0 then []
    else
      var c := kids[|kids| - 1];
      SideHitsFor(g, node, p, kids[..|kids| - 1], q) +
      (if WeightOf(g, node, c) == Some(Weight(q, true)) then [SideTaken(c, node, p)] else [])
  }

  /**
   * The side of `node`, a node at rotation `rot`, that the parent `p` occupies when `node`
   * stands adjacent to it in a direction; `None` when the edge `p -> node` is not of that kind.
   */
  function TakenSide(g: Digraph, p: string, node: string, rot: Rotation): Option<Prep> {
    var w := WeightOf(g, p, node);
    if w.Some? && IsDirectional(w.value.prep) && w.value.adjacent then Some(Opposite(Turned(w.value.prep, rot)))
    else None
  }

  function SideHitsNode(g: Digraph, node: string, ps: seq<string>, kids: seq<string>, rot: Rotation): seq<Conflict>
    decreases |ps|
  {
    if |ps| == 0 then []
    else
      var p := ps[|ps| - 1];
      var side := TakenSide(g, p, node, rot);
      SideHitsNode(g, node, ps[..|ps| - 1], kids, rot) +
      (if side.Some? then SideHitsFor(g, node, p, kids, side.value) else [])
  }

  function SideNode(g: Digraph, sg: seq<SceneObject>, node: string): Result<seq<Conflict>, SceneError> {
    if IsLayoutId(node) then Ok([])
    else
      var rot :- RotationOfId(node, sg);
      Ok(SideHitsNode(g, node, ObjectParents(g, node), Succs(g, node), rot))
  }

  function SideScan(g: Digraph, sg: seq<SceneObject>, order: seq<string>): Result<seq<Conflict>, SceneError> {
    ConcatScan(n => SideNode(g, sg, n), order)
  }

  /** `check_impossible_relationships`, over the topological order `order`. */
  method CheckImpossibleRelationships(g: Digraph, sg: seq<SceneObject>, order: seq<string>)
    returns (r: Result<seq<Conflict>, SceneError>)
    ensures r == SideScan(g, sg, order)
  {
    var f := n => SideNode(g, sg, n);
    var conflicts: seq<Conflict> := [];
    var i := 0;
    while i < |order|
      invariant 0 <= i <= |order|
      invariant ConcatScan(f, order[..i]) == Ok(conflicts)
    {
      var node := order[i];
      assert order[..i + 1][..i] == order[..i];
      if !IsLayoutId(node) {
        var rot := RotationOfId(node, sg);
        if rot.Err? {
          ConcatScanErrStays(f, order, i + 1);
          return Err(rot.error);
        }
        var more := SideNodeLoop(g, node, ObjectParents(g, node), Succs(g, node), rot.value);
        conflicts := conflicts + more;
      } else {
        assert conflicts + [] == conflicts;
      }
      i := i + 1;
    }
    assert order[..i] == order;
    r := Ok(conflicts);
  }

  method SideNodeLoop(g: Digraph, node: string, ps: seq<string>, kids: seq<string>, rot: Rotation)
    returns (cs: seq<Conflict>)
    ensures cs == SideHitsNode(g, node, ps, kids, rot)
  {
    cs := [];
    var k := 0;
    while k < |ps|
      invariant 0 <= k <= |ps|
      invariant cs == SideHitsNode(g, node, ps[..k], kids, rot)
    {
      assert ps[..k + 1][..k] == ps[..k];
      var side := TakenSide(g, ps[k], node, rot);
      if side.Some? {
        var more := SideLoop(g, node, ps[k], kids, side.value);
        cs := cs + more;
      } else {
        assert cs + [] == cs;
      }
      k := k + 1;
    }
    assert ps[..k] == ps;
  }

  method SideLoop(g: Digraph, node: string, p: string, kids: seq<string>, q: Prep) returns (cs: seq<Conflict>)
    ensures cs == SideHitsFor(g, node, p, kids, q)
  {
    cs := [];
    var k := 0;
    while k < |kids|
      invariant 0 <= k <= |kids|
      invariant cs == SideHitsFor(g, node, p, kids[..k], q)
    {
      assert kids[..k + 1][..k] == kids[..k];
      if WeightOf(g, node, kids[k]) == Some(Weight(q, true)) {
        cs := cs + [SideTaken(kids[k], node, p)];
      } else {
        assert cs + [] == cs;
      }
      k := k + 1;
    }
    assert kids[..k] == kids;
  }

  /** `c` says child `c.child` of `node` is placed, adjacent, on the side of `node` that `p` takes. */
  predicate Blocked(g: Digraph, node: string, p: string, rot: Rotation, kids: seq<string>, c: Conflict) {
    c.SideTaken? && c.node == node && c.parent == p && c.child in kids &&
    TakenSide(g, p, node, rot).Some? &&
    WeightOf(g, node, c.child) == Some(Weight(TakenSide(g, p, node, rot).value, true))
  }

  lemma {:induction false} SideHitsForMembers(g: Digraph, node: string, p: string, kids: seq<string>, q: Prep)
    ensures forall c :: c in SideHitsFor(g, node, p, kids, q) <==>
              c.SideTaken? && c.node == node && c.parent == p && c.child in kids &&
              WeightOf(g, node, c.child) == Some(Weight(q, true))
    decreases |kids|
  {
    if |kids| > 0 {
      var k := |kids| - 1;
      SideHitsForMembers(g, node, p, kids[..k], q);
      assert kids == kids[..k] + [kids[k]];
    }
  }

  /** The conflicts for one parent `p` of `node` are the children blocked on the side `p` takes. */
  lemma SideHitsParent(g: Digraph, node: string, p: string, kids: seq<string>, rot: Rotation)
    ensures var side := TakenSide(g, p, node, rot);
            forall c :: c in (if side.Some? then SideHitsFor(g, node, p, kids, side.value) else []) <==>
              c.SideTaken? && c.parent == p && Blocked(g, node, p, rot, kids, c)
  {
    var side := TakenSide(g, p, node, rot);
    if side.Some? {
      SideHitsForMembers(g, node, p, kids, side.value);
    }
  }

  lemma {:induction false} SideHitsNodeMembers(g: Digraph, node: string, ps: seq<string>, kids: seq<string>, rot: Rotation)
    ensures forall c :: c in SideHitsNode(g, node, ps, kids, rot) <==>
              c.SideTaken? && c.parent in ps && Blocked(g, node, c.parent, rot, kids, c)
    decreases |ps|
  {
    if |ps| > 0 {
      var k := |ps| - 1;
      SideHitsNodeMembers(g, node, ps[..k], kids, rot);
      SideHitsParent(g, node, ps[k], kids, rot);
      assert forall x :: x in ps <==> x in ps[..k] || x == ps[k] by {
        assert ps == ps[..k] + [ps[k]];
      }
    }
  }

  /**
   * `check_impossible_relationships` fails exactly when the rotation of some object in
   * `order` cannot be resolved; otherwise it reports exactly the pairs where an object
   * parent `p` stands adjacent to `n` in a direction and a child of `n` is asked to stand,
   * adjacent, on the side of `n` (turned by `n`'s rotation) that `p` already takes.
   */
  lemma ImpossibleRelationshipsExact(g: Digraph, sg: seq<SceneObject>, order: seq<string>)
    ensures SideScan(g, sg, order).Err? <==>
            exists n :: n in order && !IsLayoutId(n) && RotationOfId(n, sg).Err?
    ensures SideScan(g, sg, order).Ok? ==>
            forall c :: c in SideScan(g, sg, order).value <==>
              c.SideTaken? && c.node in order && !IsLayoutId(c.node) && c.parent in ObjectParents(g, c.node) &&
              Blocked(g, c.node, c.parent, RotationOfId(c.node, sg).value, Succs(g, c.node), c)
  {
    var f := n => SideNode(g, sg, n);
    ConcatScanMembers(f, order);
    if SideScan(g, sg, order).Ok? {
      forall c ensures c in SideScan(g, sg, order).value <==>
              c.SideTaken? && c.node in order && !IsLayoutId(c.node) && c.parent in ObjectParents(g, c.node) &&
              Blocked(g, c.node, c.parent, RotationOfId(c.node, sg).value, Succs(g, c.node), c)
      {
        if c.SideTaken? && !IsLayoutId(c.node) && RotationOfId(c.node, sg).Ok? {
          SideHitsNodeMembers(g, c.node, ObjectParents(g, c.node), Succs(g, c.node), RotationOfId(c.node, sg).value);
        }
        forall n | n in order && f(n).Ok? && c in f(n).value ensures c.SideTaken? && n == c.node {
          SideHitsNodeMembers(g, n, ObjectParents(g, n), Succs(g, n), RotationOfId(n, sg).value);
        }
      }
    }
  }

  /** An unrotated node keeps free the side of it that faces a parent it stands adjacent to. */
  lemma TakenSideUnrotated(g: Digraph, p: string, node: string)
    requires WeightOf(g, p, node).Some? && IsDirectional(WeightOf(g, p, node).value.prep) && WeightOf(g, p, node).value.adjacent
    ensures TakenSide(g, p, node, R0) == Some(Opposite(WeightOf(g, p, node).value.prep))
    ensures TakenSide(g, p, node, R0).value != WeightOf(g, p, node).value.prep
  {
    var q := WeightOf(g, p, node).value.prep;
    TurnedLaws(q, q, R0);
    OppositeLaws(q);
  }

  // ---------------------------------------------------------------- get_conflicts

  /** `get_conflicts`: the checks run in the source's order; the first failure propagates. */
  function AllConflicts(g: Digraph, sg: seq<SceneObject>, order: seq<string>): Result<seq<Conflict>, SceneError> {
    var wall :- WallScan(g, sg, order);
    var corner :- CornerScan(g, sg, order);
    var layout :- RoomLayoutConflicts(g, order);
    var lonely := CornerRelationshipConflicts(g, order);
    var sides :- SideScan(g, sg, order);
    Ok(corner + layout + lonely + sides + wall)
  }

  method GetConflicts(g: Digraph, sg: seq<SceneObject>, order: seq<string>) returns (r: Result<seq<Conflict>, SceneError>)
    ensures r == AllConflicts(g, sg, order)
  {
    var wall := CheckWallImpossibilities(g, sg, order);
    if wall.Err? { return Err(wall.error); }
    var corner := CheckCornerImpossibilities(g, sg, order);
    if corner.Err? { return Err(corner.error); }
    var layout := FindRoomLayoutConflicts(g, order);
    if layout.Err? { return Err(layout.error); }
    var lonely := CheckCornerRelationships(g, order);
    var sides := CheckImpossibleRelationships(g, sg, order);
    if sides.Err? { return Err(sides.error); }
    r := Ok(corner.value + layout.value + lonely + sides.value + wall.value);
  }

  /**
   * The gathered conflicts are exactly those of the five checks, and the scene graph is
   * accepted (no conflict) exactly when every check passes with nothing to report.
   */
  lemma AllConflictsExact(g: Digraph, sg: seq<SceneObject>, order: seq<string>)
    ensures AllConflicts(g, sg, order).Ok? <==>
            WallScan(g, sg, order).Ok? && CornerScan(g, sg, order).Ok? &&
            RoomLayoutConflicts(g, order).Ok? && SideScan(g, sg, order).Ok?
    ensures AllConflicts(g, sg, order).Ok? ==>
            forall c :: c in AllConflicts(g, sg, order).value <==>
              c in WallScan(g, sg, order).value || c in CornerScan(g, sg, order).value ||
              c in RoomLayoutConflicts(g, order).value || c in CornerRelationshipConflicts(g, order) ||
              c in SideScan(g, sg, order).value
    ensures AllConflicts(g, sg, order) == Ok([]) <==>
            WallScan(g, sg, order) == Ok([]) && CornerScan(g, sg, order) == Ok([]) &&
            RoomLayoutConflicts(g, order) == Ok([]) && CornerRelationshipConflicts(g, order) == [] &&
            SideScan(g, sg, order) == Ok([])
  {
  }
}
