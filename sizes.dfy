/**
 * `check_size_conflicts` of utils.py: whether an object is large enough for the objects
 * placed adjacent to its sides and on top of it, and whether a wall or the floor is long
 * enough for the clusters of the objects standing against it.
 * A conflict message is modelled by a record of the data the message names.
 */
module Sizes {
  import opened Wrappers
  import opened Geometry
  import opened Constraints
  import opened Scene
  import opened Graph
  import opened Relations
  import opened Cluster

  datatype SizeConflict =
    | SideTooSmall(node: string, side: Prep, children: seq<string>)      // a side's row does not fit
    | AreaTooSmall(node: string, children: seq<string>)                  // the objects on top do not fit
    | LayoutTooSmall(node: string, widthwise: bool, members: set<string>) // a wall or the floor is too short

  /** `list(reversed(...))`. */
  function Reversed(s: seq<string>): (r: seq<string>)
    ensures |r| == |s|
    ensures forall i :: 0 <= i < |s| ==> r[i] == s[|s| - 1 - i]
    decreases |s|
  {
    if |s| == 0 then [] else [s[|s| - 1]] + Reversed(s[..|s| - 1])
  }

  lemma ReversedMembers(s: seq<string>)
    ensures forall x :: x in Reversed(s) <==> x in s
  {
    var r := Reversed(s);
    forall x | x in s ensures x in r {
      var i :| 0 <= i < |s| && s[i] == x;
      assert r[|s| - 1 - i] == x;
    }
  }

  // ---------------------------------------------------------------- object nodes

  /** The `size_constraint` of an object: what each side's row needs, and what the top must hold. */
  datatype Load = Load(sides: Extents, onLength: real, onWidth: real)

  const NoLoad: Load := Load(NoExtent, 0.0, 0.0)

  /** The part of the top of the node a child resting on it covers, along the node's length and width. */
  function OnFootprint(s: Size, diff: nat): (real, real) {
    if diff % 180 == 0 then (s.length, s.width) else (s.width, s.length)
  }

  /** The child's extent that a row on side `p` of the node needs: `width` when the direction check holds. */
  function RowExtent(s: Size, diff: nat, p: Prep): real {
    Dimension(s, !DirectionCheck(diff, p))
  }

  /**
   * One out-edge `node -> child`: the child is looked up and its rotation resolved whatever
   * the edge; then an adjacent directional edge adds to its side, an adjacent "on" edge adds
   * to the top, and every other edge is skipped.
   */
  function LoadStep(g: Digraph, sg: seq<SceneObject>, node: string, rot: Rotation, ld: Load, child: string)
    : Result<Load, SceneError>
    requires HasEdge(g, node, child)
  {
    var o :- Lookup(child, sg);
    var crot :- GetRotation(o, sg, Fuel(sg));
    var w := WeightOf(g, node, child).value;
    var diff := RotDiff(rot, crot);
    if !w.adjacent then Ok(ld)
    else if IsDirectional(w.prep) then
      Ok(ld.(sides := WithSide(ld.sides, w.prep, Side(ld.sides, w.prep) + RowExtent(o.size, diff, w.prep))))
    else if w.prep == On then
      var f := OnFootprint(o.size, diff);
      Ok(ld.(onLength := ld.onLength + f.0, onWidth := ld.onWidth + f.1))
    else Ok(ld)
  }

  /** The loop over `outgoing_e`, as far as `kids`. */
  function LoadFold(g: Digraph, sg: seq<SceneObject>, node: string, rot: Rotation, kids: seq<string>)
    : Result<Load, SceneError>
    requires forall v :: v in kids ==> HasEdge(g, node, v)
    decreases |kids|
  {
    if |kids| == 0 then Ok(NoLoad)
    else
      var ld :- LoadFold(g, sg, node, rot, kids[..|kids| - 1]);
      LoadStep(g, sg, node, rot, ld, kids[|kids| - 1])
  }

  /** The sides in the order the source checks them. */
  const SideOrder: seq<Prep> := [InFront, Behind, LeftOf, RightOf]

  /** The node's own extent that a row on side `p` must fit in: length in front and behind, width left and right. */
  function Capacity(s: Size, p: Prep): real {
    if p == InFront || p == Behind then s.length else s.width
  }

  /** The children listed in a message: every child whose edge has preposition `p`, adjacent or not. */
  function WithPrep(g: Digraph, node: string, kids: seq<string>, p: Prep): (r: seq<string>)
    ensures forall k :: k in r <==> k in kids && WeightOf(g, node, k).Some? && WeightOf(g, node, k).value.prep == p
    decreases |kids|
  {
    if |kids| == 0 then []
    else
      var k := kids[|kids| - 1];
      WithPrep(g, node, kids[..|kids| - 1], p) +
      (if WeightOf(g, node, k).Some? && WeightOf(g, node, k).value.prep == p then [k] else [])
  }

  /** The loop over the four sides, as far as `ps`. */
  function SideChecks(g: Digraph, node: string, s: Size, ld: Load, kids: seq<string>, ps: seq<Prep>): seq<SizeConflict>
    decreases |ps|
  {
    if |ps| == 0 then []
    else
      var p := ps[|ps| - 1];
      SideChecks(g, node, s, ld, kids, ps[..|ps| - 1]) +
      (if Capacity(s, p) < Side(ld.sides, p) then [SideTooSmall(node, p, WithPrep(g, node, kids, p))] else [])
  }

  function AreaCheck(g: Digraph, node: string, s: Size, ld: Load, kids: seq<string>): seq<SizeConflict> {
    if s.length < ld.onLength || s.width < ld.onWidth then [AreaTooSmall(node, WithPrep(g, node, kids, On))] else []
  }

  /** The branch of the outer loop for an object node. */
  function ObjectSizeNode(g: Digraph, sg: seq<SceneObject>, node: string): Result<seq<SizeConflict>, SceneError> {
    var o :- Lookup(node, sg);
    var rot :- GetRotation(o, sg, Fuel(sg));
    var kids := Succs(g, node);
    var ld :- LoadFold(g, sg, node, rot, kids);
    Ok(SideChecks(g, node, o.size, ld, kids, SideOrder) + AreaCheck(g, node, o.size, ld, kids))
  }

  // ---------------------------------------------------------------- layout nodes

  /** The `size_constraint` of a layout element, and `outgoing_set`. */
  datatype Span = Span(along: real, across: real, members: set<string>)

  /**
   * One child `child` of a wall or the floor, taken latest first: skipped when already counted
   * or not on the floor; otherwise its cluster's extent along the element, and across it.
   * The floor ("middle of the room") keeps the largest cluster each way; a wall adds them up.
   */
  function SpanStep(g: Digraph, sg: seq<SceneObject>, order: seq<string>, node: string, rot: Rotation,
                    sp: Span, child: string): Result<Span, SceneError>
    requires WellFormed(g) && IsTopoOrder(g, order) && child in order
  {
    if child in sp.members then Ok(sp)
    else
      var o :- Lookup(child, sg);
      if !o.onFloor then Ok(sp)
      else
        var crot :- GetRotation(o, sg, Fuel(sg));
        var sub :- ClusterSize(g, sg, order, child);
        var straight := RotDiff(rot, crot) % 180 == 0;
        var x := Contribution(o.size, sub.ext, straight);
        var y := Contribution(o.size, sub.ext, !straight);
        var members := sp.members + {child} + sub.members;
        if node == MiddleOfRoom then Ok(Span(Max(sp.along, x), Max(sp.across, y), members))
        else Ok(Span(sp.along + x, sp.across, members))
  }

  function SpanFold(g: Digraph, sg: seq<SceneObject>, order: seq<string>, node: string, rot: Rotation,
                    kids: seq<string>): Result<Span, SceneError>
    requires WellFormed(g) && IsTopoOrder(g, order) && forall v :: v in kids ==> v in order
    decreases |kids|
  {
    if |kids| == 0 then Ok(Span(0.0, 0.0, {}))
    else
      var sp :- SpanFold(g, sg, order, node, rot, kids[..|kids| - 1]);
      SpanStep(g, sg, order, node, rot, sp, kids[|kids| - 1])
  }

  /** A wall is checked along its length; the floor along its length and its width. */
  function SpanChecks(node: string, s: Size, sp: Span): seq<SizeConflict> {
    if node != MiddleOfRoom then
      (if s.length < sp.along then [LayoutTooSmall(node, false, sp.members)] else [])
    else
      (if s.length < sp.along then [LayoutTooSmall(node, false, sp.members)] else []) +
      (if s.width < sp.across then [LayoutTooSmall(node, true, sp.members)] else [])
  }

  /** The branch of the outer loop for a layout element, looked up among the room priors. */
  function LayoutSizeNode(g: Digraph, sg: seq<SceneObject>, priors: seq<SceneObject>, order: seq<string>, node: string)
    : Result<seq<SizeConflict>, SceneError>
    requires WellFormed(g) && IsTopoOrder(g, order)
  {
    var o :- Lookup(node, priors);
    var rot :- GetRotation(o, sg, Fuel(sg));
    var sp :- SpanFold(g, sg, order, node, rot, LatestFirstChildren(g, node, order));
    Ok(SpanChecks(node, o.size, sp))
  }

  function SizeNode(g: Digraph, sg: seq<SceneObject>, priors: seq<SceneObject>, order: seq<string>, node: string)
    : Result<seq<SizeConflict>, SceneError>
    requires WellFormed(g) && IsTopoOrder(g, order)
  {
    if IsLayoutId(node) then LayoutSizeNode(g, sg, priors, order, node) else ObjectSizeNode(g, sg, node)
  }

  /** `check_size_conflicts` with `verbose` off: every node, latest in the topological order first. */
  function SizeConflicts(g: Digraph, sg: seq<SceneObject>, priors: seq<SceneObject>, order: seq<string>)
    : Result<seq<SizeConflict>, SceneError>
    requires WellFormed(g) && IsTopoOrder(g, order)
  {
    ConcatScan(n => SizeNode(g, sg, priors, order, n), Reversed(order))
  }

  // ---------------------------------------------------------------- methods

  method CheckSizeConflicts(g: Digraph, sg: seq<SceneObject>, priors: seq<SceneObject>, order: seq<string>)
    returns (r: Result<seq<SizeConflict>, SceneError>)
    requires WellFormed(g) && IsTopoOrder(g, order)
    ensures r == SizeConflicts(g, sg, priors, order)
  {
    var f := n => SizeNode(g, sg, priors, order, n);
    var rev := Reversed(order);
    var conflicts: seq<SizeConflict> := [];
    var i := 0;
    while i < |rev|
      invariant 0 <= i <= |rev|
      invariant ConcatScan(f, rev[..i]) == Ok(conflicts)
    {
      ConcatScanNext(f, rev, i);
      var more;
      if IsLayoutId(rev[i]) {
        more := LayoutSizeConflictsOf(g, sg, priors, order, rev[i]);
      } else {
        more := ObjectSizeConflictsOf(g, sg, rev[i]);
      }
      if more.Err? {
        ConcatScanErrStays(f, rev, i + 1);
        return Err(more.error);
      }
      conflicts := conflicts + more.value;
      i := i + 1;
    }
    assert rev[..i] == rev;
    r := Ok(conflicts);
  }

  method ObjectSizeConflictsOf(g: Digraph, sg: seq<SceneObject>, node: string)
    returns (r: Result<seq<SizeConflict>, SceneError>)
    ensures r == ObjectSizeNode(g, sg, node)
  {
    var o := Lookup(node, sg);
    if o.Err? {
      return Err(o.error);
    }
    var rot := GetRotation(o.value, sg, Fuel(sg));
    if rot.Err? {
      return Err(rot.error);
    }
    var kids := Succs(g, node);
    var ld := ObjectLoad(g, sg, node, rot.value, kids);
    if ld.Err? {
      return Err(ld.error);
    }
    var sides := CheckSides(g, node, o.value.size, ld.value, kids);
    r := Ok(sides + AreaCheck(g, node, o.value.size, ld.value, kids));
  }

  method ObjectLoad(g: Digraph, sg: seq<SceneObject>, node: string, rot: Rotation, kids: seq<string>)
    returns (r: Result<Load, SceneError>)
    requires forall v :: v in kids ==> HasEdge(g, node, v)
    ensures r == LoadFold(g, sg, node, rot, kids)
  {
    var ld := NoLoad;
    var i := 0;
    while i < |kids|
      invariant 0 <= i <= |kids|
      invariant LoadFold(g, sg, node, rot, kids[..i]) == Ok(ld)
    {
      LoadFoldNext(g, sg, node, rot, kids, i, ld);
      var next := LoadChild(g, sg, node, rot, ld, kids[i]);
      if next.Err? {
        LoadFoldErrStays(g, sg, node, rot, kids, i + 1);
        return Err(next.error);
      }
      ld := next.value;
      i := i + 1;
    }
    assert kids[..i] == kids;
    r := Ok(ld);
  }

  /** The body of the loop over the out-edges, for one child. */
  method LoadChild(g: Digraph, sg: seq<SceneObject>, node: string, rot: Rotation, ld: Load, child: string)
    returns (r: Result<Load, SceneError>)
    requires HasEdge(g, node, child)
    ensures r == LoadStep(g, sg, node, rot, ld, child)
  {
    var o := Lookup(child, sg);
    if o.Err? {
      return Err(o.error);
    }
    var crot := GetRotation(o.value, sg, Fuel(sg));
    if crot.Err? {
      return Err(crot.error);
    }
    var w := WeightOf(g, node, child).value;
    var diff := RotDiff(rot, crot.value);
    r := Ok(ld);
    if w.adjacent {
      if IsDirectional(w.prep) {
        r := Ok(ld.(sides := WithSide(ld.sides, w.prep, Side(ld.sides, w.prep) + RowExtent(o.value.size, diff, w.prep))));
      } else if w.prep == On {
        var fp := OnFootprint(o.value.size, diff);
        r := Ok(ld.(onLength := ld.onLength + fp.0, onWidth := ld.onWidth + fp.1));
      }
    }
  }

  /** The loop over the four sides. */
  method CheckSides(g: Digraph, node: string, s: Size, ld: Load, kids: seq<string>) returns (cs: seq<SizeConflict>)
    ensures cs == SideChecks(g, node, s, ld, kids, SideOrder)
  {
    cs := [];
    var i := 0;
    while i < |SideOrder|
      invariant 0 <= i <= |SideOrder|
      invariant cs == SideChecks(g, node, s, ld, kids, SideOrder[..i])
    {
      assert SideOrder[..i + 1][..i] == SideOrder[..i];
      var p := SideOrder[i];
      if Capacity(s, p) < Side(ld.sides, p) {
        cs := cs + [SideTooSmall(node, p, WithPrep(g, node, kids, p))];
      } else {
        assert cs + [] == cs;
      }
      i := i + 1;
    }
    assert SideOrder[..i] == SideOrder;
  }

  method LayoutSizeConflictsOf(g: Digraph, sg: seq<SceneObject>, priors: seq<SceneObject>, order: seq<string>, node: string)
    returns (r: Result<seq<SizeConflict>, SceneError>)
    requires WellFormed(g) && IsTopoOrder(g, order)
    ensures r == LayoutSizeNode(g, sg, priors, order, node)
  {
    var o := Lookup(node, priors);
    if o.Err? {
      return Err(o.error);
    }
    var rot := GetRotation(o.value, sg, Fuel(sg));
    if rot.Err? {
      return Err(rot.error);
    }
    var sp := SpanChildren(g, sg, order, node, rot.value, LatestFirstChildren(g, node, order));
    if sp.Err? {
      return Err(sp.error);
    }
    r := Ok(SpanChecks(node, o.value.size, sp.value));
  }

  /** The loop over a layout element's children, latest in the topological order first. */
  method SpanChildren(g: Digraph, sg: seq<SceneObject>, order: seq<string>, node: string, rot: Rotation,
                      kids: seq<string>) returns (r: Result<Span, SceneError>)
    requires WellFormed(g) && IsTopoOrder(g, order) && forall k :: k in kids ==> k in order
    ensures r == SpanFold(g, sg, order, node, rot, kids)
  {
    var sp := Span(0.0, 0.0, {});
    var i := 0;
    while i < |kids|
      invariant 0 <= i <= |kids|
      invariant SpanFold(g, sg, order, node, rot, kids[..i]) == Ok(sp)
    {
      assert kids[..i + 1][..i] == kids[..i];
      assert kids[i] in kids;
      var next := SpanChild(g, sg, order, node, rot, sp, kids[i]);
      if next.Err? {
        SpanFoldErrStays(g, sg, order, node, rot, kids, i + 1);
        return Err(next.error);
      }
      sp := next.value;
      i := i + 1;
    }
    assert kids[..i] == kids;
    r := Ok(sp);
  }

  /** The body of the loop over a layout element's children, for one child. */
  method SpanChild(g: Digraph, sg: seq<SceneObject>, order: seq<string>, node: string, rot: Rotation,
                   sp: Span, child: string) returns (r: Result<Span, SceneError>)
    requires WellFormed(g) && IsTopoOrder(g, order) && child in order
    ensures r == SpanStep(g, sg, order, node, rot, sp, child)
  {
    if child in sp.members {
      return Ok(sp);
    }
    var o := Lookup(child, sg);
    if o.Err? {
      return Err(o.error);
    }
    if !o.value.onFloor {
      return Ok(sp);
    }
    var crot := GetRotation(o.value, sg, Fuel(sg));
    if crot.Err? {
      return Err(crot.error);
    }
    var sub := GetClusterSize(g, sg, order, child);
    if sub.Err? {
      return Err(sub.error);
    }
    var straight := RotDiff(rot, crot.value) % 180 == 0;
    var x := Contribution(o.value.size, sub.value.ext, straight);
    var y := Contribution(o.value.size, sub.value.ext, !straight);
    var members := sp.members + {child} + sub.value.members;
    if node == MiddleOfRoom {
      r := Ok(Span(Max(sp.along, x), Max(sp.across, y), members));
    } else {
      r := Ok(Span(sp.along + x, sp.across, members));
    }
  }

  /** The loop over the out-edges one child further. */
  lemma LoadFoldNext(g: Digraph, sg: seq<SceneObject>, node: string, rot: Rotation, kids: seq<string>, i: nat, ld: Load)
    requires forall v :: v in kids ==> HasEdge(g, node, v)
    requires i < |kids| && LoadFold(g, sg, node, rot, kids[..i]) == Ok(ld)
    ensures HasEdge(g, node, kids[i])
    ensures LoadFold(g, sg, node, rot, kids[..i + 1]) == LoadStep(g, sg, node, rot, ld, kids[i])
  {
    assert kids[..i + 1][..i] == kids[..i];
    assert kids[i] in kids;
  }

  lemma {:induction false} LoadFoldErrStays(g: Digraph, sg: seq<SceneObject>, node: string, rot: Rotation,
                                            kids: seq<string>, i: nat)
    requires forall v :: v in kids ==> HasEdge(g, node, v)
    requires i <= |kids| && LoadFold(g, sg, node, rot, kids[..i]).Err?
    ensures LoadFold(g, sg, node, rot, kids) == LoadFold(g, sg, node, rot, kids[..i])
    decreases |kids| - i
  {
    if i < |kids| {
      assert kids[..|kids| - 1][..i] == kids[..i];
      LoadFoldErrStays(g, sg, node, rot, kids[..|kids| - 1], i);
    } else {
      assert kids[..i] == kids;
    }
  }

  lemma {:induction false} SpanFoldErrStays(g: Digraph, sg: seq<SceneObject>, order: seq<string>, node: string,
                                            rot: Rotation, kids: seq<string>, i: nat)
    requires WellFormed(g) && IsTopoOrder(g, order) && forall v :: v in kids ==> v in order
    requires i <= |kids| && SpanFold(g, sg, order, node, rot, kids[..i]).Err?
    ensures SpanFold(g, sg, order, node, rot, kids) == SpanFold(g, sg, order, node, rot, kids[..i])
    decreases |kids| - i
  {
    if i < |kids| {
      assert kids[..|kids| - 1][..i] == kids[..i];
      SpanFoldErrStays(g, sg, order, node, rot, kids[..|kids| - 1], i);
    } else {
      assert kids[..i] == kids;
    }
  }

  // ---------------------------------------------------------------- properties

  /** A child with its resolved rotation, when both the lookup and `get_rotation` succeed. */
  function Resolved(k: string, sg: seq<SceneObject>): Option<(SceneObject, Rotation)> {
    match Lookup(k, sg)
    case Err(_) => None
    case Ok(o) =>
      match GetRotation(o, sg, Fuel(sg))
      case Err(_) => None
      case Ok(r) => Some((o, r))
  }

  /** The row length the adjacent children on side `p` of `node` need, side by side. */
  function RowNeed(g: Digraph, sg: seq<SceneObject>, node: string, rot: Rotation, kids: seq<string>, p: Prep): real
    decreases |kids|
  {
    if |kids| == 0 then 0.0
    else
      var k := kids[|kids| - 1];
      var x := Resolved(k, sg);
      RowNeed(g, sg, node, rot, kids[..|kids| - 1], p) +
      (if WeightOf(g, node, k) == Some(Weight(p, true)) && x.Some? then RowExtent(x.value.0.size, RotDiff(rot, x.value.1), p) else 0.0)
  }

  /** The top area the adjacent children resting on `node` need, along its length (`lengthwise`) or its width. */
  function TopNeed(g: Digraph, sg: seq<SceneObject>, node: string, rot: Rotation, kids: seq<string>, lengthwise: bool): real
    decreases |kids|
  {
    if |kids| == 0 then 0.0
    else
      var k := kids[|kids| - 1];
      var x := Resolved(k, sg);
      TopNeed(g, sg, node, rot, kids[..|kids| - 1], lengthwise) +
      (if WeightOf(g, node, k) == Some(Weight(On, true)) && x.Some? then
         var f := OnFootprint(x.value.0.size, RotDiff(rot, x.value.1));
         if lengthwise then f.0 else f.1
       else 0.0)
  }

  /**
   * The loop over the out-edges fails exactly when some child cannot be looked up or its
   * rotation resolved (`LoadFails`); otherwise each side holds the sum over the adjacent
   * children on that side (non-adjacent ones are not counted; `LoadMeaning`) and the top holds
   * the sum of the adjacent children on it (`LoadTopMeaning`).
   */
  lemma {:induction false} LoadFails(g: Digraph, sg: seq<SceneObject>, node: string, rot: Rotation, kids: seq<string>)
    requires forall v :: v in kids ==> HasEdge(g, node, v)
    ensures LoadFold(g, sg, node, rot, kids).Err? <==> exists k :: k in kids && Resolved(k, sg).None?
    decreases |kids|
  {
    if |kids| > 0 {
      var pre := kids[..|kids| - 1];
      var k := kids[|kids| - 1];
      LoadFails(g, sg, node, rot, pre);
      assert kids == pre + [k];
      var prev := LoadFold(g, sg, node, rot, pre);
      if prev.Ok? {
        LoadStepMeaning(g, sg, node, rot, prev.value, k);
      }
    }
  }

  lemma {:induction false} LoadMeaning(g: Digraph, sg: seq<SceneObject>, node: string, rot: Rotation, kids: seq<string>)
    requires forall v :: v in kids ==> HasEdge(g, node, v)
    requires LoadFold(g, sg, node, rot, kids).Ok?
    ensures forall p :: IsDirectional(p) ==> Side(LoadFold(g, sg, node, rot, kids).value.sides, p) == RowNeed(g, sg, node, rot, kids, p)
    decreases |kids|
  {
    if |kids| > 0 {
      var pre := kids[..|kids| - 1];
      var k := kids[|kids| - 1];
      var ld := LoadFold(g, sg, node, rot, pre).value;
      LoadMeaning(g, sg, node, rot, pre);
      LoadStepMeaning(g, sg, node, rot, ld, k);
      var next := LoadFold(g, sg, node, rot, kids).value;
      assert LoadStep(g, sg, node, rot, ld, k) == Ok(next);
      var x := Resolved(k, sg).value;
      forall p | IsDirectional(p) ensures Side(next.sides, p) == RowNeed(g, sg, node, rot, kids, p) {
        assert RowNeed(g, sg, node, rot, kids, p) == RowNeed(g, sg, node, rot, pre, p) +
          (if WeightOf(g, node, k) == Some(Weight(p, true)) then RowExtent(x.0.size, RotDiff(rot, x.1), p) else 0.0);
      }
    }
  }

  lemma {:induction false} LoadTopMeaning(g: Digraph, sg: seq<SceneObject>, node: string, rot: Rotation, kids: seq<string>)
    requires forall v :: v in kids ==> HasEdge(g, node, v)
    requires LoadFold(g, sg, node, rot, kids).Ok?
    ensures LoadFold(g, sg, node, rot, kids).value.onLength == TopNeed(g, sg, node, rot, kids, true)
    ensures LoadFold(g, sg, node, rot, kids).value.onWidth == TopNeed(g, sg, node, rot, kids, false)
    decreases |kids|
  {
    if |kids| > 0 {
      var pre := kids[..|kids| - 1];
      var k := kids[|kids| - 1];
      var ld := LoadFold(g, sg, node, rot, pre).value;
      LoadTopMeaning(g, sg, node, rot, pre);
      LoadStepMeaning(g, sg, node, rot, ld, k);
      var next := LoadFold(g, sg, node, rot, kids).value;
      assert LoadStep(g, sg, node, rot, ld, k) == Ok(next);
    }
  }

  lemma LoadStepMeaning(g: Digraph, sg: seq<SceneObject>, node: string, rot: Rotation, ld: Load, k: string)
    requires HasEdge(g, node, k)
    ensures LoadStep(g, sg, node, rot, ld, k).Err? <==> Resolved(k, sg).None?
    ensures LoadStep(g, sg, node, rot, ld, k).Ok? ==>
            var x := Resolved(k, sg).value;
            var next := LoadStep(g, sg, node, rot, ld, k).value;
            (forall p :: IsDirectional(p) ==>
               Side(next.sides, p) ==
               Side(ld.sides, p) + (if WeightOf(g, node, k) == Some(Weight(p, true)) then RowExtent(x.0.size, RotDiff(rot, x.1), p) else 0.0)) &&
            (WeightOf(g, node, k) == Some(Weight(On, true)) ==>
               var f := OnFootprint(x.0.size, RotDiff(rot, x.1));
               next.onLength == ld.onLength + f.0 && next.onWidth == ld.onWidth + f.1) &&
            (WeightOf(g, node, k) != Some(Weight(On, true)) ==> next.onLength == ld.onLength && next.onWidth == ld.onWidth)
  {
  }

  lemma {:induction false} SideChecksMembers(g: Digraph, node: string, s: Size, ld: Load, kids: seq<string>, ps: seq<Prep>)
    ensures forall c :: c in SideChecks(g, node, s, ld, kids, ps) <==>
              c.SideTooSmall? && c.node == node && c.side in ps && Capacity(s, c.side) < Side(ld.sides, c.side) &&
              c.children == WithPrep(g, node, kids, c.side)
    decreases |ps|
  {
    if |ps| > 0 {
      SideChecksMembers(g, node, s, ld, kids, ps[..|ps| - 1]);
      assert ps == ps[..|ps| - 1] + [ps[|ps| - 1]];
    }
  }

  /**
   * For an object, `check_size_conflicts` fails exactly when the object or one of its
   * children cannot be looked up or its rotation resolved. Otherwise it reports side `p`
   * exactly when the object's length (front, behind) or width (left, right) is less than
   * the row its adjacent children on that side need, listing every child on that side; and
   * the top exactly when the children resting on it need more length or width than it has.
   */
  lemma ObjectSizeFails(g: Digraph, sg: seq<SceneObject>, node: string)
    ensures ObjectSizeNode(g, sg, node).Err? <==>
            Resolved(node, sg).None? || exists k :: k in Succs(g, node) && Resolved(k, sg).None?
  {
    if Resolved(node, sg).Some? {
      LoadFails(g, sg, node, Resolved(node, sg).value.1, Succs(g, node));
    }
  }

  lemma ObjectSizeMembers(g: Digraph, sg: seq<SceneObject>, node: string)
    requires ObjectSizeNode(g, sg, node).Ok?
    ensures Resolved(node, sg).Some?
    ensures var o := Resolved(node, sg).value.0;
            var rot := Resolved(node, sg).value.1;
            var kids := Succs(g, node);
            forall c :: c in ObjectSizeNode(g, sg, node).value <==>
              (c.SideTooSmall? && c.node == node && c.side in SideOrder &&
               Capacity(o.size, c.side) < RowNeed(g, sg, node, rot, kids, c.side) && c.children == WithPrep(g, node, kids, c.side)) ||
              (c.AreaTooSmall? && c.node == node && c.children == WithPrep(g, node, kids, On) &&
               (o.size.length < TopNeed(g, sg, node, rot, kids, true) || o.size.width < TopNeed(g, sg, node, rot, kids, false)))
  {
    var kids := Succs(g, node);
    var o := Lookup(node, sg).value;
    var rot := GetRotation(o, sg, Fuel(sg)).value;
    assert Resolved(node, sg) == Some((o, rot));
    var ld := LoadFold(g, sg, node, rot, kids).value;
    assert ObjectSizeNode(g, sg, node).value == SideChecks(g, node, o.size, ld, kids, SideOrder) + AreaCheck(g, node, o.size, ld, kids);
    LoadMeaning(g, sg, node, rot, kids);
    LoadTopMeaning(g, sg, node, rot, kids);
    ChecksMembers(g, node, o.size, ld, kids);
    assert forall p :: p in SideOrder ==> IsDirectional(p);
  }

  /** The conflicts of an object node, in terms of the load on it. */
  lemma ChecksMembers(g: Digraph, node: string, s: Size, ld: Load, kids: seq<string>)
    ensures forall c :: c in SideChecks(g, node, s, ld, kids, SideOrder) + AreaCheck(g, node, s, ld, kids) <==>
              (c.SideTooSmall? && c.node == node && c.side in SideOrder && Capacity(s, c.side) < Side(ld.sides, c.side) &&
               c.children == WithPrep(g, node, kids, c.side)) ||
              (c.AreaTooSmall? && c.node == node && c.children == WithPrep(g, node, kids, On) &&
               (s.length < ld.onLength || s.width < ld.onWidth))
  {
    SideChecksMembers(g, node, s, ld, kids, SideOrder);
  }

  /**
   * Every member a wall or the floor counts comes after it in the topological order, and
   * with non-negative sizes both spans are non-negative.
   */
  lemma {:induction false} SpanBounds(g: Digraph, sg: seq<SceneObject>, order: seq<string>, node: string, rot: Rotation,
                                      kids: seq<string>)
    requires WellFormed(g) && IsTopoOrder(g, order) && node in order
    requires forall v :: v in kids ==> v in order && HasEdge(g, node, v)
    ensures SpanFold(g, sg, order, node, rot, kids).Ok? ==>
            forall m :: m in SpanFold(g, sg, order, node, rot, kids).value.members ==> After(order, node, m)
    ensures SizesNonNegative(sg) && SpanFold(g, sg, order, node, rot, kids).Ok? ==>
            0.0 <= SpanFold(g, sg, order, node, rot, kids).value.along &&
            0.0 <= SpanFold(g, sg, order, node, rot, kids).value.across
    decreases |kids|
  {
    if |kids| > 0 {
      var pre := kids[..|kids| - 1];
      var k := kids[|kids| - 1];
      SpanBounds(g, sg, order, node, rot, pre);
      var sp := SpanFold(g, sg, order, node, rot, pre);
      if sp.Ok? {
        SpanStepBounds(g, sg, order, node, rot, sp.value, k);
      }
    }
  }

  lemma SpanStepBounds(g: Digraph, sg: seq<SceneObject>, order: seq<string>, node: string, rot: Rotation,
                       sp: Span, k: string)
    requires WellFormed(g) && IsTopoOrder(g, order) && node in order && k in order && HasEdge(g, node, k)
    requires forall m :: m in sp.members ==> After(order, node, m)
    ensures SpanStep(g, sg, order, node, rot, sp, k).Ok? ==>
            forall m :: m in SpanStep(g, sg, order, node, rot, sp, k).value.members ==> After(order, node, m)
    ensures SizesNonNegative(sg) && 0.0 <= sp.along && 0.0 <= sp.across && SpanStep(g, sg, order, node, rot, sp, k).Ok? ==>
            0.0 <= SpanStep(g, sg, order, node, rot, sp, k).value.along &&
            0.0 <= SpanStep(g, sg, order, node, rot, sp, k).value.across
  {
    EdgeGoesForward(g, order, node, k);
    ClusterSizeAfter(g, sg, order, k);
    var sub := ClusterSize(g, sg, order, k);
    if sub.Ok? {
      forall m | m in sub.value.members ensures After(order, node, m) {
        assert After(order, k, m);
      }
      if SizesNonNegative(sg) {
        ClusterSizeNonNegative(g, sg, order, k);
      }
    }
  }

  /**
   * For a wall or the floor, the check reports the length (and, for the floor, the width)
   * exactly when it is less than the span its floor-standing clusters need; a wall is never
   * reported widthwise.
   */
  lemma SpanChecksExact(node: string, s: Size, sp: Span)
    ensures forall c :: c in SpanChecks(node, s, sp) <==>
              c.LayoutTooSmall? && c.node == node && c.members == sp.members &&
              (if c.widthwise then node == MiddleOfRoom && s.width < sp.across else s.length < sp.along)
  {
  }

  /**
   * `check_size_conflicts` fails exactly when the branch for some node of the graph fails,
   * and otherwise reports exactly what the branches for the nodes report.
   */
  lemma SizeConflictsExact(g: Digraph, sg: seq<SceneObject>, priors: seq<SceneObject>, order: seq<string>)
    requires WellFormed(g) && IsTopoOrder(g, order)
    ensures SizeConflicts(g, sg, priors, order).Err? <==>
            exists n :: n in order && SizeNode(g, sg, priors, order, n).Err?
    ensures SizeConflicts(g, sg, priors, order).Ok? ==>
            forall c :: c in SizeConflicts(g, sg, priors, order).value <==>
              exists n :: n in order && SizeNode(g, sg, priors, order, n).Ok? && c in SizeNode(g, sg, priors, order, n).value
  {
    var f := n => SizeNode(g, sg, priors, order, n);
    var rev := Reversed(order);
    ConcatScanMembers(f, rev);
    ReversedMembers(order);
    if exists n :: n in order && f(n).Err? {
      var n :| n in order && f(n).Err?;
      assert n in rev;
      var k :| 0 <= k < |rev| && rev[k] == n;
    }
  }
}
