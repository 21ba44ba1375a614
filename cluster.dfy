/**
 * `get_cluster_size` of utils.py: the footprint that the directional descendants of an
 * object take up on each of its four sides, and the set of descendants it has counted.
 */
module Cluster {
  import opened Wrappers
  import opened Geometry
  import opened Scene
  import opened Graph
  import opened Relations

  /** The `size_constraint` dictionary: the extent of the cluster on each side. */
  datatype Extents = Extents(left: real, right: real, behind: real, front: real)

  const NoExtent: Extents := Extents(0.0, 0.0, 0.0, 0.0)

  /** `size_constraint[p]` for a directional preposition. */
  function Side(e: Extents, p: Prep): real {
    match p
    case LeftOf => e.left
    case RightOf => e.right
    case Behind => e.behind
    case InFront => e.front
    case _ => 0.0
  }

  /** `size_constraint[p] = v`. */
  function WithSide(e: Extents, p: Prep, v: real): (r: Extents)
    requires IsDirectional(p)
    ensures Side(r, p) == v
    ensures forall q :: q != p ==> Side(r, q) == Side(e, q)
  {
    match p
    case LeftOf => e.(left := v)
    case RightOf => e.(right := v)
    case Behind => e.(behind := v)
    case _ => e.(front := v)
  }

  predicate ExtentsNonNegative(e: Extents) {
    0.0 <= e.left && 0.0 <= e.right && 0.0 <= e.behind && 0.0 <= e.front
  }

  /** `get_object_from_scene_graph` followed by a lookup that fails on `None`. */
  function Lookup(id: string, sg: seq<SceneObject>): (r: Result<SceneObject, SceneError>)
    ensures r.Ok? ==> r.value in sg && r.value.id == id
    ensures r.Err? <==> forall o :: o in sg ==> o.id != id
  {
    match Find(id, sg)
    case None => Err(MissingObject(id))
    case Some(o) => Ok(o)
  }

  /** `abs(node_obj_rot - edge_obj_rot)`, in degrees. */
  function RotDiff(a: Rotation, b: Rotation): (d: nat)
    ensures d < 360 && d % 90 == 0
  {
    var x := Degrees(a) - Degrees(b);
    if x < 0 then -x else x
  }

  /** A difference of rotations is a multiple of a half turn exactly when both lie on the same axis. */
  lemma HalfTurnApart(a: Rotation, b: Rotation)
    ensures RotDiff(a, b) % 180 == 0 <==> IsSideways(a) == IsSideways(b)
  {
    match a
    case R0 => {
      match b
      case R0 => {} case R90 => {} case R180 => {} case R270 => {}
    }
    case R90 => {
      match b
      case R0 => {} case R90 => {} case R180 => {} case R270 => {}
    }
    case R180 => {
      match b
      case R0 => {} case R90 => {} case R180 => {} case R270 => {}
    }
    case R270 => {
      match b
      case R0 => {} case R90 => {} case R180 => {} case R270 => {}
    }
  }

  /** The source's `direction_check(diff, prep)`. */
  predicate DirectionCheck(diff: int, p: Prep) {
    (diff % 180 == 0 && (p == LeftOf || p == RightOf)) || (diff % 90 == 0 && (p == InFront || p == Behind))
  }

  /**
   * Between two of the four rotations the check holds for every front or behind edge, and for
   * a left or right edge only when the two objects lie on the same axis.
   */
  lemma DirectionCheckMeaning(a: Rotation, b: Rotation, p: Prep)
    ensures DirectionCheck(RotDiff(a, b), p) <==>
            (p == InFront || p == Behind) || ((p == LeftOf || p == RightOf) && IsSideways(a) == IsSideways(b))
  {
    HalfTurnApart(a, b);
  }

  /** `size_in_meters["length"]` when `long`, else `size_in_meters["width"]`. */
  function Dimension(s: Size, long: bool): real {
    if long then s.length else s.width
  }

  /**
   * `value_to_add`: the child's own length (along) or width (across), plus its cluster's two
   * extents on the same axis.
   */
  function Contribution(size: Size, sub: Extents, long: bool): real {
    Dimension(size, long) + (if long then sub.left + sub.right else sub.front + sub.behind)
  }

  /** Adjacent children on one side share the row, so the widest counts; others line up one after another. */
  function Combine(adjacent: bool, prev: real, v: real): real {
    if adjacent then Max(prev, v) else prev + v
  }

  /** `topological_outgoing_nodes`: the targets of `node`'s out-edges, the latest in `order` first. */
  function LatestFirstChildren(g: Digraph, node: string, order: seq<string>): (r: seq<string>)
    ensures forall v :: v in r <==> v in order && HasEdge(g, node, v)
    decreases |order|
  {
    if |order| == 0 then []
    else
      var v := order[|order| - 1];
      (if HasEdge(g, node, v) then [v] else []) + LatestFirstChildren(g, node, order[..|order| - 1])
  }

  /** What `get_cluster_size` returns: the extents and `children_objs`. */
  datatype Cluster = Cluster(ext: Extents, members: set<string>)

  /** `get_cluster_size(node, G, scene_graph)`, with `order` the topological order of `G`. */
  function ClusterSize(g: Digraph, sg: seq<SceneObject>, order: seq<string>, node: string): Result<Cluster, SceneError>
    requires WellFormed(g) && IsTopoOrder(g, order) && node in order
    decreases |order| - Rank(order, node), 1, 0
  {
    var o :- Lookup(node, sg);
    var rot :- GetRotation(o, sg, Fuel(sg));
    ClusterFold(g, sg, order, node, rot, LatestFirstChildren(g, node, order))
  }

  /** The loop over `outgoing_e_sorted`, as far as `kids`. */
  function ClusterFold(g: Digraph, sg: seq<SceneObject>, order: seq<string>, node: string, rot: Rotation,
                       kids: seq<string>): Result<Cluster, SceneError>
    requires WellFormed(g) && IsTopoOrder(g, order) && node in order
    requires forall v :: v in kids ==> HasEdge(g, node, v)
    decreases |order| - Rank(order, node), 0, |kids|
  {
    if |kids| == 0 then Ok(Cluster(NoExtent, {}))
    else
      var acc :- ClusterFold(g, sg, order, node, rot, kids[..|kids| - 1]);
      ClusterStep(g, sg, order, node, rot, acc, kids[|kids| - 1])
  }

  /**
   * One edge `node -> child`: skipped when `child` is already counted or the edge is not
   * directional; otherwise the child's own extent along the side's axis plus its cluster's
   * two extents on that axis, combined by max when adjacent and added otherwise.
   */
  function ClusterStep(g: Digraph, sg: seq<SceneObject>, order: seq<string>, node: string, rot: Rotation,
                       acc: Cluster, child: string): Result<Cluster, SceneError>
    requires WellFormed(g) && IsTopoOrder(g, order) && node in order && HasEdge(g, node, child)
    decreases |order| - Rank(order, node), 0, 0
  {
    var w := WeightOf(g, node, child).value;
    if child in acc.members || !IsDirectional(w.prep) then Ok(acc)
    else
      var o :- Lookup(child, sg);
      var crot :- GetRotation(o, sg, Fuel(sg));
      var long := DirectionCheck(RotDiff(rot, crot), w.prep);
      EdgeGoesForward(g, order, node, child);
      var sub :- ClusterSize(g, sg, order, child);
      var v := Contribution(o.size, sub.ext, long);
      Ok(Cluster(WithSide(acc.ext, w.prep, Combine(w.adjacent, Side(acc.ext, w.prep), v)),
                 acc.members + {child} + sub.members))
  }

  /** `get_cluster_size`: a recursive method whose loop walks the children latest first. */
  method GetClusterSize(g: Digraph, sg: seq<SceneObject>, order: seq<string>, node: string)
    returns (r: Result<Cluster, SceneError>)
    requires WellFormed(g) && IsTopoOrder(g, order) && node in order
    ensures r == ClusterSize(g, sg, order, node)
    decreases |order| - Rank(order, node), 2
  {
    var o := Lookup(node, sg);
    if o.Err? {
      return Err(o.error);
    }
    var rot := GetRotation(o.value, sg, Fuel(sg));
    if rot.Err? {
      return Err(rot.error);
    }
    r := ClusterChildren(g, sg, order, node, rot.value, LatestFirstChildren(g, node, order));
  }

  /** The loop of `get_cluster_size` over the children, latest in the topological order first. */
  method ClusterChildren(g: Digraph, sg: seq<SceneObject>, order: seq<string>, node: string, rot: Rotation,
                         kids: seq<string>) returns (r: Result<Cluster, SceneError>)
    requires WellFormed(g) && IsTopoOrder(g, order) && node in order
    requires forall v :: v in kids ==> HasEdge(g, node, v)
    ensures r == ClusterFold(g, sg, order, node, rot, kids)
    decreases |order| - Rank(order, node), 1
  {
    var acc := Cluster(NoExtent, {});
    var i := 0;
    while i < |kids|
      invariant 0 <= i <= |kids|
      invariant ClusterFold(g, sg, order, node, rot, kids[..i]) == Ok(acc)
    {
      assert kids[..i + 1][..i] == kids[..i];
      assert kids[i] in kids;
      var next := AddChild(g, sg, order, node, rot, acc, kids[i]);
      if next.Err? {
        ClusterFoldErrStays(g, sg, order, node, rot, kids, i + 1);
        return Err(next.error);
      }
      acc := next.value;
      i := i + 1;
    }
    assert kids[..i] == kids;
    r := Ok(acc);
  }

  /** The body of the loop over the children, for one child. */
  method AddChild(g: Digraph, sg: seq<SceneObject>, order: seq<string>, node: string, rot: Rotation,
                  acc: Cluster, child: string) returns (r: Result<Cluster, SceneError>)
    requires WellFormed(g) && IsTopoOrder(g, order) && node in order && HasEdge(g, node, child)
    ensures r == ClusterStep(g, sg, order, node, rot, acc, child)
    decreases |order| - Rank(order, node), 0
  {
    var w := WeightOf(g, node, child).value;
    if child in acc.members || !IsDirectional(w.prep) {
      return Ok(acc);
    }
    var co := Lookup(child, sg);
    if co.Err? {
      return Err(co.error);
    }
    var crot := GetRotation(co.value, sg, Fuel(sg));
    if crot.Err? {
      return Err(crot.error);
    }
    var long := DirectionCheck(RotDiff(rot, crot.value), w.prep);
    EdgeGoesForward(g, order, node, child);
    var sub := GetClusterSize(g, sg, order, child);
    if sub.Err? {
      return Err(sub.error);
    }
    var v := Contribution(co.value.size, sub.value.ext, long);
    r := Ok(Cluster(WithSide(acc.ext, w.prep, Combine(w.adjacent, Side(acc.ext, w.prep), v)),
                    acc.members + {child} + sub.value.members));
  }

  lemma {:induction false} ClusterFoldErrStays(g: Digraph, sg: seq<SceneObject>, order: seq<string>, node: string,
                                               rot: Rotation, kids: seq<string>, i: nat)
    requires WellFormed(g) && IsTopoOrder(g, order) && node in order
    requires forall v :: v in kids ==> HasEdge(g, node, v)
    requires i <= |kids| && ClusterFold(g, sg, order, node, rot, kids[..i]).Err?
    ensures ClusterFold(g, sg, order, node, rot, kids) == ClusterFold(g, sg, order, node, rot, kids[..i])
    decreases |kids| - i
  {
    if i < |kids| {
      assert kids[..|kids| - 1][..i] == kids[..i];
      ClusterFoldErrStays(g, sg, order, node, rot, kids[..|kids| - 1], i);
    } else {
      assert kids[..i] == kids;
    }
  }

  // ---------------------------------------------------------------- properties

  predicate SizesNonNegative(sg: seq<SceneObject>) {
    forall o :: o in sg ==> 0.0 <= o.size.length && 0.0 <= o.size.width
  }

  /** `n` comes strictly after `node` in the topological order: a proper descendant's place. */
  predicate After(order: seq<string>, node: string, n: string)
    requires node in order
  {
    n in order && Rank(order, node) < Rank(order, n)
  }

  /** With non-negative object sizes every extent of a cluster is non-negative. */
  lemma {:induction false} ClusterSizeNonNegative(g: Digraph, sg: seq<SceneObject>, order: seq<string>, node: string)
    requires WellFormed(g) && IsTopoOrder(g, order) && node in order && SizesNonNegative(sg)
    ensures ClusterSize(g, sg, order, node).Ok? ==> ExtentsNonNegative(ClusterSize(g, sg, order, node).value.ext)
    decreases |order| - Rank(order, node), 1, 0
  {
    var o := Lookup(node, sg);
    if o.Ok? {
      var rot := GetRotation(o.value, sg, Fuel(sg));
      if rot.Ok? {
        ClusterFoldNonNegative(g, sg, order, node, rot.value, LatestFirstChildren(g, node, order));
      }
    }
  }

  lemma {:induction false} ClusterFoldNonNegative(g: Digraph, sg: seq<SceneObject>, order: seq<string>, node: string,
                                                  rot: Rotation, kids: seq<string>)
    requires WellFormed(g) && IsTopoOrder(g, order) && node in order && SizesNonNegative(sg)
    requires forall v :: v in kids ==> HasEdge(g, node, v)
    ensures ClusterFold(g, sg, order, node, rot, kids).Ok? ==>
            ExtentsNonNegative(ClusterFold(g, sg, order, node, rot, kids).value.ext)
    decreases |order| - Rank(order, node), 0, |kids|
  {
    if |kids| > 0 {
      var pre := kids[..|kids| - 1];
      ClusterFoldNonNegative(g, sg, order, node, rot, pre);
      var acc := ClusterFold(g, sg, order, node, rot, pre);
      if acc.Ok? {
        ClusterStepNonNegative(g, sg, order, node, rot, acc.value, kids[|kids| - 1]);
      }
    }
  }

  lemma {:induction false} ClusterStepNonNegative(g: Digraph, sg: seq<SceneObject>, order: seq<string>, node: string,
                                                  rot: Rotation, acc: Cluster, child: string)
    requires WellFormed(g) && IsTopoOrder(g, order) && node in order && HasEdge(g, node, child)
    requires SizesNonNegative(sg) && ExtentsNonNegative(acc.ext)
    ensures ClusterStep(g, sg, order, node, rot, acc, child).Ok? ==>
            ExtentsNonNegative(ClusterStep(g, sg, order, node, rot, acc, child).value.ext)
    decreases |order| - Rank(order, node), 0, 0
  {
    var w := WeightOf(g, node, child).value;
    if child !in acc.members && IsDirectional(w.prep) {
      EdgeGoesForward(g, order, node, child);
      ClusterSizeNonNegative(g, sg, order, child);
      var o := Lookup(child, sg);
      var sub := ClusterSize(g, sg, order, child);
      if o.Ok? && GetRotation(o.value, sg, Fuel(sg)).Ok? && sub.Ok? {
        var long := DirectionCheck(RotDiff(rot, GetRotation(o.value, sg, Fuel(sg)).value), w.prep);
        WithSideNonNegative(acc.ext, w.prep, Combine(w.adjacent, Side(acc.ext, w.prep), Contribution(o.value.size, sub.value.ext, long)));
      }
    }
  }

  lemma WithSideNonNegative(e: Extents, p: Prep, v: real)
    requires IsDirectional(p) && ExtentsNonNegative(e) && 0.0 <= v
    ensures ExtentsNonNegative(WithSide(e, p, v))
  {
  }

  /**
   * Every counted member of a cluster comes after the node in the topological order, so no
   * object counts itself or one of its ancestors.
   */
  lemma {:induction false} ClusterSizeAfter(g: Digraph, sg: seq<SceneObject>, order: seq<string>, node: string)
    requires WellFormed(g) && IsTopoOrder(g, order) && node in order
    ensures ClusterSize(g, sg, order, node).Ok? ==>
            forall n :: n in ClusterSize(g, sg, order, node).value.members ==> After(order, node, n)
    decreases |order| - Rank(order, node), 1, 0
  {
    var o := Lookup(node, sg);
    if o.Ok? {
      var rot := GetRotation(o.value, sg, Fuel(sg));
      if rot.Ok? {
        ClusterFoldAfter(g, sg, order, node, rot.value, LatestFirstChildren(g, node, order));
      }
    }
  }

  lemma {:induction false} ClusterFoldAfter(g: Digraph, sg: seq<SceneObject>, order: seq<string>, node: string,
                                            rot: Rotation, kids: seq<string>)
    requires WellFormed(g) && IsTopoOrder(g, order) && node in order
    requires forall v :: v in kids ==> HasEdge(g, node, v)
    ensures ClusterFold(g, sg, order, node, rot, kids).Ok? ==>
            forall n :: n in ClusterFold(g, sg, order, node, rot, kids).value.members ==> After(order, node, n)
    decreases |order| - Rank(order, node), 0, |kids|
  {
    if |kids| > 0 {
      var pre := kids[..|kids| - 1];
      ClusterFoldAfter(g, sg, order, node, rot, pre);
      var acc := ClusterFold(g, sg, order, node, rot, pre);
      if acc.Ok? {
        ClusterStepAfter(g, sg, order, node, rot, acc.value, kids[|kids| - 1]);
      }
    }
  }

  lemma {:induction false} ClusterStepAfter(g: Digraph, sg: seq<SceneObject>, order: seq<string>, node: string,
                                            rot: Rotation, acc: Cluster, child: string)
    requires WellFormed(g) && IsTopoOrder(g, order) && node in order && HasEdge(g, node, child)
    requires forall n :: n in acc.members ==> After(order, node, n)
    ensures ClusterStep(g, sg, order, node, rot, acc, child).Ok? ==>
            forall n :: n in ClusterStep(g, sg, order, node, rot, acc, child).value.members ==> After(order, node, n)
    decreases |order| - Rank(order, node), 0, 0
  {
    var w := WeightOf(g, node, child).value;
    if child !in acc.members && IsDirectional(w.prep) {
      EdgeGoesForward(g, order, node, child);
      ClusterSizeAfter(g, sg, order, child);
      var sub := ClusterSize(g, sg, order, child);
      if sub.Ok? {
        forall n | n in sub.value.members ensures After(order, node, n) {
          assert After(order, child, n);
        }
      }
    }
  }

  /**
   * An object without directional out-edges has an empty cluster: no extent on any side and
   * no members; the only way to fail is its own rotation.
   */
  lemma ClusterSizeLeaf(g: Digraph, sg: seq<SceneObject>, order: seq<string>, node: string)
    requires WellFormed(g) && IsTopoOrder(g, order) && node in order
    requires forall v :: HasEdge(g, node, v) ==> !IsDirectional(WeightOf(g, node, v).value.prep)
    ensures ClusterSize(g, sg, order, node).Ok? <==> RotationOfId(node, sg).Ok?
    ensures ClusterSize(g, sg, order, node).Ok? ==> ClusterSize(g, sg, order, node).value == Cluster(NoExtent, {})
  {
    var o := Lookup(node, sg);
    if o.Ok? {
      var rot := GetRotation(o.value, sg, Fuel(sg));
      if rot.Ok? {
        ClusterFoldLeaf(g, sg, order, node, rot.value, LatestFirstChildren(g, node, order));
      }
    }
  }

  lemma {:induction false} ClusterFoldLeaf(g: Digraph, sg: seq<SceneObject>, order: seq<string>, node: string,
                                           rot: Rotation, kids: seq<string>)
    requires WellFormed(g) && IsTopoOrder(g, order) && node in order
    requires forall v :: v in kids ==> HasEdge(g, node, v) && !IsDirectional(WeightOf(g, node, v).value.prep)
    ensures ClusterFold(g, sg, order, node, rot, kids) == Ok(Cluster(NoExtent, {}))
    decreases |kids|
  {
    if |kids| > 0 {
      ClusterFoldLeaf(g, sg, order, node, rot, kids[..|kids| - 1]);
    }
  }

  // ---------------------------------------------------------------- the sides as the counted children make them

  /** A child that a step of the loop counts: the side it adds to, `adj`, and `value_to_add`. */
  datatype Entry = Entry(prep: Prep, adjacent: bool, v: real)

  /** The child that `ClusterStep` counts on edge `node -> child`, if it counts one and nothing raises. */
  function StepEntry(g: Digraph, sg: seq<SceneObject>, order: seq<string>, node: string, rot: Rotation,
                     acc: Cluster, child: string): (r: Option<Entry>)
    requires WellFormed(g) && IsTopoOrder(g, order) && node in order && HasEdge(g, node, child)
    ensures r.Some? ==> IsDirectional(r.value.prep) && child !in acc.members
  {
    var w := WeightOf(g, node, child).value;
    if child in acc.members || !IsDirectional(w.prep) then None
    else
      match Lookup(child, sg)
      case Err(_) => None
      case Ok(o) =>
        match GetRotation(o, sg, Fuel(sg))
        case Err(_) => None
        case Ok(crot) =>
          EdgeGoesForward(g, order, node, child);
          match ClusterSize(g, sg, order, child)
          case Err(_) => None
          case Ok(sub) => Some(Entry(w.prep, w.adjacent, Contribution(o.size, sub.ext, DirectionCheck(RotDiff(rot, crot), w.prep))))
  }

  /** The children the loop over `kids` counted, in the order it counted them. */
  function Entries(g: Digraph, sg: seq<SceneObject>, order: seq<string>, node: string, rot: Rotation,
                   kids: seq<string>): (r: seq<Entry>)
    requires WellFormed(g) && IsTopoOrder(g, order) && node in order
    requires forall v :: v in kids ==> HasEdge(g, node, v)
    ensures |r| <= |kids|
    decreases |kids|
  {
    if |kids| == 0 then []
    else
      var pre := kids[..|kids| - 1];
      var acc := ClusterFold(g, sg, order, node, rot, pre);
      var e := if acc.Ok? then StepEntry(g, sg, order, node, rot, acc.value, kids[|kids| - 1]) else None;
      Entries(g, sg, order, node, rot, pre) + (if e.Some? then [e.value] else [])
  }

  /** Side `p` after the adjustments for the entries, from `0.0`: `max` for an adjacent one, `+=` otherwise. */
  function SideOf(es: seq<Entry>, p: Prep): real {
    if |es| == 0 then 0.0
    else
      var e, prev := es[|es| - 1], SideOf(es[..|es| - 1], p);
      if e.prep == p then Combine(e.adjacent, prev, e.v) else prev
  }

  /** The sum of `value_to_add` over the entries on side `p`, first to last. */
  function SumOn(es: seq<Entry>, p: Prep): real {
    if |es| == 0 then 0.0 else (if es[0].prep == p then es[0].v else 0.0) + SumOn(es[1..], p)
  }

  /** A step changes at most the side of the child it counts, by `max` or `+=`. */
  lemma StepEntryAgrees(g: Digraph, sg: seq<SceneObject>, order: seq<string>, node: string, rot: Rotation,
                        acc: Cluster, child: string)
    requires WellFormed(g) && IsTopoOrder(g, order) && node in order && HasEdge(g, node, child)
    ensures var r, e := ClusterStep(g, sg, order, node, rot, acc, child), StepEntry(g, sg, order, node, rot, acc, child);
            r.Ok? ==>
              (e.None? ==> r.value.ext == acc.ext) &&
              (e.Some? ==> r.value.ext == WithSide(acc.ext, e.value.prep, Combine(e.value.adjacent, Side(acc.ext, e.value.prep), e.value.v)))
  {
  }

  /** Every side of the result of the loop over `kids` is what the adjustments for its counted children give. */
  lemma {:induction false} ClusterFoldSides(g: Digraph, sg: seq<SceneObject>, order: seq<string>, node: string,
                                            rot: Rotation, kids: seq<string>, p: Prep)
    requires WellFormed(g) && IsTopoOrder(g, order) && node in order && IsDirectional(p)
    requires forall v :: v in kids ==> HasEdge(g, node, v)
    ensures ClusterFold(g, sg, order, node, rot, kids).Ok? ==>
            Side(ClusterFold(g, sg, order, node, rot, kids).value.ext, p) == SideOf(Entries(g, sg, order, node, rot, kids), p)
    decreases |kids|
  {
    if |kids| > 0 && ClusterFold(g, sg, order, node, rot, kids).Ok? {
      var pre := kids[..|kids| - 1];
      ClusterFoldSides(g, sg, order, node, rot, pre, p);
      var acc := ClusterFold(g, sg, order, node, rot, pre).value;
      StepEntryAgrees(g, sg, order, node, rot, acc, kids[|kids| - 1]);
      var es := Entries(g, sg, order, node, rot, pre);
      var e := StepEntry(g, sg, order, node, rot, acc, kids[|kids| - 1]);
      var r := ClusterFold(g, sg, order, node, rot, kids).value;
      assert ClusterStep(g, sg, order, node, rot, acc, kids[|kids| - 1]) == Ok(r);
      if e.Some? {
        var all := es + [e.value];
        assert Entries(g, sg, order, node, rot, kids) == all;
        assert all[..|es|] == es;
        assert SideOf(all, p) == if e.value.prep == p then Combine(e.value.adjacent, SideOf(es, p), e.value.v) else SideOf(es, p);
      } else {
        assert Entries(g, sg, order, node, rot, kids) == es + [];
        assert es + [] == es;
      }
    }
  }

  /** With non-negative sizes every counted child adds a non-negative `value_to_add`. */
  lemma {:induction false} EntriesNonNegative(g: Digraph, sg: seq<SceneObject>, order: seq<string>, node: string,
                                              rot: Rotation, kids: seq<string>)
    requires WellFormed(g) && IsTopoOrder(g, order) && node in order && SizesNonNegative(sg)
    requires forall v :: v in kids ==> HasEdge(g, node, v)
    ensures forall e :: e in Entries(g, sg, order, node, rot, kids) ==> 0.0 <= e.v
    decreases |kids|
  {
    if |kids| > 0 {
      var pre := kids[..|kids| - 1];
      EntriesNonNegative(g, sg, order, node, rot, pre);
      var child := kids[|kids| - 1];
      assert child in kids;
      EdgeGoesForward(g, order, node, child);
      ClusterSizeNonNegative(g, sg, order, child);
    }
  }

  /** With non-negative values a side is at least every value added to it. */
  lemma {:induction false} SideOfCovers(es: seq<Entry>, p: Prep)
    requires forall e :: e in es ==> 0.0 <= e.v
    ensures 0.0 <= SideOf(es, p)
    ensures forall i :: 0 <= i < |es| && es[i].prep == p ==> es[i].v <= SideOf(es, p)
    decreases |es|
  {
    if |es| > 0 {
      var pre := es[..|es| - 1];
      assert forall e :: e in pre ==> e in es;
      SideOfCovers(pre, p);
      assert forall i :: 0 <= i < |pre| ==> pre[i] == es[i];
    }
  }

  /** When every value on side `p` is adjacent, the side is the largest of them, or `0.0` when larger. */
  lemma {:induction false} SideOfAdjacent(es: seq<Entry>, p: Prep)
    requires forall i :: 0 <= i < |es| && es[i].prep == p ==> es[i].adjacent
    ensures forall i :: 0 <= i < |es| && es[i].prep == p ==> es[i].v <= SideOf(es, p)
    ensures SideOf(es, p) == 0.0 || exists i :: 0 <= i < |es| && es[i].prep == p && SideOf(es, p) == es[i].v
    ensures 0.0 <= SideOf(es, p)
    decreases |es|
  {
    if |es| > 0 {
      var pre := es[..|es| - 1];
      assert forall i :: 0 <= i < |pre| ==> pre[i] == es[i];
      SideOfAdjacent(pre, p);
    }
  }

  lemma {:induction false} SumOnSnoc(es: seq<Entry>, e: Entry, p: Prep)
    ensures SumOn(es + [e], p) == SumOn(es, p) + (if e.prep == p then e.v else 0.0)
    decreases |es|
  {
    if |es| > 0 {
      assert (es + [e])[1..] == es[1..] + [e];
      SumOnSnoc(es[1..], e, p);
    } else {
      assert (es + [e])[1..] == [];
    }
  }

  /** When no value on side `p` is adjacent, the side is their sum. */
  lemma {:induction false} SideOfApart(es: seq<Entry>, p: Prep)
    requires forall i :: 0 <= i < |es| && es[i].prep == p ==> !es[i].adjacent
    ensures SideOf(es, p) == SumOn(es, p)
    decreases |es|
  {
    if |es| > 0 {
      var pre := es[..|es| - 1];
      assert forall i :: 0 <= i < |pre| ==> pre[i] == es[i];
      SideOfApart(pre, p);
      assert pre + [es[|es| - 1]] == es;
      SumOnSnoc(pre, es[|es| - 1], p);
    }
  }

  /**
   * The sides the loop over `kids` builds, against the children it counted: with non-negative
   * sizes every side is at least each `value_to_add` on it; a side whose children are all
   * adjacent is their largest (or `0.0` when none), and one whose children are all apart is their sum.
   */
  lemma ClusterFoldCombines(g: Digraph, sg: seq<SceneObject>, order: seq<string>, node: string,
                            rot: Rotation, kids: seq<string>, p: Prep)
    requires WellFormed(g) && IsTopoOrder(g, order) && node in order && IsDirectional(p)
    requires forall v :: v in kids ==> HasEdge(g, node, v)
    ensures var r, es := ClusterFold(g, sg, order, node, rot, kids), Entries(g, sg, order, node, rot, kids);
            r.Ok? ==>
              (SizesNonNegative(sg) ==> forall i :: 0 <= i < |es| && es[i].prep == p ==> es[i].v <= Side(r.value.ext, p)) &&
              ((forall i :: 0 <= i < |es| && es[i].prep == p ==> es[i].adjacent) ==>
                 (forall i :: 0 <= i < |es| && es[i].prep == p ==> es[i].v <= Side(r.value.ext, p)) &&
                 (Side(r.value.ext, p) == 0.0 || exists i :: 0 <= i < |es| && es[i].prep == p && Side(r.value.ext, p) == es[i].v)) &&
              ((forall i :: 0 <= i < |es| && es[i].prep == p ==> !es[i].adjacent) ==> Side(r.value.ext, p) == SumOn(es, p))
  {
    var es := Entries(g, sg, order, node, rot, kids);
    ClusterFoldSides(g, sg, order, node, rot, kids, p);
    if SizesNonNegative(sg) {
      EntriesNonNegative(g, sg, order, node, rot, kids);
      SideOfCovers(es, p);
    }
    if forall i :: 0 <= i < |es| && es[i].prep == p ==> es[i].adjacent {
      SideOfAdjacent(es, p);
    }
    if forall i :: 0 <= i < |es| && es[i].prep == p ==> !es[i].adjacent {
      SideOfApart(es, p);
    }
  }
}
