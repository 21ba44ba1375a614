/**
 * The structural conflict checks of utils.py that read the graph only:
 * `find_room_layout_conflicts` and `check_corner_relationships`.
 * A conflict message is modelled by a record of the data the message names.
 */
module Conflicts {
  import opened Wrappers
  import opened Constraints
  import opened Scene
  import opened Graph
  import opened Rewrites

  /** A room corner, named by its two walls. */
  datatype Corner = Corner(first: string, second: string)

  /** The corners the source checks, in its order. */
  const Corners: seq<Corner> := [Corner(SouthWall, WestWall), Corner(SouthWall, EastWall),
                                 Corner(NorthWall, WestWall), Corner(NorthWall, EastWall)]

  /** The conflicts reported back to the scene graph generator. */
  datatype Conflict =
    | ParentsDisagree(node: string, parents: seq<string>)
    | CornerCrowded(corner: Corner, occupants: seq<string>, vacant: set<Corner>)
    | CornerNeedsTwoWalls(node: string, vacant: set<Corner>)
    | WallOutOfBounds(node: string, parent: string, wall: string, prep: Prep)
    | CornerOutOfBounds(node: string, parent: string, walls: seq<string>, preps: seq<Prep>)
    | SideTaken(child: string, node: string, parent: string)

  // ---------------------------------------------------------------- find_room_layout_conflicts

  /** An entry of `node_layout`: a layout element id, or the empty attribute dict `{}`. */
  datatype Label = Element(id: string) | Blank

  /** `node_layout[n]`; every node starts out with its empty attribute dict. */
  function LabelOf(m: map<string, Label>, n: string): Label {
    if n in m then m[n] else Blank
  }

  /** The flag `different_parent_room_layout`: a later parent's entry differs from the first's. */
  predicate Differs(m: map<string, Label>, ps: seq<string>) {
    exists k :: 1 <= k < |ps| && LabelOf(m, ps[k]) != LabelOf(m, ps[0])
  }

  predicate IsCornerEdge(g: Digraph, u: string, v: string) {
    WeightOf(g, u, v).Some? && WeightOf(g, u, v).value.prep == InCorner
  }

  predicate AllCorner(g: Digraph, n: string, ps: seq<string>) {
    forall k :: 0 <= k < |ps| ==> IsCornerEdge(g, ps[k], n)
  }

  /** Disagreeing parents are a conflict unless every edge is a corner edge or one parent is the ceiling. */
  predicate Disputable(g: Digraph, n: string, ps: seq<string>) {
    !AllCorner(g, n, ps) && Ceiling !in ps
  }

  datatype LayoutScan = LayoutScan(labels: map<string, Label>, conflicts: seq<Conflict>)

  /** One iteration of the loop over the topological order. */
  function ScanNode(g: Digraph, st: LayoutScan, n: string): Result<LayoutScan, SceneError> {
    if IsLayoutId(n) then Ok(st.(labels := st.labels[n := Element(n)]))
    else
      var ps := Preds(g, n);
      if |ps| > 0 && Differs(st.labels, ps) then
        if Disputable(g, n, ps) then Ok(st.(conflicts := st.conflicts + [ParentsDisagree(n, ps)]))
        else Ok(st.(labels := st.labels[n := Blank]))
      else if |ps| == 0 then Err(NoParents(n))
      else Ok(st.(labels := st.labels[n := LabelOf(st.labels, ps[0])]))
  }

  function ScanSpec(g: Digraph, order: seq<string>): Result<LayoutScan, SceneError>
    decreases |order|
  {
    if |order| == 0 then Ok(LayoutScan(map[], []))
    else
      var st :- ScanSpec(g, order[..|order| - 1]);
      ScanNode(g, st, order[|order| - 1])
  }

  function RoomLayoutConflicts(g: Digraph, order: seq<string>): Result<seq<Conflict>, SceneError> {
    var st :- ScanSpec(g, order);
    Ok(st.conflicts)
  }

  /** `find_room_layout_conflicts`, over the topological order `order`. */
  method FindRoomLayoutConflicts(g: Digraph, order: seq<string>) returns (r: Result<seq<Conflict>, SceneError>)
    ensures r == RoomLayoutConflicts(g, order)
  {
    var labels: map<string, Label> := map[];
    var conflicts: seq<Conflict> := [];
    var i := 0;
    while i < |order|
      invariant 0 <= i <= |order|
      invariant ScanSpec(g, order[..i]) == Ok(LayoutScan(labels, conflicts))
    {
      var node := order[i];
      assert order[..i + 1][..i] == order[..i];
      if !IsLayoutId(node) {
        var parents := Preds(g, node);
        var different := DifferentLayouts(labels, parents);
        if |parents| > 0 && different {
          if !AllCorner(g, node, parents) && Ceiling !in parents {
            conflicts := conflicts + [ParentsDisagree(node, parents)];
          } else {
            labels := labels[node := Blank];
          }
        } else {
          if |parents| == 0 {
            ScanErrStays(g, order, i + 1);
            return Err(NoParents(node));
          }
          labels := labels[node := LabelOf(labels, parents[0])];
        }
      }
      if IsLayoutId(node) {
        labels := labels[node := Element(node)];
      }
      i := i + 1;
    }
    assert order[..i] == order;
    r := Ok(conflicts);
  }

  /** The loop over `parents_room_layout[1:]`. */
  method DifferentLayouts(labels: map<string, Label>, ps: seq<string>) returns (different: bool)
    ensures different == Differs(labels, ps)
  {
    different := false;
    var k := 1;
    while k < |ps|
      invariant 1 <= k
      invariant different == exists j :: 1 <= j < k && j < |ps| && LabelOf(labels, ps[j]) != LabelOf(labels, ps[0])
    {
      if LabelOf(labels, ps[k]) != LabelOf(labels, ps[0]) {
        different := true;
      }
      k := k + 1;
    }
  }

  lemma {:induction false} ScanErrStays(g: Digraph, order: seq<string>, i: nat)
    requires i <= |order| && ScanSpec(g, order[..i]).Err?
    ensures ScanSpec(g, order) == ScanSpec(g, order[..i])
    decreases |order| - i
  {
    if i < |order| {
      assert order[..|order| - 1][..i] == order[..i];
      ScanErrStays(g, order[..|order| - 1], i);
    } else {
      assert order[..i] == order;
    }
  }

  /** The scan fails exactly when some object in the order has no parent at all. */
  lemma {:induction false} RoomLayoutFails(g: Digraph, order: seq<string>)
    ensures ScanSpec(g, order).Err? <==>
            exists k :: 0 <= k < |order| && !IsLayoutId(order[k]) && |Preds(g, order[k])| == 0
    decreases |order|
  {
    if |order| > 0 {
      var pre := order[..|order| - 1];
      var last := order[|order| - 1];
      RoomLayoutFails(g, pre);
      assert forall k :: 0 <= k < |pre| ==> pre[k] == order[k];
      if ScanSpec(g, pre).Ok? {
        ScanNodeFails(g, ScanSpec(g, pre).value, last);
      }
    }
  }

  /** One step fails exactly on an object with no parent. */
  lemma ScanNodeFails(g: Digraph, st: LayoutScan, n: string)
    ensures ScanNode(g, st, n).Err? <==> !IsLayoutId(n) && |Preds(g, n)| == 0
  {
  }

  /** Only processed nodes have an entry, and every entry names a room layout element. */
  lemma {:induction false} ScanFrame(g: Digraph, order: seq<string>)
    requires ScanSpec(g, order).Ok?
    ensures forall n :: n in ScanSpec(g, order).value.labels ==> n in order
    ensures forall n :: LabelOf(ScanSpec(g, order).value.labels, n).Element? ==>
              IsLayoutId(LabelOf(ScanSpec(g, order).value.labels, n).id)
    decreases |order|
  {
    if |order| > 0 {
      var pre := order[..|order| - 1];
      var last := order[|order| - 1];
      ScanFrame(g, pre);
      assert forall n :: n in pre ==> n in order;
      var st := ScanSpec(g, pre).value;
      var m := ScanSpec(g, order).value.labels;
      forall n ensures LabelOf(m, n).Element? ==> IsLayoutId(LabelOf(m, n).id) {
        if n != last {
          assert LabelOf(m, n) == LabelOf(st.labels, n);
        } else if !IsLayoutId(last) && |Preds(g, last)| > 0 && !Differs(st.labels, Preds(g, last)) {
          assert LabelOf(m, n) == LabelOf(st.labels, Preds(g, last)[0]);
        }
      }
    }
  }

  /** A later step never changes an earlier node's entry, and conflicts are only appended. */
  lemma {:induction false} ScanKeeps(g: Digraph, order: seq<string>, i: nat)
    requires DistinctStrings(order) && i <= |order| && ScanSpec(g, order).Ok?
    ensures ScanSpec(g, order[..i]).Ok?
    ensures forall k :: 0 <= k < i ==>
              LabelOf(ScanSpec(g, order[..i]).value.labels, order[k]) == LabelOf(ScanSpec(g, order).value.labels, order[k])
    ensures ScanSpec(g, order[..i]).value.conflicts <= ScanSpec(g, order).value.conflicts
    decreases |order|
  {
    if i == |order| {
      assert order[..i] == order;
    } else {
      var pre := order[..|order| - 1];
      assert pre[..i] == order[..i];
      assert DistinctStrings(pre);
      ScanKeeps(g, pre, i);
      forall k | 0 <= k < i ensures order[k] != order[|order| - 1] && pre[k] == order[k] {
      }
    }
  }

  /** When `order[k]` is scanned, its parents already carry their final entries. */
  lemma ParentsSettled(g: Digraph, order: seq<string>, k: nat)
    requires WellFormed(g) && IsTopoOrder(g, order) && k < |order| && ScanSpec(g, order).Ok?
    ensures ScanSpec(g, order[..k]).Ok?
    ensures forall j :: 0 <= j < |Preds(g, order[k])| ==>
              LabelOf(ScanSpec(g, order[..k]).value.labels, Preds(g, order[k])[j]) ==
              LabelOf(ScanSpec(g, order).value.labels, Preds(g, order[k])[j])
  {
    ScanKeeps(g, order, k);
    var ps := Preds(g, order[k]);
    forall j | 0 <= j < |ps|
      ensures LabelOf(ScanSpec(g, order[..k]).value.labels, ps[j]) == LabelOf(ScanSpec(g, order).value.labels, ps[j])
    {
      assert ps[j] in ps;
      EdgeGoesForward(g, order, ps[j], order[k]);
      assert Rank(order, order[k]) == k;
    }
  }

  lemma ScanStep(g: Digraph, order: seq<string>, k: nat)
    requires k < |order| && ScanSpec(g, order[..k]).Ok?
    ensures ScanSpec(g, order[..k + 1]) == ScanNode(g, ScanSpec(g, order[..k]).value, order[k])
  {
    assert order[..k + 1][..k] == order[..k];
  }

  /**
   * The final entry of every scanned node: a layout element names itself; an object whose
   * parents disagree gets `{}`; any other takes its first parent's entry.
   */
  lemma RoomLayoutLabels(g: Digraph, order: seq<string>, n: string)
    requires WellFormed(g) && IsTopoOrder(g, order) && ScanSpec(g, order).Ok? && n in order
    ensures var m := ScanSpec(g, order).value.labels;
            var ps := Preds(g, n);
            (IsLayoutId(n) ==> LabelOf(m, n) == Element(n)) &&
            (!IsLayoutId(n) ==> |ps| > 0 && LabelOf(m, n) == if Differs(m, ps) then Blank else LabelOf(m, ps[0]))
  {
    var k := Rank(order, n);
    ParentsSettled(g, order, k);
    ScanStep(g, order, k);
    ScanKeeps(g, order, k + 1);
    assert order[..k + 1][k] == n;
    var st := ScanSpec(g, order[..k]).value;
    ScanFrame(g, order[..k]);
    assert n !in order[..k];
    LabelOfStep(g, st, n, ScanSpec(g, order).value.labels);
  }

  /** The entry one step gives `n`, when its parents already carry their entries in `m`. */
  lemma LabelOfStep(g: Digraph, st: LayoutScan, n: string, m: map<string, Label>)
    requires n !in st.labels && ScanNode(g, st, n).Ok?
    requires forall j :: 0 <= j < |Preds(g, n)| ==> LabelOf(st.labels, Preds(g, n)[j]) == LabelOf(m, Preds(g, n)[j])
    ensures var l := LabelOf(ScanNode(g, st, n).value.labels, n);
            var ps := Preds(g, n);
            (IsLayoutId(n) ==> l == Element(n)) &&
            (!IsLayoutId(n) ==> |ps| > 0 && l == if Differs(m, ps) then Blank else LabelOf(m, ps[0]))
  {
    var ps := Preds(g, n);
    if !IsLayoutId(n) {
      assert Differs(st.labels, ps) == Differs(m, ps);
    }
  }

  /** Conflict-raising objects of `ns` in order: disagreeing parents, a non-corner edge, no ceiling. */
  predicate DisputedNode(g: Digraph, m: map<string, Label>, n: string) {
    !IsLayoutId(n) && Differs(m, Preds(g, n)) && Disputable(g, n, Preds(g, n))
  }

  function Disputed(g: Digraph, m: map<string, Label>, ns: seq<string>): seq<Conflict>
    decreases |ns|
  {
    if |ns| == 0 then []
    else
      var n := ns[|ns| - 1];
      Disputed(g, m, ns[..|ns| - 1]) + if DisputedNode(g, m, n) then [ParentsDisagree(n, Preds(g, n))] else []
  }

  lemma {:induction false} DisputedMembers(g: Digraph, m: map<string, Label>, ns: seq<string>)
    ensures forall c :: c in Disputed(g, m, ns) <==>
              exists k :: 0 <= k < |ns| && DisputedNode(g, m, ns[k]) && c == ParentsDisagree(ns[k], Preds(g, ns[k]))
    decreases |ns|
  {
    if |ns| > 0 {
      var pre := ns[..|ns| - 1];
      DisputedMembers(g, m, pre);
      assert forall k :: 0 <= k < |pre| ==> pre[k] == ns[k];
    }
  }

  lemma {:induction false} ConflictsAreDisputed(g: Digraph, order: seq<string>, i: nat)
    requires WellFormed(g) && IsTopoOrder(g, order) && i <= |order| && ScanSpec(g, order).Ok?
    ensures ScanSpec(g, order[..i]).Ok?
    ensures ScanSpec(g, order[..i]).value.conflicts == Disputed(g, ScanSpec(g, order).value.labels, order[..i])
    decreases i
  {
    ScanKeeps(g, order, i);
    if i > 0 {
      ConflictsAreDisputed(g, order, i - 1);
      DisputedStep(g, order, i - 1);
      assert order[..i][..i - 1] == order[..i - 1];
    }
  }

  /** Scanning `order[k]` appends a conflict exactly when it is disputed under the final entries. */
  lemma DisputedStep(g: Digraph, order: seq<string>, k: nat)
    requires WellFormed(g) && IsTopoOrder(g, order) && k < |order| && ScanSpec(g, order).Ok?
    ensures ScanSpec(g, order[..k]).Ok? && ScanSpec(g, order[..k + 1]).Ok?
    ensures var n := order[k];
            ScanSpec(g, order[..k + 1]).value.conflicts == ScanSpec(g, order[..k]).value.conflicts +
              if DisputedNode(g, ScanSpec(g, order).value.labels, n) then [ParentsDisagree(n, Preds(g, n))] else []
  {
    ParentsSettled(g, order, k);
    ScanKeeps(g, order, k + 1);
    ScanStep(g, order, k);
    var m := ScanSpec(g, order).value.labels;
    var st := ScanSpec(g, order[..k]).value;
    var ps := Preds(g, order[k]);
    assert Differs(st.labels, ps) == Differs(m, ps);
  }

  /**
   * `find_room_layout_conflicts` reports, in topological order, exactly the objects whose
   * parents carry different room layout entries, unless all their edges are corner edges or a
   * parent is the ceiling; each report has at least two parents.
   */
  lemma RoomLayoutConflictsExact(g: Digraph, order: seq<string>)
    requires WellFormed(g) && IsTopoOrder(g, order) && RoomLayoutConflicts(g, order).Ok?
    ensures var m := ScanSpec(g, order).value.labels;
            var r := RoomLayoutConflicts(g, order).value;
            r == Disputed(g, m, order) &&
            (forall c :: c in r <==> exists k :: 0 <= k < |order| && DisputedNode(g, m, order[k]) &&
                                                c == ParentsDisagree(order[k], Preds(g, order[k]))) &&
            (forall c :: c in r ==> c.ParentsDisagree? && |c.parents| >= 2)
  {
    ConflictsAreDisputed(g, order, |order|);
    assert order[..|order|] == order;
    DisputedMembers(g, ScanSpec(g, order).value.labels, order);
  }

  // ---------------------------------------------------------------- check_corner_relationships

  /** An object occupies a corner when both of its walls are among its parents. */
  predicate Occupies(g: Digraph, n: string, c: Corner) {
    !IsLayoutId(n) && c.first in Preds(g, n) && c.second in Preds(g, n)
  }

  /** `occupied_corners[c]` of `find_corner_occupancy`: the occupants in the order given. */
  function Occupants(g: Digraph, ns: seq<string>, c: Corner): seq<string>
    decreases |ns|
  {
    if |ns| == 0 then []
    else Occupants(g, ns[..|ns| - 1], c) + if Occupies(g, ns[|ns| - 1], c) then [ns[|ns| - 1]] else []
  }

  /** The corners no object occupies (`find_corner_vacancy`). */
  function VacantCorners(g: Digraph, order: seq<string>): set<Corner> {
    set c | c in Corners && forall k :: 0 <= k < |order| ==> !Occupies(g, order[k], c)
  }

  lemma {:induction false} OccupantsMembers(g: Digraph, ns: seq<string>, c: Corner)
    ensures forall n :: n in Occupants(g, ns, c) <==> n in ns && Occupies(g, n, c)
    ensures |Occupants(g, ns, c)| > 0 <==> exists k :: 0 <= k < |ns| && Occupies(g, ns[k], c)
    decreases |ns|
  {
    if |ns| > 0 {
      var pre := ns[..|ns| - 1];
      OccupantsMembers(g, pre, c);
      assert forall n :: n in ns <==> n in pre || n == ns[|ns| - 1];
      assert forall k :: 0 <= k < |pre| ==> pre[k] == ns[k];
    }
  }

  /** A corner is crowded exactly when two different positions of the order occupy it. */
  lemma OccupantsCrowded(g: Digraph, ns: seq<string>, c: Corner)
    ensures |Occupants(g, ns, c)| > 1 <==>
            exists i, j :: 0 <= i < j < |ns| && Occupies(g, ns[i], c) && Occupies(g, ns[j], c)
  {
    if |Occupants(g, ns, c)| > 1 {
      CrowdedWitness(g, ns, c);
    }
    if exists i, j :: 0 <= i < j < |ns| && Occupies(g, ns[i], c) && Occupies(g, ns[j], c) {
      var i, j :| 0 <= i < j < |ns| && Occupies(g, ns[i], c) && Occupies(g, ns[j], c);
      CrowdedFrom(g, ns, c, i, j);
    }
  }

  lemma {:induction false} CrowdedWitness(g: Digraph, ns: seq<string>, c: Corner)
    requires |Occupants(g, ns, c)| > 1
    ensures exists i, j :: 0 <= i < j < |ns| && Occupies(g, ns[i], c) && Occupies(g, ns[j], c)
    decreases |ns|
  {
    var pre, last := ns[..|ns| - 1], ns[|ns| - 1];
    assert |Occupants(g, ns, c)| == |Occupants(g, pre, c)| + if Occupies(g, last, c) then 1 else 0;
    if |Occupants(g, pre, c)| > 1 {
      CrowdedWitness(g, pre, c);
      var i, j :| 0 <= i < j < |pre| && Occupies(g, pre[i], c) && Occupies(g, pre[j], c);
      assert pre[i] == ns[i] && pre[j] == ns[j];
    } else {
      OccupantsMembers(g, pre, c);
      var k :| 0 <= k < |pre| && Occupies(g, pre[k], c);
      assert pre[k] == ns[k] && Occupies(g, ns[|ns| - 1], c);
    }
  }

  lemma {:induction false} CrowdedFrom(g: Digraph, ns: seq<string>, c: Corner, i: nat, j: nat)
    requires i < j < |ns| && Occupies(g, ns[i], c) && Occupies(g, ns[j], c)
    ensures |Occupants(g, ns, c)| > 1
    decreases |ns|
  {
    var pre, last := ns[..|ns| - 1], ns[|ns| - 1];
    assert |Occupants(g, ns, c)| == |Occupants(g, pre, c)| + if Occupies(g, last, c) then 1 else 0;
    assert pre[i] == ns[i];
    if j < |pre| {
      assert pre[j] == ns[j];
      CrowdedFrom(g, pre, c, i, j);
    } else {
      OccupantsMembers(g, pre, c);
      assert Occupies(g, pre[i], c);
    }
  }

  /** The inner loop of `find_corner_occupancy`, for one corner. */
  method CornerOccupants(g: Digraph, order: seq<string>, c: Corner) returns (occ: seq<string>)
    ensures occ == Occupants(g, order, c)
  {
    occ := [];
    var k := 0;
    while k < |order|
      invariant 0 <= k <= |order|
      invariant occ == Occupants(g, order[..k], c)
    {
      assert order[..k + 1][..k] == order[..k];
      var node := order[k];
      if !IsLayoutId(node) {
        var parents := Preds(g, node);
        if c.first in parents && c.second in parents {
          occ := occ + [node];
        }
      }
      k := k + 1;
    }
    assert order[..k] == order;
  }

  /** `find_corner_occupancy`: the occupants of each corner, aligned with `Corners`. */
  method CornerOccupancy(g: Digraph, order: seq<string>) returns (occ: seq<seq<string>>)
    ensures |occ| == |Corners| && forall i :: 0 <= i < |Corners| ==> occ[i] == Occupants(g, order, Corners[i])
  {
    occ := [];
    var i := 0;
    while i < |Corners|
      invariant 0 <= i <= |Corners| && |occ| == i
      invariant forall j :: 0 <= j < i ==> occ[j] == Occupants(g, order, Corners[j])
    {
      var o := CornerOccupants(g, order, Corners[i]);
      occ := occ + [o];
      i := i + 1;
    }
  }

  /**
   * `find_corner_vacancy`. The source appends a corner once per occupant; only the set of
   * occupied corners matters for the result, so it is recorded once.
   */
  method FindCornerVacancy(g: Digraph, order: seq<string>) returns (vacant: set<Corner>)
    ensures vacant == VacantCorners(g, order)
  {
    var occupied: seq<Corner> := [];
    var i := 0;
    while i < |Corners|
      invariant 0 <= i <= |Corners|
      invariant forall c :: c in occupied <==> c in Corners[..i] && |Occupants(g, order, c)| > 0
    {
      var o := CornerOccupants(g, order, Corners[i]);
      if |o| > 0 {
        occupied := occupied + [Corners[i]];
      }
      assert forall c :: c in Corners[..i + 1] <==> c in Corners[..i] || c == Corners[i];
      i := i + 1;
    }
    assert Corners[..i] == Corners;
    vacant := set c | c in Corners && c !in occupied;
    forall c | c in Corners ensures c in vacant <==> c in VacantCorners(g, order) {
      OccupantsMembers(g, order, c);
    }
  }

  /** The first loop of `check_corner_relationships`, over the corners `cs`. */
  function Crowded(g: Digraph, order: seq<string>, cs: seq<Corner>, vacant: set<Corner>): seq<Conflict>
    decreases |cs|
  {
    if |cs| == 0 then []
    else
      var c := cs[|cs| - 1];
      var occ := Occupants(g, order, c);
      Crowded(g, order, cs[..|cs| - 1], vacant) + if |occ| > 1 then [CornerCrowded(c, occ, vacant)] else []
  }

  /** An object with a corner edge but a single parent. */
  predicate LonelyInCorner(g: Digraph, n: string) {
    !IsLayoutId(n) && AnyCorner(g, n, Preds(g, n)) && |Preds(g, n)| == 1
  }

  /** The second loop of `check_corner_relationships`, over the nodes `ns`. */
  function Lonely(g: Digraph, ns: seq<string>, vacant: set<Corner>): seq<Conflict>
    decreases |ns|
  {
    if |ns| == 0 then []
    else
      var n := ns[|ns| - 1];
      Lonely(g, ns[..|ns| - 1], vacant) + if LonelyInCorner(g, n) then [CornerNeedsTwoWalls(n, vacant)] else []
  }

  function CornerRelationshipConflicts(g: Digraph, order: seq<string>): seq<Conflict> {
    Crowded(g, order, Corners, VacantCorners(g, order)) + Lonely(g, order, VacantCorners(g, order))
  }

  /** `check_corner_relationships`. */
  method CheckCornerRelationships(g: Digraph, order: seq<string>) returns (conflicts: seq<Conflict>)
    ensures conflicts == CornerRelationshipConflicts(g, order)
  {
    var occupancy := CornerOccupancy(g, order);
    conflicts := [];
    var i := 0;
    while i < |Corners|
      invariant 0 <= i <= |Corners|
      invariant conflicts == Crowded(g, order, Corners[..i], VacantCorners(g, order))
    {
      assert Corners[..i + 1][..i] == Corners[..i];
      if |occupancy[i]| > 1 {
        var vacant := FindCornerVacancy(g, order);
        conflicts := conflicts + [CornerCrowded(Corners[i], occupancy[i], vacant)];
      }
      i := i + 1;
    }
    assert Corners[..i] == Corners;
    var crowded := conflicts;
    var k := 0;
    while k < |order|
      invariant 0 <= k <= |order|
      invariant conflicts == crowded + Lonely(g, order[..k], VacantCorners(g, order))
    {
      assert order[..k + 1][..k] == order[..k];
      var node := order[k];
      if !IsLayoutId(node) {
        var parents := Preds(g, node);
        if AnyCorner(g, node, parents) && |parents| == 1 {
          var vacant := FindCornerVacancy(g, order);
          conflicts := conflicts + [CornerNeedsTwoWalls(node, vacant)];
        }
      }
      k := k + 1;
    }
    assert order[..k] == order;
  }

  lemma {:induction false} CrowdedMembers(g: Digraph, order: seq<string>, cs: seq<Corner>, v: set<Corner>)
    ensures forall c, occ :: CornerCrowded(c, occ, v) in Crowded(g, order, cs, v) <==>
              c in cs && |Occupants(g, order, c)| > 1 && occ == Occupants(g, order, c)
    ensures forall x :: x in Crowded(g, order, cs, v) ==> x.CornerCrowded? && x.vacant == v
    decreases |cs|
  {
    if |cs| > 0 {
      CrowdedMembers(g, order, cs[..|cs| - 1], v);
      assert forall c :: c in cs <==> c in cs[..|cs| - 1] || c == cs[|cs| - 1];
    }
  }

  lemma {:induction false} LonelyMembers(g: Digraph, ns: seq<string>, v: set<Corner>)
    ensures forall n :: CornerNeedsTwoWalls(n, v) in Lonely(g, ns, v) <==> n in ns && LonelyInCorner(g, n)
    ensures forall x :: x in Lonely(g, ns, v) ==> x.CornerNeedsTwoWalls? && x.vacant == v
    decreases |ns|
  {
    if |ns| > 0 {
      LonelyMembers(g, ns[..|ns| - 1], v);
      assert forall n :: n in ns <==> n in ns[..|ns| - 1] || n == ns[|ns| - 1];
    }
  }

  /**
   * `check_corner_relationships` reports each corner that two placed objects share, with its
   * occupants and the vacant corners, and each object that has a corner edge but only one
   * parent; a crowded corner is never among the vacant ones.
   */
  lemma CornerRelationshipsExact(g: Digraph, order: seq<string>)
    ensures var v := VacantCorners(g, order);
            var r := CornerRelationshipConflicts(g, order);
            (forall c, occ :: CornerCrowded(c, occ, v) in r <==>
               c in Corners && occ == Occupants(g, order, c) &&
               exists i, j :: 0 <= i < j < |order| && Occupies(g, order[i], c) && Occupies(g, order[j], c)) &&
            (forall n :: CornerNeedsTwoWalls(n, v) in r <==> n in order && LonelyInCorner(g, n)) &&
            (forall x :: x in r ==> (x.CornerCrowded? || x.CornerNeedsTwoWalls?) && x.vacant == v) &&
            (forall x :: x in r && x.CornerCrowded? ==> x.corner !in v)
  {
    var v := VacantCorners(g, order);
    CrowdedMembers(g, order, Corners, v);
    LonelyMembers(g, order, v);
    forall c | c in Corners
      ensures |Occupants(g, order, c)| > 1 <==>
              exists i, j :: 0 <= i < j < |order| && Occupies(g, order[i], c) && Occupies(g, order[j], c)
      ensures |Occupants(g, order, c)| > 1 ==> c !in v
    {
      OccupantsCrowded(g, order, c);
      OccupantsMembers(g, order, c);
    }
  }
}
