/**
 * `place_object` (utils.py): place one object at a random point of the region its constraints
 * and its cluster allow, retrying on collisions, and place its children recursively. The scene
 * graph is passed by value; the result carries the scene graph as the source leaves it.
 */
module Placing {
  import opened Wrappers
  import opened Geometry
  import opened Scene
  import opened Graph
  import opened Positions
  import opened Reasons

  // ---------------------------------------------------------------- random source

  /** The state of a linear congruential generator, standing in for Python's `random` module. */
  datatype Rng = Rng(seed: nat)

  const Modulus: nat := 0x8000_0000

  function Next(g: Rng): (r: Rng)
    ensures r.seed < Modulus
  {
    Rng((g.seed * 1103515245 + 12345) % Modulus)
  }

  lemma ScaleWithin(d: real, u: real)
    requires 0.0 <= u <= 1.0
    ensures d >= 0.0 ==> 0.0 <= d * u <= d
    ensures d < 0.0 ==> d <= d * u <= 0.0
  {
    if d >= 0.0 {
      assert d * u <= d * 1.0;
    } else {
      assert d * u >= d * 1.0;
    }
  }

  /** `random.uniform(a, b)`: `a + (b - a) * u` for a fraction `u` in [0, 1) drawn from the generator. */
  function Uniform(g: Rng, a: real, b: real): (r: (real, Rng))
    ensures Min(a, b) <= r.0 <= Max(a, b)
    ensures r.1 == Next(g)
  {
    var n := Next(g);
    var u := Fraction(n);
    var d := b - a;
    ScaledBetween(a, d, u);
    assert a + d == b;
    (a + d * u, n)
  }

  /** The generator's state as a fraction of its modulus. */
  function Fraction(n: Rng): (u: real)
    requires n.seed < Modulus
    ensures 0.0 <= u <= 1.0
  {
    assert n.seed as real <= Modulus as real;
    n.seed as real / Modulus as real
  }

  /** `a + d * u` lies between `a` and `a + d`. */
  lemma ScaledBetween(a: real, d: real, u: real)
    requires 0.0 <= u <= 1.0
    ensures Min(a, a + d) <= a + d * u <= Max(a, a + d)
  {
    ScaleWithin(d, u);
  }

  /** A position between the two bounds of a box on every axis, in either order. */
  predicate InRange(p: Position, o: Box) {
    Min(o.xMin, o.xMax) <= p.x <= Max(o.xMin, o.xMax) &&
    Min(o.yMin, o.yMax) <= p.y <= Max(o.yMin, o.yMax) &&
    Min(o.zMin, o.zMax) <= p.z <= Max(o.zMin, o.zMax)
  }

  /** The three draws of one attempt: x, then y, then z. */
  function Sample(g: Rng, o: Box): (r: (Position, Rng))
    ensures InRange(r.0, o)
  {
    var (x, g1) := Uniform(g, o.xMin, o.xMax);
    var (y, g2) := Uniform(g1, o.yMin, o.yMax);
    var (z, g3) := Uniform(g2, o.zMin, o.zMax);
    (Position(x, y, z), g3)
  }

  /** A position inside a box up to the overlap tolerance. */
  predicate NearlyIn(p: Position, b: Box) {
    b.xMin - Eps <= p.x <= b.xMax + Eps &&
    b.yMin - Eps <= p.y <= b.yMax + Eps &&
    b.zMin - Eps <= p.z <= b.zMax + Eps
  }

  /** The intersection of at least one box, when it exists, is non-empty up to the tolerance. */
  lemma {:induction false} OverlapAllNonEmpty(start: Option<Box>, boxes: seq<Box>)
    requires |boxes| > 0 && OverlapAll(start, boxes).Some?
    ensures NonEmptyUpToEps(OverlapAll(start, boxes).value)
    decreases |boxes|
  {
    var next := CalculateOverlap(start, Some(boxes[0]));
    if next.None? {
      OverlapAllNoneAbsorbs(boxes[1..]);
      assert false;
    }
    if |boxes| > 1 {
      OverlapAllNonEmpty(next, boxes[1..]);
    }
  }

  /**
   * A point drawn from the intersection of the cluster region and the candidate regions lies,
   * up to the tolerance, in the cluster region and in every candidate region.
   */
  lemma DrawnPointSatisfiesAll(p: Position, cluster: Box, boxes: seq<Box>)
    requires |boxes| > 0 && OverlapAll(Some(cluster), boxes).Some?
    requires InRange(p, OverlapAll(Some(cluster), boxes).value)
    ensures NearlyIn(p, cluster)
    ensures forall i :: 0 <= i < |boxes| ==> NearlyIn(p, boxes[i])
  {
    OverlapAllInside(Some(cluster), boxes);
    OverlapAllNonEmpty(Some(cluster), boxes);
  }

  // ---------------------------------------------------------------- cluster constraint

  /** `raw_constraint`: the cluster extents on the four sides (-x, +y, +x, -y) plus the half size. */
  function RawCluster(c: ClusterArea, s: Size): seq<real> {
    [c.xNeg + s.length / 2.0, c.yPos + s.width / 2.0, c.xPos + s.length / 2.0, c.yNeg + s.width / 2.0]
  }

  /** `raw[-q:] + raw[:-q]`: the sides turned by `q` quarter turns. */
  function Turned(raw: seq<real>, q: nat): (r: seq<real>)
    requires |raw| == 4 && q < 4
    ensures |r| == 4 && forall i :: 0 <= i < 4 ==> r[i] == raw[(i + 4 - q) % 4]
  {
    raw[4 - q..] + raw[..4 - q]
  }

  /** `cluster_constraint`: the centre positions that leave room for the whole cluster. */
  function ClusterBox(c: ClusterArea, s: Size, rot: Rotation, room: Room): Box {
    var r := Turned(RawCluster(c, s), Quarter(rot));
    Box(r[0], room.length - r[2], r[3], room.width - r[1], 0.0, room.height)
  }

  /** The cluster extent on the object's side that the rotation turns towards world side `d`. */
  function Reach(c: ClusterArea, rot: Rotation, d: nat): real
    requires d < 4
  {
    [c.xNeg, c.yPos, c.xPos, c.yNeg][(d + 4 - Quarter(rot)) % 4]
  }

  /**
   * With its centre in the cluster region, the object together with the cluster extents on each
   * of its (rotated) sides stays within the room's floor plan, and its height range is the room's.
   */
  lemma ClusterBoxFits(c: ClusterArea, s: Size, rot: Rotation, room: Room, p: Position)
    requires var b := ClusterBox(c, s, rot, room); b.xMin <= p.x <= b.xMax && b.yMin <= p.y <= b.yMax
    ensures var o := Oriented(s, rot);
            p.x - o.length / 2.0 - Reach(c, rot, 0) >= 0.0 &&
            p.x + o.length / 2.0 + Reach(c, rot, 2) <= room.length &&
            p.y - o.width / 2.0 - Reach(c, rot, 3) >= 0.0 &&
            p.y + o.width / 2.0 + Reach(c, rot, 1) <= room.width
    ensures ClusterBox(c, s, rot, room).zMin == 0.0 && ClusterBox(c, s, rot, room).zMax == room.height
  {
    ClusterBoxSides(c, s, rot, room);
  }

  /** The bounds of the cluster region are the oriented half size plus the cluster extent on each world side. */
  ghost predicate BoxSides(c: ClusterArea, s: Size, rot: Rotation, room: Room) {
    var o, b := Oriented(s, rot), ClusterBox(c, s, rot, room);
    b.xMin == Reach(c, rot, 0) + o.length / 2.0 && b.xMax == room.length - (Reach(c, rot, 2) + o.length / 2.0) &&
    b.yMin == Reach(c, rot, 3) + o.width / 2.0 && b.yMax == room.width - (Reach(c, rot, 1) + o.width / 2.0)
  }

  lemma ClusterBoxSides(c: ClusterArea, s: Size, rot: Rotation, room: Room)
    ensures BoxSides(c, s, rot, room)
  {
    match rot
    case R0 => SidesNone(c, s, room);
    case R90 => SidesQuarter(c, s, room);
    case R180 => SidesHalf(c, s, room);
    case R270 => SidesThreeQuarters(c, s, room);
  }

  lemma SidesNone(c: ClusterArea, s: Size, room: Room)
    ensures BoxSides(c, s, R0, room)
  {
    var raw := RawCluster(c, s);
    assert Quarter(R0) == 0;
    assert Turned(raw, 0) == [raw[0], raw[1], raw[2], raw[3]];
    assert ClusterBox(c, s, R0, room) ==
           Box(raw[0], room.length - raw[2], raw[3], room.width - raw[1], 0.0, room.height);
    assert Reach(c, R0, 0) == c.xNeg && Reach(c, R0, 1) == c.yPos &&
           Reach(c, R0, 2) == c.xPos && Reach(c, R0, 3) == c.yNeg;
  }

  lemma SidesQuarter(c: ClusterArea, s: Size, room: Room)
    ensures BoxSides(c, s, R90, room)
  {
    var raw := RawCluster(c, s);
    assert Quarter(R90) == 1;
    assert Turned(raw, 1) == [raw[3], raw[0], raw[1], raw[2]];
    assert ClusterBox(c, s, R90, room) ==
           Box(raw[3], room.length - raw[1], raw[2], room.width - raw[0], 0.0, room.height);
    assert Reach(c, R90, 0) == c.yNeg && Reach(c, R90, 1) == c.xNeg &&
           Reach(c, R90, 2) == c.yPos && Reach(c, R90, 3) == c.xPos;
  }

  lemma SidesHalf(c: ClusterArea, s: Size, room: Room)
    ensures BoxSides(c, s, R180, room)
  {
    var raw := RawCluster(c, s);
    assert Quarter(R180) == 2;
    assert Turned(raw, 2) == [raw[2], raw[3], raw[0], raw[1]];
    assert ClusterBox(c, s, R180, room) ==
           Box(raw[2], room.length - raw[0], raw[1], room.width - raw[3], 0.0, room.height);
    assert Reach(c, R180, 0) == c.xPos && Reach(c, R180, 1) == c.yNeg &&
           Reach(c, R180, 2) == c.xNeg && Reach(c, R180, 3) == c.yPos;
  }

  lemma SidesThreeQuarters(c: ClusterArea, s: Size, room: Room)
    ensures BoxSides(c, s, R270, room)
  {
    var raw := RawCluster(c, s);
    assert Quarter(R270) == 3;
    assert Turned(raw, 3) == [raw[1], raw[2], raw[3], raw[0]];
    assert ClusterBox(c, s, R270, room) ==
           Box(raw[1], room.length - raw[3], raw[0], room.width - raw[2], 0.0, room.height);
    assert Reach(c, R270, 0) == c.yPos && Reach(c, R270, 1) == c.xPos &&
           Reach(c, R270, 2) == c.yNeg && Reach(c, R270, 3) == c.xNeg;
  }

  // ---------------------------------------------------------------- collisions

  /** `is_collision_3d` between two scene graph entries that are both placed. */
  predicate Collides(a: SceneObject, b: SceneObject) {
    a.position.Some? && a.rotation.Some? && b.position.Some? && b.rotation.Some? &&
    IsCollision3D(BodyOf(a), BodyOf(b))
  }

  lemma CollidesSymmetric(a: SceneObject, b: SceneObject)
    ensures Collides(a, b) == Collides(b, a)
  {
    if a.position.Some? && a.rotation.Some? && b.position.Some? && b.rotation.Some? {
      CollisionSymmetric(BodyOf(a), BodyOf(b));
    }
  }

  /** Every placed entry has a rotation (the collision test and the constraint functions read it). */
  predicate Rotated(sg: seq<SceneObject>) {
    forall j :: 0 <= j < |sg| && sg[j].position.Some? ==> sg[j].rotation.Some?
  }

  /** Entry `k` collides with no other entry. */
  predicate Clear(sg: seq<SceneObject>, k: nat)
    requires k < |sg|
  {
    forall i :: 0 <= i < |sg| && i != k ==> !Collides(sg[k], sg[i])
  }

  /** The number of entries among the first `n`, other than `k`, that entry `k` collides with. */
  function CollisionsBefore(sg: seq<SceneObject>, k: nat, n: nat): nat
    requires k < |sg| && n <= |sg|
  {
    if n == 0 then 0
    else CollisionsBefore(sg, k, n - 1) + (if n - 1 != k && Collides(sg[k], sg[n - 1]) then 1 else 0)
  }

  /** No collision is counted exactly when entry `k` collides with none of the others. */
  lemma {:induction false} CollisionsBeforeZero(sg: seq<SceneObject>, k: nat, n: nat)
    requires k < |sg| && n <= |sg|
    ensures CollisionsBefore(sg, k, n) == 0 <==> forall i :: 0 <= i < n && i != k ==> !Collides(sg[k], sg[i])
  {
    if n > 0 {
      CollisionsBeforeZero(sg, k, n - 1);
    }
  }

  /** `current_collisions`: count the placed entries other than `obj` that `obj` collides with. */
  method CountCollisions(sg: seq<SceneObject>, k: nat) returns (n: nat)
    requires k < |sg| && DistinctIds(sg)
    ensures n == CollisionsBefore(sg, k, |sg|)
  {
    n := 0;
    for j := 0 to |sg|
      invariant n == CollisionsBefore(sg, k, j)
    {
      assert sg[j] == sg[k] <==> j == k;
      if sg[j] == sg[k] || sg[j].position.None? {
        continue;
      }
      if Collides(sg[k], sg[j]) {
        n := n + 1;
      }
    }
  }

  /** The collision scan after a position is drawn: stop at the first collision. */
  method AnyCollision(sg: seq<SceneObject>, k: nat) returns (flag: bool)
    requires k < |sg| && DistinctIds(sg)
    ensures flag <==> !Clear(sg, k)
  {
    flag := false;
    for j := 0 to |sg|
      invariant forall i :: 0 <= i < j && i != k ==> !Collides(sg[k], sg[i])
    {
      assert sg[j] == sg[k] <==> j == k;
      if sg[j] == sg[k] || sg[j].position.None? {
        continue;
      }
      if Collides(sg[k], sg[j]) {
        flag := true;
        break;
      }
    }
  }

  // ---------------------------------------------------------------- children

  /** Every listed index is below `n`. */
  predicate Indices(kids: seq<nat>, n: nat) {
    forall i :: 0 <= i < |kids| ==> kids[i] < n
  }

  /** Entry `o` lists `id` among its object relationships. */
  predicate ListsParent(o: SceneObject, id: string) {
    exists k :: 0 <= k < |o.placement.objects| && o.placement.objects[k].target == id
  }

  /** `children`: the indices of the entries among the first `n` that list `id`, in scene order. */
  function ChildrenOf(sg: seq<SceneObject>, id: string, n: nat): (r: seq<nat>)
    requires n <= |sg|
    ensures Indices(r, |sg|)
    ensures forall j :: j in r <==> 0 <= j < n && ListsParent(sg[j], id)
  {
    if n == 0 then []
    else ChildrenOf(sg, id, n - 1) + (if ListsParent(sg[n - 1], id) then [n - 1] else [])
  }

  /** The entries of `kids` whose id is `n`. */
  function Matching(sg: seq<SceneObject>, kids: seq<nat>, n: string): (r: seq<nat>)
    requires Indices(kids, |sg|)
    ensures Indices(r, |sg|) && forall a :: 0 <= a < |r| ==> sg[r[a]].id == n
    ensures forall x :: x in r <==> x in kids && x < |sg| && sg[x].id == n
  {
    if |kids| == 0 then []
    else
      assert kids == [kids[0]] + kids[1..];
      (if sg[kids[0]].id == n then [kids[0]] else []) + Matching(sg, kids[1..], n)
  }

  /** The children listed have ids in the order, ranked from `t` on, in non-decreasing rank. */
  ghost predicate SortedFrom(order: seq<string>, sg: seq<SceneObject>, r: seq<nat>, t: nat) {
    Indices(r, |sg|) &&
    (forall a :: 0 <= a < |r| ==> sg[r[a]].id in order && t <= Rank(order, sg[r[a]].id)) &&
    (forall a, b :: 0 <= a < b < |r| ==> Rank(order, sg[r[a]].id) <= Rank(order, sg[r[b]].id))
  }

  /** `[x for topo in topological_sorted[t:] for x in children if topo == x["new_object_id"]]`. */
  function ByOrder(order: seq<string>, sg: seq<SceneObject>, kids: seq<nat>, t: nat): (r: seq<nat>)
    requires t <= |order| && DistinctStrings(order) && Indices(kids, |sg|)
    ensures SortedFrom(order, sg, r, t)
    ensures forall x :: x in r <==> x in kids && x < |sg| && sg[x].id in order && t <= Rank(order, sg[x].id)
    decreases |order| - t
  {
    if t == |order| then []
    else
      var m := Matching(sg, kids, order[t]);
      var rest := ByOrder(order, sg, kids, t + 1);
      ConcatSorted(order, sg, m, rest, t);
      m + rest
  }

  /** Children of rank `t` followed by children ranked after `t` are in rank order. */
  lemma ConcatSorted(order: seq<string>, sg: seq<SceneObject>, m: seq<nat>, rest: seq<nat>, t: nat)
    requires t < |order| && DistinctStrings(order) && Indices(m, |sg|)
    requires forall a :: 0 <= a < |m| ==> sg[m[a]].id == order[t]
    requires SortedFrom(order, sg, rest, t + 1)
    ensures SortedFrom(order, sg, m + rest, t)
    ensures forall x :: x in m + rest <==> x in m || x in rest
  {
    var r := m + rest;
    assert Rank(order, order[t]) == t;
    forall a | 0 <= a < |r|
      ensures r[a] < |sg| && sg[r[a]].id in order && t <= Rank(order, sg[r[a]].id)
      ensures a < |m| ==> Rank(order, sg[r[a]].id) == t
    {
      if a >= |m| {
        assert r[a] == rest[a - |m|];
      }
    }
    forall a, b | 0 <= a < b < |r|
      ensures Rank(order, sg[r[a]].id) <= Rank(order, sg[r[b]].id)
    {
      if a >= |m| {
        assert r[a] == rest[a - |m|] && r[b] == rest[b - |m|];
      } else if b >= |m| {
        assert r[b] == rest[b - |m|];
      }
    }
  }

  /** `children` in the order's sequence: the children whose ids the order lists, earlier ranks first. */
  function SortedChildren(order: seq<string>, sg: seq<SceneObject>, kids: seq<nat>): (r: seq<nat>)
    requires DistinctStrings(order) && Indices(kids, |sg|)
    ensures SortedFrom(order, sg, r, 0)
    ensures forall x :: x in r <==> x in kids && x < |sg| && sg[x].id in order
  {
    ByOrder(order, sg, kids, 0)
  }

  /** `check_children`: some placed child collides with an entry of another id. */
  predicate ChildCollides(sg: seq<SceneObject>, kids: seq<nat>)
    requires Indices(kids, |sg|)
  {
    exists i, j :: 0 <= i < |kids| && 0 <= j < |sg| && sg[j].id != sg[kids[i]].id && Collides(sg[kids[i]], sg[j])
  }

  /** The scene graph with the position of every listed child deleted. */
  function Unplaced(sg: seq<SceneObject>, kids: seq<nat>): (r: seq<SceneObject>)
    ensures |r| == |sg|
    ensures forall j :: 0 <= j < |sg| ==> r[j] == if j in kids then sg[j].(position := None) else sg[j]
  {
    seq(|sg|, j requires 0 <= j < |sg| => if j in kids then sg[j].(position := None) else sg[j])
  }

  /** Delete the position of every listed child. */
  method ClearPositions(sg: seq<SceneObject>, kids: seq<nat>) returns (r: seq<SceneObject>)
    requires Indices(kids, |sg|)
    ensures r == Unplaced(sg, kids)
  {
    r := sg;
    for i := 0 to |kids|
      invariant |r| == |sg|
      invariant forall j :: 0 <= j < |sg| ==> r[j] == if j in kids[..i] then sg[j].(position := None) else sg[j]
    {
      assert kids[..i + 1] == kids[..i] + [kids[i]];
      r := r[kids[i] := r[kids[i]].(position := None)];
    }
    assert kids[..|kids|] == kids;
  }

  // ---------------------------------------------------------------- what placing keeps

  /** Only the position and an unset rotation of an entry may change. */
  predicate Same(a: SceneObject, b: SceneObject) {
    a.id == b.id && a.size == b.size && a.onFloor == b.onFloor && a.facing == b.facing &&
    a.placement == b.placement && a.cluster == b.cluster &&
    (a.rotation.Some? ==> b.rotation == a.rotation)
  }

  predicate Steady(s0: seq<SceneObject>, s: seq<SceneObject>) {
    |s0| == |s| && forall j :: 0 <= j < |s| ==> Same(s0[j], s[j])
  }

  /** Entry `j` has a position it did not have before. */
  predicate Moved(s0: seq<SceneObject>, s: seq<SceneObject>, j: nat)
    requires j < |s0| && j < |s|
  {
    s[j].position.Some? && s[j].position != s0[j].position
  }

  /** No entry that moved, other than `k`, collides with another entry other than `k`. */
  ghost predicate NoNewExcept(s0: seq<SceneObject>, s: seq<SceneObject>, k: int)
    requires |s0| == |s|
  {
    forall j, i :: 0 <= j < |s| && 0 <= i < |s| && i != j && j != k && i != k && Moved(s0, s, j) ==>
      !Collides(s[j], s[i])
  }

  /** No entry that moved collides with any other entry. */
  ghost predicate NoNewCollisions(s0: seq<SceneObject>, s: seq<SceneObject>) {
    |s0| == |s| && NoNewExcept(s0, s, -1)
  }

  /** Every entry whose id ranks below `bound` in the order is untouched. */
  ghost predicate UpTo(s0: seq<SceneObject>, s: seq<SceneObject>, order: seq<string>, bound: nat) {
    |s0| == |s| &&
    forall j :: 0 <= j < |s0| && s0[j].id in order && Rank(order, s0[j].id) < bound ==> s[j] == s0[j]
  }

  /** Every id is in the order, and every child comes after the parents it lists. */
  ghost predicate Ranked(sg: seq<SceneObject>, order: seq<string>) {
    DistinctStrings(order) &&
    (forall j :: 0 <= j < |sg| ==> sg[j].id in order) &&
    (forall j, c :: 0 <= j < |sg| && 0 <= c < |sg| && ListsParent(sg[c], sg[j].id) ==>
       Rank(order, sg[j].id) < Rank(order, sg[c].id))
  }

  /** A topological order of the scene graph's graph ranks every child after its parents. */
  lemma RankedFromTopo(sg: seq<SceneObject>, order: seq<string>)
    requires IsTopoOrder(BuildSpec(sg), order)
    ensures Ranked(sg, order)
  {
    BuildGraphComplete(sg);
    BuildGraphWellFormed(sg);
    forall j, c | 0 <= j < |sg| && 0 <= c < |sg| && ListsParent(sg[c], sg[j].id)
      ensures Rank(order, sg[j].id) < Rank(order, sg[c].id)
    {
      var e :| 0 <= e < |sg[c].placement.objects| && sg[c].placement.objects[e].target == sg[j].id;
      EdgeGoesForward(BuildSpec(sg), order, sg[j].id, sg[c].id);
    }
  }

  /** Every entry other than `k` that lists no parent is left as it was. */
  ghost predicate Orphans(s0: seq<SceneObject>, s: seq<SceneObject>, k: int) {
    |s0| == |s| && forall j :: 0 <= j < |s0| && j != k && |s0[j].placement.objects| == 0 ==> s[j] == s0[j]
  }

  /** Placing an entry that lists a parent after other such steps leaves the orphans alone. */
  lemma OrphansTrans(s0: seq<SceneObject>, s1: seq<SceneObject>, s2: seq<SceneObject>, c: nat)
    requires Orphans(s0, s1, -1) && Orphans(s1, s2, c) && Steady(s0, s1)
    requires c < |s0| && |s0[c].placement.objects| > 0
    ensures Orphans(s0, s2, -1)
  {
    assert forall j :: 0 <= j < |s0| ==> s1[j].placement == s0[j].placement;
  }

  /** What every call of the placement needs of the scene graph. */
  ghost predicate Ctx(sg: seq<SceneObject>, order: seq<string>) {
    DistinctIds(sg) && Ranked(sg, order) && Rotated(sg)
  }

  /** The facts about a scene graph for which positions may change. */
  ghost predicate Keeps(s0: seq<SceneObject>, s: seq<SceneObject>, order: seq<string>, bound: nat) {
    Steady(s0, s) && Rotated(s) && NoNewCollisions(s0, s) && UpTo(s0, s, order, bound)
  }

  lemma SteadyCtx(s0: seq<SceneObject>, s: seq<SceneObject>, order: seq<string>)
    requires Ctx(s0, order) && Steady(s0, s) && Rotated(s)
    ensures Ctx(s, order)
  {
    assert forall j :: 0 <= j < |s| ==> s[j].id == s0[j].id && s[j].placement == s0[j].placement;
    forall j, c | 0 <= j < |s| && 0 <= c < |s| && ListsParent(s[c], s[j].id)
      ensures Rank(order, s[j].id) < Rank(order, s[c].id)
    {
      assert ListsParent(s0[c], s0[j].id);
    }
  }

  /** Composing two steps that add no collision adds no collision. */
  lemma NoNewTrans(s0: seq<SceneObject>, s1: seq<SceneObject>, s2: seq<SceneObject>, k: int)
    requires Steady(s0, s1) && Steady(s1, s2) && Rotated(s1)
    requires NoNewExcept(s0, s1, k) && NoNewCollisions(s1, s2)
    ensures NoNewExcept(s0, s2, k)
  {
    forall j, i | 0 <= j < |s2| && 0 <= i < |s2| && i != j && j != k && i != k && Moved(s0, s2, j)
      ensures !Collides(s2[j], s2[i])
    {
      if Moved(s1, s2, j) {
      } else if Moved(s1, s2, i) {
        CollidesSymmetric(s2[j], s2[i]);
      } else if s2[i].position.Some? {
        assert s2[j] == s1[j].(rotation := s2[j].rotation);
        assert Collides(s2[j], s2[i]) == Collides(s1[j], s1[i]);
      }
    }
  }

  /** Dropping positions adds no collision. */
  lemma DroppingKeeps(s0: seq<SceneObject>, s: seq<SceneObject>, s': seq<SceneObject>, k: int)
    requires |s0| == |s| == |s'| && NoNewExcept(s0, s, k)
    requires forall j :: 0 <= j < |s| ==> s'[j] == s[j] || s'[j] == s[j].(position := None)
    ensures NoNewExcept(s0, s', k)
  {
    forall j, i | 0 <= j < |s'| && 0 <= i < |s'| && i != j && j != k && i != k && Moved(s0, s', j)
      ensures !Collides(s'[j], s'[i])
    {
      assert s'[j] == s[j];
    }
  }

  /** An entry that collides with nothing, and that others' moves leave alone, still collides with nothing. */
  lemma ClearStays(s: seq<SceneObject>, s': seq<SceneObject>, k: nat)
    requires k < |s| && Clear(s, k) && Steady(s, s') && Rotated(s) && NoNewCollisions(s, s') && s'[k] == s[k]
    ensures Clear(s', k)
  {
    forall i | 0 <= i < |s'| && i != k
      ensures !Collides(s'[k], s'[i])
    {
      if Moved(s, s', i) {
        CollidesSymmetric(s'[k], s'[i]);
      } else if s'[i].position.Some? {
        assert Collides(s'[k], s'[i]) == Collides(s[k], s[i]);
      }
    }
  }

  // ---------------------------------------------------------------- place_object

  /** How a call of `place_object` ended. */
  datatype Exit =
    | Failed          // an exception
    | NoPositions     // no candidate region at all
    | AlreadyPlaced   // the current position already satisfies everything
    | NoOverlap       // the regions do not intersect
    | Placed          // a position was found and every child was placed
    | Exhausted       // fifty attempts failed

  /** The outcome of one attempt of the retry loop. */
  datatype Outcome = Collided | ChildFailed | Done | Broken(e: SceneError)

  /**
   * `get_possible_positions` on entry `k` finds it at index `k`, and leaves the scene graph as it
   * was except for the rotation it stores, which an entry that had one already keeps.
   */
  lemma PossibleKeeps(sg: seq<SceneObject>, k: nat, order: seq<string>, room: Room)
    requires k < |sg| && Ctx(sg, order)
    ensures Keeps(sg, AfterPossiblePositions(sg[k].id, sg), order, Rank(order, sg[k].id))
    ensures var pp := PossiblePositions(sg[k].id, sg, room);
            pp.Ok? ==> pp.value.index == k && AfterPossiblePositions(sg[k].id, sg) == WithRotation(sg, k, pp.value.rot) &&
                       (sg[k].rotation.Some? ==> sg[k].rotation == Some(pp.value.rot))
  {
    var id := sg[k].id;
    assert IndexOf(id, sg) == Some(k);
    RotationPrecedence(sg[k], sg, Fuel(sg));
    if PossiblePositions(id, sg, room).Ok? {
      AfterPossiblePositionsStores(id, sg, room);
    }
    var rot := GetRotation(sg[k], sg, Fuel(sg));
    if rot.Ok? {
      WithRotationKeeps(sg, k, rot.value, order);
    } else {
      assert AfterPossiblePositions(id, sg) == sg;
      assert NoNewCollisions(sg, sg);
    }
  }

  /** Storing the resolved rotation on an entry keeps the facts placing relies on. */
  lemma WithRotationKeeps(sg: seq<SceneObject>, k: nat, rot: Rotation, order: seq<string>)
    requires k < |sg| && Ctx(sg, order) && (sg[k].rotation.Some? ==> sg[k].rotation == Some(rot))
    ensures Keeps(sg, WithRotation(sg, k, rot), order, Rank(order, sg[k].id))
  {
    var s1 := WithRotation(sg, k, rot);
    assert NoNewCollisions(sg, s1);
  }

  /**
   * `place_object`'s test for keeping the current position (utils.py:1026-1042): the object is
   * placed, collides with nothing, meets the intersection of its regions, and no child collides
   * (or it has no child).
   */
  predicate Skips(s: seq<SceneObject>, k: nat, overlap: Option<Box>)
    requires k < |s|
  {
    s[k].position.Some? && s[k].rotation.Some? && CollisionsBefore(s, k, |s|) == 0 &&
    overlap.Some? && IsCollisionWithBox(BodyOf(s[k]), overlap.value) &&
    var kids := ChildrenOf(s, s[k].id, |s|);
    !ChildCollides(s, kids) || |kids| == 0
  }

  /**
   * What `place_object` does once `get_possible_positions` has resolved rotation `p.rot` and the
   * candidate regions `p.cands` of entry `k`, decided in the order of the source: a missing
   * cluster raises; no region counts `no_positions_found`; an object that passes the skip test
   * keeps its position; regions that do not intersect count their reasons; otherwise the retry
   * loop ends with the object placed, with the attempts used up, or with a child's exception.
   */
  ghost predicate Reported(sg: seq<SceneObject>, k: nat, p: Possible, room: Room, errs: Errors,
                           sg': seq<SceneObject>, r: Result<Errors, SceneError>, exit: Exit)
    requires k < |sg| && |sg'| == |sg|
  {
    var id := sg[k].id;
    var s1 := WithRotation(sg, k, p.rot);
    if sg[k].cluster.None? then
      exit == Failed && r == Err(MissingCluster(id)) && sg' == s1
    else
      var cluster := ClusterBox(sg[k].cluster.value, sg[k].size, p.rot, room);
      var o := OverlapAll(Some(cluster), Boxes(p.cands));
      if |p.cands| == 0 then
        exit == NoPositions && r == Ok(Bump(errs, NoPositionsFound(id))) && sg' == s1
      else if Skips(s1, k, o) then
        exit == AlreadyPlaced && r == Ok(errs) && sg' == s1 && Clear(sg', k)
      else if o.None? then
        exit == NoOverlap && r == Ok(NoOverlapReason(id, p.cands, cluster, errs)) && sg' == s1
      else
        (exit == Placed || exit == Exhausted || exit == Failed) &&
        (exit == Placed ==>
           r == Ok(map[]) && sg'[k].position.Some? && InRange(sg'[k].position.value, o.value) &&
           sg'[k].rotation == Some(p.rot) && Clear(sg', k)) &&
        (exit == Exhausted ==> r.Ok? && r.value != map[] && errs.Keys <= r.value.Keys && sg'[k].position.None?) &&
        (exit == Failed ==> |ChildrenOf(s1, id, |s1|)| > 0)
  }

  /**
   * Where `place_object` reaches its retry loop (a cluster, candidate regions that intersect in a
   * box, and no skip), the loop ran from the random state `g` as `RetryRun` says, over the
   * children in topological order.
   */
  ghost predicate Retried(sg: seq<SceneObject>, k: nat, p: Possible, order: seq<string>, room: Room, errs: Errors,
                          g: Rng, ts: seq<Try>, sg': seq<SceneObject>, r: Result<Errors, SceneError>, g': Rng, exit: Exit)
    requires k < |sg| && DistinctStrings(order)
  {
    var s1 := WithRotation(sg, k, p.rot);
    sg[k].cluster.None? || |p.cands| == 0 ||
    var o := OverlapAll(Some(ClusterBox(sg[k].cluster.value, sg[k].size, p.rot, room)), Boxes(p.cands));
    Skips(s1, k, o) || o.None? ||
    RetryRun(s1, k, o.value, SortedChildren(order, s1, ChildrenOf(s1, sg[k].id, |s1|)), order, room, errs, g, ts,
             sg', r, g', exit)
  }

  /**
   * The contract of `place_object` on entry `k` with errors `errs`: the facts placing keeps, an
   * exception of `get_possible_positions` passed on, and otherwise what `Reported` says.
   */
  ghost predicate PlaceSpec(sg: seq<SceneObject>, k: nat, order: seq<string>, room: Room, errs: Errors,
                            sg': seq<SceneObject>, r: Result<Errors, SceneError>, exit: Exit) {
    k < |sg| && |sg'| == |sg| && sg[k].id in order &&
    Keeps(sg, sg', order, Rank(order, sg[k].id)) && Orphans(sg, sg', k) && (r.Err? <==> exit == Failed) &&
    (match PossiblePositions(sg[k].id, sg, room)
     case Err(e) => r == Err(e) && sg' == AfterPossiblePositions(sg[k].id, sg)
     case Ok(p) => Reported(sg, k, p, room, errs, sg', r, exit))
  }

  /** One call of `place_object` on a child: the scene graph before, the child, its result and exit, the scene graph after. */
  datatype Step = Step(before: seq<SceneObject>, k: nat, result: Result<Errors, SceneError>, exit: Exit,
                       after: seq<SceneObject>)

  /** The scene graph after the steps, starting from `s`. */
  function EndOf(s: seq<SceneObject>, steps: seq<Step>): seq<SceneObject> {
    if |steps| == 0 then s else steps[|steps| - 1].after
  }

  /**
   * The loop over the children as far as it went: from `s`, step `i` placed child `kids[i]`
   * with fresh errors where the step before ended, and every step but the last returned none.
   */
  ghost predicate ChildRun(s: seq<SceneObject>, kids: seq<nat>, order: seq<string>, room: Room, steps: seq<Step>) {
    Chained(s, kids, steps) && forall i {:trigger Called(steps[i], order, room)} :: 0 <= i < |steps| ==> Called(steps[i], order, room)
  }

  /** Step `i` handled child `kids[i]` where the step before ended, and every step but the last returned no error. */
  ghost predicate Chained(s: seq<SceneObject>, kids: seq<nat>, steps: seq<Step>)
    decreases |steps|
  {
    |steps| <= |kids| &&
    (|steps| > 0 ==>
       var pre, st := steps[..|steps| - 1], steps[|steps| - 1];
       Chained(s, kids, pre) && (|pre| > 0 ==> pre[|pre| - 1].result == Ok(map[])) &&
       st.before == EndOf(s, pre) && st.k == kids[|steps| - 1])
  }

  /** The step is a call of `place_object` with fresh errors. */
  ghost predicate Called(st: Step, order: seq<string>, room: Room) {
    PlaceSpec(st.before, st.k, order, room, map[], st.after, st.result, st.exit)
  }

  /** One more child placed where the run so far ended extends the run. */
  lemma ChildRunNext(s: seq<SceneObject>, kids: seq<nat>, order: seq<string>, room: Room, steps: seq<Step>, st: Step)
    requires ChildRun(s, kids, order, room, steps) && |steps| < |kids|
    requires |steps| > 0 ==> steps[|steps| - 1].result == Ok(map[])
    requires st.before == EndOf(s, steps) && st.k == kids[|steps|]
    requires Called(st, order, room)
    ensures ChildRun(s, kids, order, room, steps + [st]) && EndOf(s, steps + [st]) == st.after
  {
    assert (steps + [st])[..|steps|] == steps;
  }

  /** A run over some children is a run over any list that starts with them. */
  lemma {:induction false} ChainedWider(s: seq<SceneObject>, kids: seq<nat>, more: seq<nat>, steps: seq<Step>)
    requires Chained(s, kids, steps)
    ensures Chained(s, kids + more, steps)
    decreases |steps|
  {
    if |steps| > 0 {
      ChainedWider(s, kids, more, steps[..|steps| - 1]);
    }
  }

  /** The same for the whole run. */
  lemma ChildRunWider(s: seq<SceneObject>, kids: seq<nat>, more: seq<nat>, order: seq<string>, room: Room,
                      steps: seq<Step>)
    requires ChildRun(s, kids, order, room, steps)
    ensures ChildRun(s, kids + more, order, room, steps)
  {
    ChainedWider(s, kids, more, steps);
  }

  /**
   * `place_object(obj, scene_graph, room_dimensions, errors)` for the entry at index `k`, with the
   * topological order of the scene graph and the random state passed in and out.
   */
  method PlaceObject(sg: seq<SceneObject>, k: nat, order: seq<string>, room: Room, errs: Errors, g: Rng)
    returns (sg': seq<SceneObject>, r: Result<Errors, SceneError>, g': Rng, ghost exit: Exit,
             ghost attempts: seq<Try>)
    requires k < |sg| && Ctx(sg, order)
    decreases |order| - Rank(order, sg[k].id), 8
    ensures PlaceSpec(sg, k, order, room, errs, sg', r, exit)
    ensures var pp := PossiblePositions(sg[k].id, sg, room);
            pp.Ok? ==> Retried(sg, k, pp.value, order, room, errs, g, attempts, sg', r, g', exit)
  {
    var s1, pp := GetPossiblePositions(sg[k].id, sg, room);
    PossibleKeeps(sg, k, order, room);
    if pp.Err? {
      return s1, Err(pp.error), g, Failed, [];
    }
    sg', r, g', exit, attempts := PlaceWith(sg, s1, k, pp.value, order, room, errs, g);
  }

  /** `place_object` after `get_possible_positions` stored rotation `p.rot` and found `p.cands`. */
  method PlaceWith(sg: seq<SceneObject>, s1: seq<SceneObject>, k: nat, p: Possible, order: seq<string>,
                   room: Room, errs: Errors, g: Rng)
    returns (sg': seq<SceneObject>, r: Result<Errors, SceneError>, g': Rng, ghost exit: Exit,
             ghost attempts: seq<Try>)
    requires k < |sg| && Ctx(sg, order) && s1 == WithRotation(sg, k, p.rot)
    requires Keeps(sg, s1, order, Rank(order, sg[k].id))
    decreases |order| - Rank(order, sg[k].id), 7
    ensures Keeps(sg, sg', order, Rank(order, sg[k].id)) && Orphans(sg, sg', k)
    ensures r.Err? <==> exit == Failed
    ensures Reported(sg, k, p, room, errs, sg', r, exit)
    ensures Retried(sg, k, p, order, room, errs, g, attempts, sg', r, g', exit)
  {
    var id := s1[k].id;
    if s1[k].cluster.None? {
      return s1, Err(MissingCluster(id)), g, Failed, [];
    }
    var cluster := ClusterBox(s1[k].cluster.value, s1[k].size, p.rot, room);
    if |p.cands| == 0 {
      return s1, Ok(Bump(errs, NoPositionsFound(id))), g, NoPositions, [];
    }
    var kids := ChildrenOf(s1, id, |s1|);
    var overlap := OverlapAll(Some(cluster), Boxes(p.cands));
    SteadyCtx(sg, s1, order);
    if s1[k].position.Some? {
      var skip := AlreadyPlacedCheck(s1, k, overlap, kids);
      if skip {
        return s1, Ok(errs), g, AlreadyPlaced, [];
      }
    }
    assert !Skips(s1, k, overlap);
    if overlap.None? {
      var e := GetNoOverlapReason(id, p.cands, cluster, errs);
      return s1, Ok(e), g, NoOverlap, [];
    }
    sg', r, g', exit, attempts := PlaceInOverlap(s1, k, overlap.value, kids, order, room, errs, g);
    KeepsTrans(sg, s1, sg', order, Rank(order, sg[k].id), Rank(order, sg[k].id));
  }

  /**
   * The retry loop of `place_object` once the regions intersect in `box`, over the children in
   * placement order.
   */
  method PlaceInOverlap(s1: seq<SceneObject>, k: nat, box: Box, kids: seq<nat>,
                        order: seq<string>, room: Room, errs: Errors, g: Rng)
    returns (sg': seq<SceneObject>, r: Result<Errors, SceneError>, g': Rng, ghost exit: Exit,
             ghost attempts: seq<Try>)
    requires k < |s1| && Ctx(s1, order) && s1[k].rotation.Some?
    requires kids == ChildrenOf(s1, s1[k].id, |s1|)
    decreases |order| - Rank(order, s1[k].id), 6
    ensures RetryRun(s1, k, box, SortedChildren(order, s1, kids), order, room, errs, g, attempts, sg', r, g', exit)
    ensures Keeps(s1, sg', order, Rank(order, s1[k].id)) && Orphans(s1, sg', k)
    ensures r.Err? <==> exit == Failed
    ensures exit == Placed || exit == Exhausted || exit == Failed
    ensures exit == Placed ==> r == Ok(map[]) && sg'[k].position.Some? && InRange(sg'[k].position.value, box) &&
                               sg'[k].rotation == s1[k].rotation && Clear(sg', k)
    ensures exit == Exhausted ==> r.Ok? && r.value != map[] && errs.Keys <= r.value.Keys && sg'[k].position.None?
    ensures exit == Failed ==> |kids| > 0
  {
    var sorted := SortedChildren(order, s1, kids);
    forall i | 0 <= i < |sorted|
      ensures ListsParent(s1[sorted[i]], s1[k].id)
    {
      assert sorted[i] in sorted;
    }
    sg', r, g', exit, attempts := Retry(s1, k, box, sorted, order, room, errs, g);
    RetryFacts(s1, k, box, sorted, order, room, errs, g, attempts, sg', r, g', exit);
    if exit == Failed {
      var t := attempts[|attempts| - 1];
      ChildRunBounded(t.start, sorted, order, room, t.steps);
      assert sorted[0] in kids;
    }
  }

  /** A run of children takes at most one step per child. */
  lemma ChildRunBounded(s: seq<SceneObject>, kids: seq<nat>, order: seq<string>, room: Room, steps: seq<Step>)
    requires ChildRun(s, kids, order, room, steps)
    ensures |steps| <= |kids|
  {
  }

  /**
   * The test that lets `place_object` keep an existing position: it collides with nothing, lies
   * in the intersection of the regions, and no child collides (or there is no child).
   */
  method AlreadyPlacedCheck(sg: seq<SceneObject>, k: nat, overlap: Option<Box>, kids: seq<nat>)
    returns (skip: bool)
    requires k < |sg| && DistinctIds(sg) && sg[k].position.Some? && sg[k].rotation.Some? && Indices(kids, |sg|)
    ensures skip <==> CollisionsBefore(sg, k, |sg|) == 0 &&
                      overlap.Some? && IsCollisionWithBox(BodyOf(sg[k]), overlap.value) &&
                      (!ChildCollides(sg, kids) || |kids| == 0)
    ensures skip ==> Clear(sg, k)
  {
    var n := CountCollisions(sg, k);
    var checkPreposition := overlap.Some? && IsCollisionWithBox(BodyOf(sg[k]), overlap.value);
    var checkChildren := ChildCollides(sg, kids);
    skip := n == 0 && checkPreposition && (!checkChildren || |kids| == 0);
    CollisionsBeforeZero(sg, k, |sg|);
  }

  /** Entry `k` with position `p`. */
  function Put(s: seq<SceneObject>, k: nat, p: Option<Position>): (r: seq<SceneObject>)
    requires k < |s|
    ensures |r| == |s| && r[k] == s[k].(position := p) && forall j :: 0 <= j < |s| && j != k ==> r[j] == s[j]
  {
    s[k := s[k].(position := p)]
  }

  /** What holds of the scene graph between two attempts for entry `k`, relative to `s1`. */
  ghost predicate Between(s1: seq<SceneObject>, s: seq<SceneObject>, k: nat, order: seq<string>) {
    k < |s1| && s1[k].id in order && Steady(s1, s) && Rotated(s) && NoNewExcept(s1, s, k) &&
    UpTo(s1, s, order, Rank(order, s1[k].id)) && s[k].rotation == s1[k].rotation && Orphans(s1, s, k)
  }

  /** Keeping the facts across two steps. */
  lemma KeepsTrans(s0: seq<SceneObject>, s1: seq<SceneObject>, s2: seq<SceneObject>, order: seq<string>,
                   b1: nat, b2: nat)
    requires Ctx(s0, order) && Keeps(s0, s1, order, b1) && Keeps(s1, s2, order, b2) && b1 <= b2
    ensures Keeps(s0, s2, order, b1)
  {
    NoNewTrans(s0, s1, s2, -1);
    assert forall j :: 0 <= j < |s0| ==> s1[j].id == s0[j].id;
  }

  /** Drawing a new position for `k` keeps the facts between attempts. */
  lemma DrawKeeps(s1: seq<SceneObject>, cur: seq<SceneObject>, k: nat, order: seq<string>, pos: Position)
    requires Ctx(s1, order) && Between(s1, cur, k, order) && s1[k].rotation.Some?
    ensures Between(s1, Put(cur, k, Some(pos)), k, order) && Ctx(Put(cur, k, Some(pos)), order)
  {
    var placed := Put(cur, k, Some(pos));
    assert Steady(s1, placed);
    assert NoNewExcept(s1, placed, k);
    SteadyCtx(s1, placed, order);
  }

  /** A drawn position that collides with nothing adds no collision. */
  lemma DrawnClear(s1: seq<SceneObject>, placed: seq<SceneObject>, k: nat, order: seq<string>)
    requires Between(s1, placed, k, order) && Clear(placed, k)
    ensures NoNewCollisions(s1, placed)
  {
    forall j, i | 0 <= j < |placed| && 0 <= i < |placed| && i != j && (j == k || i == k)
      ensures !Collides(placed[j], placed[i])
    {
      CollidesSymmetric(placed[j], placed[i]);
    }
  }

  /** Placing the children after a clear draw keeps the facts, and keeps `k` clear. */
  lemma ChildrenKeep(s1: seq<SceneObject>, placed: seq<SceneObject>, s: seq<SceneObject>, k: nat,
                     order: seq<string>)
    requires Ctx(s1, order) && Between(s1, placed, k, order) && NoNewCollisions(s1, placed) && Clear(placed, k)
    requires Keeps(placed, s, order, Rank(order, s1[k].id) + 1) && Orphans(placed, s, -1)
    ensures Between(s1, s, k, order) && NoNewCollisions(s1, s) && Clear(s, k) && s[k] == placed[k]
    ensures Keeps(s1, s, order, Rank(order, s1[k].id))
  {
    assert placed[k].id == s1[k].id;
    NoNewTrans(s1, placed, s, -1);
    ClearStays(placed, s, k);
    assert forall j :: 0 <= j < |s1| ==> placed[j].id == s1[j].id;
  }

  /** The children of `k` rank after it and list a parent, so they may be placed. */
  lemma KidsReady(s1: seq<SceneObject>, placed: seq<SceneObject>, k: nat, kids: seq<nat>, order: seq<string>)
    requires Ctx(s1, order) && Between(s1, placed, k, order)
    requires Indices(kids, |s1|) && forall i :: 0 <= i < |kids| ==> ListsParent(s1[kids[i]], s1[k].id)
    ensures forall i :: 0 <= i < |kids| ==> Rank(order, placed[kids[i]].id) > Rank(order, s1[k].id)
    ensures forall i :: 0 <= i < |kids| ==> |placed[kids[i]].placement.objects| > 0
  {
    assert forall i :: 0 <= i < |kids| ==> Rank(order, placed[kids[i]].id) > Rank(order, s1[k].id);
    assert forall i :: 0 <= i < |kids| ==> |placed[kids[i]].placement.objects| > 0;
  }

  /** Deleting the children's positions keeps the facts between attempts. */
  lemma ClearingKeeps(s1: seq<SceneObject>, s: seq<SceneObject>, cleared: seq<SceneObject>, k: nat,
                      kids: seq<nat>, order: seq<string>)
    requires Ctx(s1, order) && Between(s1, s, k, order) && NoNewCollisions(s1, s)
    requires Indices(kids, |s|) && forall i :: 0 <= i < |kids| ==> ListsParent(s1[kids[i]], s1[k].id)
    requires cleared == Unplaced(s, kids)
    ensures Between(s1, cleared, k, order)
  {
    DroppingKeeps(s1, s, cleared, -1);
    forall j | 0 <= j < |s| && j in kids
      ensures Rank(order, s1[j].id) > Rank(order, s1[k].id)
    {
      var i :| 0 <= i < |kids| && kids[i] == j;
    }
  }

  /** Removing the position of `k` after the last attempt. */
  lemma DropKeeps(s1: seq<SceneObject>, s: seq<SceneObject>, k: nat, order: seq<string>)
    requires Between(s1, s, k, order)
    ensures Keeps(s1, Put(s, k, None), order, Rank(order, s1[k].id))
  {
    DroppingKeeps(s1, s, Put(s, k, None), k);
  }

  /**
   * One attempt of the retry loop: the scene graph, errors and random state it starts from, its
   * outcome, the scene graph after the draw, the children's steps, and the state it ends with.
   */
  datatype Try = Try(cur: seq<SceneObject>, errs: Errors, g: Rng, out: Outcome, start: seq<SceneObject>,
                     steps: seq<Step>, cur': seq<SceneObject>, errs': Errors, g': Rng)

  /**
   * What one attempt does: it draws a position; it collides iff the drawn position meets a
   * positioned entry, and then only the draw is kept; otherwise the children run from the draw,
   * and all of them return `{}` (`Done`), the last raises (`Broken`), or the last reports errors,
   * which are added to the object's while every child loses its position (`ChildFailed`).
   */
  ghost predicate Attempted(k: nat, box: Box, kids: seq<nat>, order: seq<string>, room: Room, t: Try) {
    k < |t.cur| && |t.cur'| == |t.cur| &&
    t.start == Put(t.cur, k, Some(Sample(t.g, box).0)) &&
    (t.out == Collided <==> !Clear(t.start, k)) &&
    (t.out == Collided ==> t.cur' == t.start && t.errs' == t.errs && t.g' == Sample(t.g, box).1) &&
    (t.out != Collided ==> ChildRun(t.start, kids, order, room, t.steps)) &&
    (t.out == Done ==>
       t.cur' == EndOf(t.start, t.steps) && |t.steps| == |kids| && t.errs' == t.errs &&
       (forall i :: 0 <= i < |t.steps| ==> t.steps[i].result == Ok(map[])) &&
       t.cur'[k] == t.start[k] && Clear(t.cur', k)) &&
    (t.out.Broken? ==>
       t.cur' == EndOf(t.start, t.steps) && |t.steps| > 0 && t.steps[|t.steps| - 1].result == Err(t.out.e)) &&
    (t.out == ChildFailed ==>
       |t.steps| > 0 && t.steps[|t.steps| - 1].result.Ok? && t.steps[|t.steps| - 1].result.value != map[] &&
       t.errs' == Merge(t.errs, t.steps[|t.steps| - 1].result.value) &&
       t.cur' == Unplaced(EndOf(t.start, t.steps), kids))
  }

  /** The attempts `ts`, each from where the one before ended, the first from `s1`, `errs` and `g`. */
  ghost predicate Tried(s1: seq<SceneObject>, k: nat, box: Box, kids: seq<nat>, order: seq<string>, room: Room,
                        errs: Errors, g: Rng, ts: seq<Try>)
    decreases |ts|
  {
    if |ts| == 0 then true
    else
      var t := ts[|ts| - 1];
      Tried(s1, k, box, kids, order, room, errs, g, ts[..|ts| - 1]) && Attempted(k, box, kids, order, room, t) &&
      if |ts| == 1 then t.cur == s1 && t.errs == errs && t.g == g
      else t.cur == ts[|ts| - 2].cur' && t.errs == ts[|ts| - 2].errs' && t.g == ts[|ts| - 2].g'
  }

  /** Whether the loop goes on after an attempt with this outcome. */
  predicate Retries(out: Outcome) {
    out == Collided || out == ChildFailed
  }

  /**
   * The retry loop as its attempts decide it: every attempt but the last collided or had a child
   * fail; a last attempt that is `Done` places the object, one that is `Broken` passes on the
   * child's exception, and otherwise there were fifty attempts (one for a point region), after
   * which the position is deleted and `no_positions_found` is counted if there were no errors.
   */
  ghost predicate RetryRun(s1: seq<SceneObject>, k: nat, box: Box, kids: seq<nat>, order: seq<string>, room: Room,
                           errs: Errors, g: Rng, ts: seq<Try>, sg': seq<SceneObject>, r: Result<Errors, SceneError>,
                           g': Rng, exit: Exit) {
    Tried(s1, k, box, kids, order, room, errs, g, ts) && 0 < |ts| <= (if IsPointBox(box) then 1 else 50) && k < |s1| &&
    (forall i :: 0 <= i < |ts| - 1 ==> Retries(ts[i].out)) &&
    var t := ts[|ts| - 1];
    g' == t.g' &&
    match t.out
    case Done => exit == Placed && r == Ok(map[]) && sg' == t.cur'
    case Broken(e) => exit == Failed && r == Err(e) && sg' == t.cur'
    case _ =>
      exit == Exhausted && |ts| == (if IsPointBox(box) then 1 else 50) && k < |t.cur'| &&
      sg' == Put(t.cur', k, None) &&
      r == Ok(if t.errs' == map[] then Bump(t.errs', NoPositionsFound(s1[k].id)) else t.errs')
  }

  /** One more attempt from where the last ended extends the chain. */
  lemma TriedNext(s1: seq<SceneObject>, k: nat, box: Box, kids: seq<nat>, order: seq<string>, room: Room,
                  errs: Errors, g: Rng, ts: seq<Try>, t: Try)
    requires Tried(s1, k, box, kids, order, room, errs, g, ts) && Attempted(k, box, kids, order, room, t)
    requires |ts| == 0 ==> t.cur == s1 && t.errs == errs && t.g == g
    requires |ts| > 0 ==> t.cur == ts[|ts| - 1].cur' && t.errs == ts[|ts| - 1].errs' && t.g == ts[|ts| - 1].g'
    ensures Tried(s1, k, box, kids, order, room, errs, g, ts + [t])
  {
    assert (ts + [t])[..|ts|] == ts;
  }

  /** The retry loop so far: attempts `ts` that all retried, ending with `cur`, `errors` and `rng`. */
  ghost predicate Going(s1: seq<SceneObject>, k: nat, box: Box, kids: seq<nat>, order: seq<string>, room: Room,
                        errs: Errors, g: Rng, ts: seq<Try>, cur: seq<SceneObject>, errors: Errors, rng: Rng) {
    Tried(s1, k, box, kids, order, room, errs, g, ts) && (forall i :: 0 <= i < |ts| ==> Retries(ts[i].out)) &&
    (|ts| == 0 ==> cur == s1 && errors == errs && rng == g) &&
    (|ts| > 0 ==> cur == ts[|ts| - 1].cur' && errors == ts[|ts| - 1].errs' && rng == ts[|ts| - 1].g')
  }

  /** Once the attempts are used up the loop deletes the position and counts `no_positions_found` without errors. */
  lemma RetryExhausted(s1: seq<SceneObject>, k: nat, box: Box, kids: seq<nat>, order: seq<string>, room: Room,
                       errs: Errors, g: Rng, ts: seq<Try>, cur: seq<SceneObject>, errors: Errors, rng: Rng)
    requires Going(s1, k, box, kids, order, room, errs, g, ts, cur, errors, rng)
    requires k < |s1| && |ts| == (if IsPointBox(box) then 1 else 50)
    ensures k < |cur|
    ensures RetryRun(s1, k, box, kids, order, room, errs, g, ts, Put(cur, k, None),
                     Ok(if errors == map[] then Bump(errors, NoPositionsFound(s1[k].id)) else errors), rng, Exhausted)
  {
    var t := ts[|ts| - 1];
    assert Attempted(k, box, kids, order, room, t);
    assert Retries(t.out);
  }

  /** What a run of the retry loop leaves: the exit its last attempt decides, and the facts of that attempt. */
  lemma RetryFacts(s1: seq<SceneObject>, k: nat, box: Box, kids: seq<nat>, order: seq<string>, room: Room,
                   errs: Errors, g: Rng, ts: seq<Try>, sg': seq<SceneObject>, r: Result<Errors, SceneError>,
                   g': Rng, exit: Exit)
    requires RetryRun(s1, k, box, kids, order, room, errs, g, ts, sg', r, g', exit)
    ensures r.Err? <==> exit == Failed
    ensures exit == Failed || exit == Placed || exit == Exhausted
    ensures exit == Placed ==> r == Ok(map[]) && k < |sg'| && sg'[k].position.Some? &&
                               InRange(sg'[k].position.value, box) && Clear(sg', k)
    ensures exit == Failed ==> var t := ts[|ts| - 1];
                               ChildRun(t.start, kids, order, room, t.steps) && sg' == EndOf(t.start, t.steps) &&
                               |t.steps| > 0 && t.steps[|t.steps| - 1].result == r
    ensures exit == Exhausted ==> r.Ok? && r.value != map[] && k < |sg'| && sg'[k].position.None?
  {
    var t := ts[|ts| - 1];
    assert Tried(s1, k, box, kids, order, room, errs, g, ts);
    assert Attempted(k, box, kids, order, room, t);
    if t.out == Done {
      assert t.start[k].position == Some(Sample(t.g, box).0);
    }
  }

  /**
   * The retry loop: at most fifty attempts, and a single one once the region is a single point,
   * each recorded in `attempts`.
   */
  method Retry(s1: seq<SceneObject>, k: nat, box: Box, kids: seq<nat>, order: seq<string>, room: Room,
               errs: Errors, g: Rng)
    returns (sg': seq<SceneObject>, r: Result<Errors, SceneError>, g': Rng, ghost exit: Exit,
             ghost attempts: seq<Try>)
    requires k < |s1| && Ctx(s1, order) && s1[k].rotation.Some?
    requires Indices(kids, |s1|) && forall i :: 0 <= i < |kids| ==> ListsParent(s1[kids[i]], s1[k].id)
    decreases |order| - Rank(order, s1[k].id), 5
    ensures RetryRun(s1, k, box, kids, order, room, errs, g, attempts, sg', r, g', exit)
    ensures Keeps(s1, sg', order, Rank(order, s1[k].id)) && Orphans(s1, sg', k)
    ensures exit == Placed ==> sg'[k].rotation == s1[k].rotation
    ensures exit == Exhausted ==> r.Ok? && errs.Keys <= r.value.Keys
  {
    var cur := s1;
    var errors := errs;
    var rng := g;
    var counter := 0;
    attempts := [];
    assert NoNewExcept(s1, s1, k);
    while true
      invariant 0 <= counter <= 50 && Between(s1, cur, k, order) && errs.Keys <= errors.Keys
      invariant !IsPointBox(box) ==> |attempts| == counter
      invariant IsPointBox(box) ==> (counter == 0 && |attempts| == 0) || (counter == 50 && |attempts| == 1)
      invariant Going(s1, k, box, kids, order, room, errs, g, attempts, cur, errors, rng)
      decreases 51 - counter
    {
      counter := counter + 1;
      if counter > 50 {
        RetryExhausted(s1, k, box, kids, order, room, errs, g, attempts, cur, errors, rng);
        DropKeeps(s1, cur, k, order);
        if errors == map[] {
          errors := Bump(errors, NoPositionsFound(s1[k].id));
        }
        return Put(cur, k, None), Ok(errors), rng, Exhausted, attempts;
      }
      if IsPointBox(box) {
        counter := 50;
      }
      var out;
      cur, out, errors, rng, attempts := RetryTurn(s1, k, box, kids, order, room, errs, g, attempts, cur, errors, rng);
      match out
      case Done =>
        return cur, Ok(map[]), rng, Placed, attempts;
      case Broken(e) =>
        return cur, Err(e), rng, Failed, attempts;
      case _ =>
    }
  }

  /** One turn of the retry loop: an attempt from where the last one ended, recorded after the others. */
  method RetryTurn(s1: seq<SceneObject>, k: nat, box: Box, kids: seq<nat>, order: seq<string>, room: Room,
                   errs: Errors, g: Rng, ghost ts: seq<Try>, cur: seq<SceneObject>, errors: Errors, rng: Rng)
    returns (cur': seq<SceneObject>, out: Outcome, errors': Errors, rng': Rng, ghost ts': seq<Try>)
    requires Ctx(s1, order) && Between(s1, cur, k, order) && s1[k].rotation.Some? && errs.Keys <= errors.Keys
    requires Indices(kids, |s1|) && forall i :: 0 <= i < |kids| ==> ListsParent(s1[kids[i]], s1[k].id)
    requires Going(s1, k, box, kids, order, room, errs, g, ts, cur, errors, rng)
    requires |ts| < (if IsPointBox(box) then 1 else 50)
    decreases |order| - Rank(order, s1[k].id), 5, 0
    ensures Between(s1, cur', k, order) && |ts'| == |ts| + 1
    ensures (out == Done || out.Broken?) ==> Keeps(s1, cur', order, Rank(order, s1[k].id))
    ensures Retries(out) ==> errs.Keys <= errors'.Keys && Going(s1, k, box, kids, order, room, errs, g, ts', cur', errors', rng')
    ensures out == Done ==> RetryRun(s1, k, box, kids, order, room, errs, g, ts', cur', Ok(map[]), rng', Placed)
    ensures out.Broken? ==> RetryRun(s1, k, box, kids, order, room, errs, g, ts', cur', Err(out.e), rng', Failed)
  {
    ghost var start, last;
    cur', out, errors', rng', start, last := Attempt(s1, cur, k, box, kids, order, room, errors, rng);
    ghost var t := Try(cur, errors, rng, out, start, last, cur', errors', rng');
    RetryStep(s1, k, box, kids, order, room, errs, g, ts, t);
    ts' := ts + [t];
    if out == ChildFailed {
      assert errors.Keys <= errors'.Keys;
    }
  }

  /** An attempt from where the loop stands either lets it go on or ends it as `RetryRun` says. */
  lemma RetryStep(s1: seq<SceneObject>, k: nat, box: Box, kids: seq<nat>, order: seq<string>, room: Room,
                  errs: Errors, g: Rng, ts: seq<Try>, t: Try)
    requires Going(s1, k, box, kids, order, room, errs, g, ts, t.cur, t.errs, t.g)
    requires Attempted(k, box, kids, order, room, t) && k < |s1| && |ts| < (if IsPointBox(box) then 1 else 50)
    ensures Retries(t.out) ==> Going(s1, k, box, kids, order, room, errs, g, ts + [t], t.cur', t.errs', t.g')
    ensures t.out == Done ==> RetryRun(s1, k, box, kids, order, room, errs, g, ts + [t], t.cur', Ok(map[]), t.g', Placed)
    ensures t.out.Broken? ==> RetryRun(s1, k, box, kids, order, room, errs, g, ts + [t], t.cur', Err(t.out.e), t.g', Failed)
  {
    TriedNext(s1, k, box, kids, order, room, errs, g, ts, t);
    assert forall i :: 0 <= i < |ts| ==> (ts + [t])[i] == ts[i];
  }

  /**
   * One attempt: draw a position, and unless it collides place the children in order; when a
   * child reports errors, they are added to the object's and every child loses its position.
   */
  method Attempt(s1: seq<SceneObject>, cur: seq<SceneObject>, k: nat, box: Box, kids: seq<nat>,
                 order: seq<string>, room: Room, errs: Errors, g: Rng)
    returns (cur': seq<SceneObject>, out: Outcome, errs': Errors, g': Rng,
             ghost start: seq<SceneObject>, ghost steps: seq<Step>)
    requires Ctx(s1, order) && Between(s1, cur, k, order) && s1[k].rotation.Some?
    requires Indices(kids, |s1|) && forall i :: 0 <= i < |kids| ==> ListsParent(s1[kids[i]], s1[k].id)
    decreases |order| - Rank(order, s1[k].id), 4
    ensures Between(s1, cur', k, order)
    ensures (out == Done || out.Broken?) ==> Keeps(s1, cur', order, Rank(order, s1[k].id))
    ensures Attempted(k, box, kids, order, room, Try(cur, errs, g, out, start, steps, cur', errs', g'))
  {
    var drawn := Sample(g, box);
    g' := drawn.1;
    var placed := Put(cur, k, Some(drawn.0));
    start, steps := placed, [];
    DrawKeeps(s1, cur, k, order, drawn.0);
    var flag := AnyCollision(placed, k);
    if flag {
      return placed, Collided, errs, g', start, steps;
    }
    DrawnClear(s1, placed, k, order);
    cur', out, errs', g', steps := AttemptChildren(s1, placed, k, kids, order, room, errs, g');
  }

  /**
   * The attempt after a draw `placed` that collides with nothing: place the children in order,
   * and when one reports errors add them to the object's and delete every child's position.
   */
  method AttemptChildren(s1: seq<SceneObject>, placed: seq<SceneObject>, k: nat, kids: seq<nat>,
                         order: seq<string>, room: Room, errs: Errors, g: Rng)
    returns (cur': seq<SceneObject>, out: Outcome, errs': Errors, g': Rng, ghost steps: seq<Step>)
    requires Ctx(s1, order) && Between(s1, placed, k, order) && Ctx(placed, order)
    requires NoNewCollisions(s1, placed) && Clear(placed, k)
    requires Indices(kids, |s1|) && forall i :: 0 <= i < |kids| ==> ListsParent(s1[kids[i]], s1[k].id)
    decreases |order| - Rank(order, s1[k].id), 3
    ensures out != Collided && Between(s1, cur', k, order) && ChildRun(placed, kids, order, room, steps)
    ensures (out == Done || out.Broken?) ==> Keeps(s1, cur', order, Rank(order, s1[k].id))
    ensures out == Done ==> cur' == EndOf(placed, steps) && |steps| == |kids| && errs' == errs &&
                            (forall i :: 0 <= i < |steps| ==> steps[i].result == Ok(map[])) &&
                            cur'[k] == placed[k] && Clear(cur', k)
    ensures out.Broken? ==> cur' == EndOf(placed, steps) && |steps| > 0 && steps[|steps| - 1].result == Err(out.e)
    ensures out == ChildFailed ==>
              |steps| > 0 && steps[|steps| - 1].result.Ok? && steps[|steps| - 1].result.value != map[] &&
              errs' == Merge(errs, steps[|steps| - 1].result.value) && cur' == Unplaced(EndOf(placed, steps), kids)
  {
    var failed, err;
    KidsReady(s1, placed, k, kids, order);
    cur', failed, errs', g', err, steps := PlaceChildren(placed, kids, s1[k].id, order, room, errs, g);
    ChildrenKeep(s1, placed, cur', k, order);
    if err.Some? {
      return cur', Broken(err.value), errs', g', steps;
    }
    if failed {
      var cleared := ClearPositions(cur', kids);
      ClearingKeeps(s1, cur', cleared, k, kids, order);
      return cleared, ChildFailed, errs', g', steps;
    }
    out := Done;
  }

  /**
   * `for child in children`: place each child with fresh errors (`place_object(child, ...,
   * errors={})`), stopping at the first that raises or reports errors; those errors are added to
   * the parent's.
   */
  method PlaceChildren(sg: seq<SceneObject>, kids: seq<nat>, pid: string, order: seq<string>, room: Room,
                       errs: Errors, g: Rng)
    returns (sg': seq<SceneObject>, failed: bool, errs': Errors, g': Rng, err: Option<SceneError>,
             ghost steps: seq<Step>)
    requires Ctx(sg, order) && pid in order
    requires Indices(kids, |sg|) && forall i :: 0 <= i < |kids| ==> Rank(order, sg[kids[i]].id) > Rank(order, pid)
    requires forall i :: 0 <= i < |kids| ==> |sg[kids[i]].placement.objects| > 0
    decreases |order| - Rank(order, pid), 2
    ensures Keeps(sg, sg', order, Rank(order, pid) + 1) && Orphans(sg, sg', -1)
    ensures ChildRun(sg, kids, order, room, steps) && sg' == EndOf(sg, steps)
    ensures err.Some? <==> |steps| > 0 && steps[|steps| - 1].result.Err?
    ensures err.Some? ==> steps[|steps| - 1].result == Err(err.value)
    ensures failed <==> |steps| > 0 && steps[|steps| - 1].result.Ok? && steps[|steps| - 1].result.value != map[]
    ensures failed ==> errs' == Merge(errs, steps[|steps| - 1].result.value)
    ensures !failed && err.None? ==> |steps| == |kids| && errs' == errs &&
                                     forall i :: 0 <= i < |steps| ==> steps[i].result == Ok(map[])
  {
    sg' := sg;
    errs' := errs;
    g' := g;
    failed := false;
    err := None;
    steps := [];
    assert NoNewCollisions(sg, sg);
    for i := 0 to |kids|
      invariant ChildrenSoFar(sg, kids, pid, order, room, sg', steps, i)
      invariant !failed && err.None? && errs' == errs
    {
      var stop;
      sg', stop, failed, errs', g', err, steps := ChildTurn(sg, kids, pid, order, room, errs, g', i, sg', steps);
      if stop {
        return;
      }
    }
  }

  /**
   * What the loop over the children has done after `i` children: every one of them placed
   * without errors, each where the one before left the scene graph.
   */
  ghost predicate ChildrenSoFar(sg: seq<SceneObject>, kids: seq<nat>, pid: string, order: seq<string>, room: Room,
                                cur: seq<SceneObject>, steps: seq<Step>, i: nat)
    requires Ctx(sg, order) && pid in order && Indices(kids, |sg|)
  {
    Keeps(sg, cur, order, Rank(order, pid) + 1) && Orphans(sg, cur, -1) &&
    ChildRun(sg, kids, order, room, steps) && cur == EndOf(sg, steps) && |steps| == i &&
    forall j :: 0 <= j < |steps| ==> steps[j].result == Ok(map[])
  }

  /**
   * What the loop over the children promises: the children tried so far, each where the one before
   * left the scene graph; it raised exactly when the last one raised, and reported errors (added to
   * `errs`) exactly when the last one reported some; otherwise every child was placed without errors.
   */
  ghost predicate ChildrenResult(sg: seq<SceneObject>, kids: seq<nat>, pid: string, order: seq<string>, room: Room,
                                 errs: Errors, sg': seq<SceneObject>, failed: bool, errs': Errors,
                                 err: Option<SceneError>, steps: seq<Step>)
    requires Ctx(sg, order) && pid in order && Indices(kids, |sg|)
  {
    Keeps(sg, sg', order, Rank(order, pid) + 1) && Orphans(sg, sg', -1) &&
    ChildRun(sg, kids, order, room, steps) && sg' == EndOf(sg, steps) &&
    (err.Some? <==> |steps| > 0 && steps[|steps| - 1].result.Err?) &&
    (err.Some? ==> steps[|steps| - 1].result == Err(err.value)) &&
    (failed <==> |steps| > 0 && steps[|steps| - 1].result.Ok? && steps[|steps| - 1].result.value != map[]) &&
    (failed ==> errs' == Merge(errs, steps[|steps| - 1].result.value)) &&
    (!failed && err.None? ==> |steps| == |kids| && errs' == errs &&
                              forall i :: 0 <= i < |steps| ==> steps[i].result == Ok(map[]))
  }

  /** One turn of the loop over the children, and whether the loop stops there. */
  method ChildTurn(sg: seq<SceneObject>, kids: seq<nat>, pid: string, order: seq<string>, room: Room,
                   errs: Errors, g: Rng, i: nat, cur: seq<SceneObject>, ghost steps: seq<Step>)
    returns (next: seq<SceneObject>, stop: bool, failed: bool, errs': Errors, g': Rng, err: Option<SceneError>,
             ghost steps': seq<Step>)
    requires Ctx(sg, order) && pid in order
    requires Indices(kids, |sg|) && forall i :: 0 <= i < |kids| ==> Rank(order, sg[kids[i]].id) > Rank(order, pid)
    requires forall i :: 0 <= i < |kids| ==> |sg[kids[i]].placement.objects| > 0
    requires i < |kids| && ChildrenSoFar(sg, kids, pid, order, room, cur, steps, i)
    decreases |order| - Rank(order, pid), 1
    ensures !stop ==> ChildrenSoFar(sg, kids, pid, order, room, next, steps', i + 1) &&
                      !failed && err.None? && errs' == errs
    ensures stop ==> ChildrenResult(sg, kids, pid, order, room, errs, next, failed, errs', err, steps')
  {
    var e;
    ghost var exit;
    next, e, g', exit := PlaceNext(sg, cur, kids, pid, order, room, g, i, steps);
    steps' := steps + [Step(cur, kids[i], e, exit, next)];
    stop := e.Err? || e.value != map[];
    failed := e.Ok? && e.value != map[];
    err := if e.Err? then Some(e.error) else None;
    errs' := if failed then Merge(errs, e.value) else errs;
  }

  /** One turn of the loop over the children: the next child placed where the run so far ended. */
  method PlaceNext(sg: seq<SceneObject>, cur: seq<SceneObject>, kids: seq<nat>, pid: string, order: seq<string>,
                   room: Room, g: Rng, i: nat, ghost steps: seq<Step>)
    returns (next: seq<SceneObject>, e: Result<Errors, SceneError>, g': Rng, ghost exit: Exit)
    requires Ctx(sg, order) && pid in order
    requires Indices(kids, |sg|) && forall i :: 0 <= i < |kids| ==> Rank(order, sg[kids[i]].id) > Rank(order, pid)
    requires forall i :: 0 <= i < |kids| ==> |sg[kids[i]].placement.objects| > 0
    requires ChildRun(sg, kids, order, room, steps) && cur == EndOf(sg, steps) && |steps| == i < |kids|
    requires |steps| > 0 ==> steps[|steps| - 1].result == Ok(map[])
    requires Keeps(sg, cur, order, Rank(order, pid) + 1) && Orphans(sg, cur, -1)
    decreases |order| - Rank(order, pid), 0
    ensures Keeps(sg, next, order, Rank(order, pid) + 1) && Orphans(sg, next, -1)
    ensures ChildRun(sg, kids, order, room, steps + [Step(cur, kids[i], e, exit, next)])
    ensures EndOf(sg, steps + [Step(cur, kids[i], e, exit, next)]) == next
  {
    var c := kids[i];
    SteadyCtx(sg, cur, order);
    assert cur[c].id == sg[c].id;
    ghost var attempts;
    next, e, g', exit, attempts := PlaceObject(cur, c, order, room, map[], g);
    KeepsTrans(sg, cur, next, order, Rank(order, pid) + 1, Rank(order, sg[c].id));
    OrphansTrans(sg, cur, next, c);
    ChildRunNext(sg, kids, order, room, steps, Step(cur, c, e, exit, next));
  }
}
