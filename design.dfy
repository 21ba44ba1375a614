/**
 * The two steps of the `IDesign` class (IDesign.py) that run once the scene graph is complete:
 * `create_object_clusters`, which stores every object's rotation and cluster footprint, and
 * `backtrack`, which fixes the objects whose regions meet in a single point and then places
 * the others depth by depth, stepping back one level whenever an object cannot be placed.
 */
module Design {
  import opened Wrappers
  import opened Geometry
  import opened Constraints
  import opened Scene
  import opened Graph
  import opened Relations
  import opened Cluster
  import opened Depth
  import opened Positions
  import opened Reasons
  import opened Placing

  /** A scene graph as a loop leaves it, and the exception that stopped the loop, if any. */
  datatype Run = Run(sg: seq<SceneObject>, err: Option<SceneError>)

  // ---------------------------------------------------------------- graph shape

  /** Two scene graphs with the same ids and placements, entry by entry. */
  predicate SameShape(s: seq<SceneObject>, t: seq<SceneObject>) {
    |s| == |t| && forall i :: 0 <= i < |s| ==> s[i].id == t[i].id && s[i].placement == t[i].placement
  }

  /** `build_graph` reads nothing but ids and placements. */
  lemma {:induction false} BuildSpecShape(s: seq<SceneObject>, t: seq<SceneObject>)
    requires SameShape(s, t)
    ensures BuildSpec(s) == BuildSpec(t)
    decreases |s|
  {
    if |s| > 0 {
      BuildSpecShape(s[..|s| - 1], t[..|t| - 1]);
    }
  }

  // ---------------------------------------------------------------- reads of the cluster key

  /** Equal except for the `cluster` key. */
  predicate SameButCluster(a: SceneObject, b: SceneObject) {
    a.(cluster := b.cluster) == b
  }

  predicate Blind(s: seq<SceneObject>, t: seq<SceneObject>) {
    |s| == |t| && forall i {:trigger s[i], t[i]} :: 0 <= i < |s| ==> SameButCluster(s[i], t[i])
  }

  lemma {:induction false} FindBlind(id: string, s: seq<SceneObject>, t: seq<SceneObject>)
    requires Blind(s, t)
    ensures Find(id, s).Some? == Find(id, t).Some?
    ensures Find(id, s).Some? ==> SameButCluster(Find(id, s).value, Find(id, t).value)
    decreases |s|
  {
    if |s| > 0 && s[0].id != id {
      assert Blind(s[1..], t[1..]) by {
        assert forall i :: 0 <= i < |s| - 1 ==> s[1..][i] == s[i + 1] && t[1..][i] == t[i + 1];
      }
      FindBlind(id, s[1..], t[1..]);
    }
  }

  lemma {:induction false} FirstMissingBlind(refs: seq<ObjectEdge>, s: seq<SceneObject>, t: seq<SceneObject>)
    requires Blind(s, t)
    ensures FirstMissing(refs, s) == FirstMissing(refs, t)
    decreases |refs|
  {
    if |refs| > 0 {
      FindBlind(refs[0].target, s, t);
      FirstMissingBlind(refs[1..], s, t);
    }
  }

  /** `get_rotation` never reads the `cluster` key. */
  lemma RotationBlind(o: SceneObject, p: SceneObject, s: seq<SceneObject>, t: seq<SceneObject>, fuel: nat)
    requires SameButCluster(o, p) && Blind(s, t)
    ensures GetRotation(o, s, fuel) == GetRotation(p, t, fuel)
  {
    RotationsAgreeAll(o, p, s, t, fuel);
  }

  /** Corresponding entries get the same rotation. */
  predicate RotationsAgree(o: SceneObject, p: SceneObject, s: seq<SceneObject>, t: seq<SceneObject>, fuel: nat) {
    GetRotation(o, s, fuel) == GetRotation(p, t, fuel)
  }

  /** Induction on the fuel: agreement carries back along the chain of first parents. */
  lemma {:induction false} RotationsAgreeAll(o: SceneObject, p: SceneObject, s: seq<SceneObject>, t: seq<SceneObject>,
                                             fuel: nat)
    requires SameButCluster(o, p) && Blind(s, t)
    ensures RotationsAgree(o, p, s, t, fuel)
    decreases fuel
  {
    var follows, q1, q2 := RotationBlindStep(o, p, s, t, fuel);
    if follows {
      RotationsAgreeAll(q1, q2, s, t, fuel - 1);
    }
  }

  /** One step of `get_rotation` on corresponding entries: both stop with the same result, or both follow corresponding parents. */
  lemma RotationBlindStep(o: SceneObject, p: SceneObject, s: seq<SceneObject>, t: seq<SceneObject>, fuel: nat)
    returns (follows: bool, q1: SceneObject, q2: SceneObject)
    requires SameButCluster(o, p) && Blind(s, t)
    ensures follows ==> fuel > 0 && SameButCluster(q1, q2) &&
                        (RotationsAgree(q1, q2, s, t, fuel - 1) ==> RotationsAgree(o, p, s, t, fuel))
    ensures !follows ==> RotationsAgree(o, p, s, t, fuel)
  {
    follows := OwnRotation(o).None? && FirstMissing(o.placement.objects, s).None? && |o.placement.objects| > 0 && fuel > 0;
    q1, q2 := o, p;
    if follows {
      q1, q2 := RotationBlindFollows(o, p, s, t, fuel);
    } else {
      RotationBlindStops(o, p, s, t, fuel);
    }
  }

  /** Where `get_rotation` follows the first parent, it follows it to corresponding entries. */
  lemma RotationBlindFollows(o: SceneObject, p: SceneObject, s: seq<SceneObject>, t: seq<SceneObject>, fuel: nat)
    returns (q1: SceneObject, q2: SceneObject)
    requires SameButCluster(o, p) && Blind(s, t)
    requires OwnRotation(o).None? && FirstMissing(o.placement.objects, s).None? && |o.placement.objects| > 0 && fuel > 0
    ensures SameButCluster(q1, q2)
    ensures GetRotation(o, s, fuel) == GetRotation(q1, s, fuel - 1)
    ensures GetRotation(p, t, fuel) == GetRotation(q2, t, fuel - 1)
  {
    FirstMissingBlind(o.placement.objects, s, t);
    assert OwnRotation(p).None? && o.placement == p.placement;
    var id := o.placement.objects[0].target;
    assert p.placement.objects[0].target == id;
    FindBlind(id, s, t);
    FollowFirstParent(o, s, fuel);
    FollowFirstParent(p, t, fuel);
    q1 := Find(id, s).value;
    q2 := Find(id, t).value;
  }

  /** The cases where `get_rotation` does not follow a parent. */
  lemma RotationBlindStops(o: SceneObject, p: SceneObject, s: seq<SceneObject>, t: seq<SceneObject>, fuel: nat)
    requires SameButCluster(o, p) && Blind(s, t)
    requires !(OwnRotation(o).None? && FirstMissing(o.placement.objects, s).None? && |o.placement.objects| > 0 && fuel > 0)
    ensures GetRotation(o, s, fuel) == GetRotation(p, t, fuel)
  {
    FirstMissingBlind(o.placement.objects, s, t);
    assert OwnRotation(o) == OwnRotation(p) && o.placement == p.placement;
  }

  /** Without an own rotation and with every parent present, `get_rotation` follows the first parent. */
  lemma FollowFirstParent(o: SceneObject, s: seq<SceneObject>, fuel: nat)
    requires OwnRotation(o).None? && |o.placement.objects| > 0 && fuel > 0
    requires FirstMissing(o.placement.objects, s).None?
    ensures Find(o.placement.objects[0].target, s).Some?
    ensures GetRotation(o, s, fuel) == GetRotation(Find(o.placement.objects[0].target, s).value, s, fuel - 1)
  {
  }

  /** `get_cluster_size` never reads the `cluster` key either. */
  lemma {:induction false} ClusterSizeBlind(g: Digraph, s: seq<SceneObject>, t: seq<SceneObject>, order: seq<string>,
                                            node: string)
    requires WellFormed(g) && IsTopoOrder(g, order) && node in order && Blind(s, t)
    ensures ClusterSize(g, s, order, node) == ClusterSize(g, t, order, node)
    decreases |order| - Rank(order, node), 1, 0
  {
    FindBlind(node, s, t);
    var o, p := Lookup(node, s), Lookup(node, t);
    if o.Err? {
      assert p == o;
    } else {
      assert p.Ok? && SameButCluster(o.value, p.value);
      RotationBlind(o.value, p.value, s, t, Fuel(s));
      assert Fuel(t) == Fuel(s);
      var rot := GetRotation(o.value, s, Fuel(s));
      if rot.Ok? {
        ClusterFoldBlind(g, s, t, order, node, rot.value, LatestFirstChildren(g, node, order));
      }
    }
  }

  lemma {:induction false} ClusterFoldBlind(g: Digraph, s: seq<SceneObject>, t: seq<SceneObject>, order: seq<string>,
                                            node: string, rot: Rotation, kids: seq<string>)
    requires WellFormed(g) && IsTopoOrder(g, order) && node in order && Blind(s, t)
    requires forall v :: v in kids ==> HasEdge(g, node, v)
    ensures ClusterFold(g, s, order, node, rot, kids) == ClusterFold(g, t, order, node, rot, kids)
    decreases |order| - Rank(order, node), 0, |kids|
  {
    if |kids| > 0 {
      var pre := kids[..|kids| - 1];
      ClusterFoldBlind(g, s, t, order, node, rot, pre);
      var acc := ClusterFold(g, s, order, node, rot, pre);
      if acc.Ok? {
        ClusterStepBlind(g, s, t, order, node, rot, acc.value, kids[|kids| - 1]);
      }
    }
  }

  lemma {:induction false} ClusterStepBlind(g: Digraph, s: seq<SceneObject>, t: seq<SceneObject>, order: seq<string>,
                                            node: string, rot: Rotation, acc: Cluster, child: string)
    requires WellFormed(g) && IsTopoOrder(g, order) && node in order && HasEdge(g, node, child) && Blind(s, t)
    ensures ClusterStep(g, s, order, node, rot, acc, child) == ClusterStep(g, t, order, node, rot, acc, child)
    decreases |order| - Rank(order, node), 0, 0
  {
    var w := WeightOf(g, node, child).value;
    if child !in acc.members && IsDirectional(w.prep) {
      FindBlind(child, s, t);
      var o, p := Lookup(child, s), Lookup(child, t);
      if o.Err? {
        assert p == o;
      } else {
        assert p.Ok? && SameButCluster(o.value, p.value);
        RotationBlind(o.value, p.value, s, t, Fuel(s));
        assert Fuel(t) == Fuel(s);
        EdgeGoesForward(g, order, node, child);
        ClusterSizeBlind(g, s, t, order, child);
      }
    }
  }

  // ---------------------------------------------------------------- create_object_clusters

  /** The first loop of `create_object_clusters`, from entry `i` on: resolve a rotation, store it. */
  function AssignRotations(sg: seq<SceneObject>, i: nat): Run
    requires i <= |sg|
    decreases |sg| - i
  {
    if i == |sg| then Run(sg, None)
    else match GetRotation(sg[i], sg, Fuel(sg))
      case Err(e) => Run(sg, Some(e))
      case Ok(rot) => AssignRotations(WithRotation(sg, i, rot), i + 1)
  }

  /** Equal except for the `rotation` keys. */
  predicate OnlyRotations(s: seq<SceneObject>, t: seq<SceneObject>) {
    |s| == |t| && forall j :: 0 <= j < |s| ==> t[j] == s[j].(rotation := t[j].rotation)
  }

  /**
   * The rotation loop changes nothing but rotations; entries before `i` are left alone; once it
   * finishes every entry has a rotation, and an entry that determines its rotation on its own
   * (explicitly, by facing a layout element, or by being one) keeps exactly that rotation. It
   * can only fail on an entry that would have inherited its rotation.
   */
  lemma {:induction false} RotationsAssigned(sg: seq<SceneObject>, i: nat)
    requires i <= |sg|
    ensures var r := AssignRotations(sg, i);
            OnlyRotations(sg, r.sg) && (forall j :: 0 <= j < i ==> r.sg[j] == sg[j]) &&
            (r.err.None? ==> forall j :: i <= j < |sg| ==> r.sg[j].rotation.Some?) &&
            (r.err.None? ==> forall j :: i <= j < |sg| && OwnRotation(sg[j]).Some? ==>
                               r.sg[j].rotation == OwnRotation(sg[j])) &&
            (r.err.Some? ==> exists j :: i <= j < |sg| && OwnRotation(sg[j]).None?)
    decreases |sg| - i
  {
    if i < |sg| {
      RotationPrecedence(sg[i], sg, Fuel(sg));
      match GetRotation(sg[i], sg, Fuel(sg))
      case Err(_) =>
      case Ok(rot) =>
        RotationsAssigned(WithRotation(sg, i, rot), i + 1);
    }
  }

  /** `{"x_neg": left of, "x_pos": right of, "y_neg": behind, "y_pos": in front}`. */
  function Area(e: Extents): (c: ClusterArea)
    ensures c.xNeg == Side(e, LeftOf) && c.xPos == Side(e, RightOf)
    ensures c.yNeg == Side(e, Behind) && c.yPos == Side(e, InFront)
  {
    ClusterArea(e.left, e.right, e.behind, e.front)
  }

  /** `node_obj["cluster"] = ...` on the first entry with the id. */
  function SetCluster(sg: seq<SceneObject>, id: string, c: ClusterArea): (r: seq<SceneObject>)
    ensures Blind(sg, r)
    ensures forall j :: 0 <= j < |sg| ==> r[j] == if IndexOf(id, sg) == Some(j) then sg[j].(cluster := Some(c)) else sg[j]
  {
    match IndexOf(id, sg)
    case None => sg
    case Some(j) => sg[j := sg[j].(cluster := Some(c))]
  }

  /** The node `id` is among the nodes from index `i` on. */
  predicate Pending(g: Digraph, i: nat, id: string) {
    exists m :: i <= m < |g.nodes| && g.nodes[m] == id
  }

  /** The cluster loop, from node `i` on, writes to entry `j`: the first entry of an object node still to come. */
  predicate Visited(g: Digraph, i: nat, base: seq<SceneObject>, j: nat)
    requires j < |base|
  {
    Pending(g, i, base[j].id) && !IsLayoutId(base[j].id) && IndexOf(base[j].id, base) == Some(j)
  }

  /** The second loop of `create_object_clusters`, from node `i` on. */
  function AssignClusters(g: Digraph, sg: seq<SceneObject>, order: seq<string>, i: nat): Run
    requires WellFormed(g) && IsTopoOrder(g, order) && i <= |g.nodes|
    decreases |g.nodes| - i
  {
    if i == |g.nodes| then Run(sg, None)
    else
      var n := g.nodes[i];
      assert n in g.nodes;
      if IsLayoutId(n) then AssignClusters(g, sg, order, i + 1)
      else match ClusterSize(g, sg, order, n)
        case Err(e) => Run(sg, Some(e))
        case Ok(c) => AssignClusters(g, SetCluster(sg, n, Area(c.ext)), order, i + 1)
  }

  lemma IndexOfBlind(id: string, s: seq<SceneObject>, t: seq<SceneObject>)
    requires Blind(s, t)
    ensures IndexOf(id, s) == IndexOf(id, t)
  {
    assert forall k :: 0 <= k < |s| ==> s[k].id == t[k].id;
  }

  /**
   * What the cluster loop from node `i` on does: it changes nothing but `cluster` keys, and only
   * of the first entry of each node it visits; once it finishes, the first entry of every object
   * node from `i` on holds the footprint `get_cluster_size` computes on `base`, the scene graph
   * the loop started from (the keys written on the way do not change it). It fails only where
   * `get_cluster_size` does.
   */
  ghost predicate Assigned(g: Digraph, base: seq<SceneObject>, sg: seq<SceneObject>, order: seq<string>, i: nat)
    requires WellFormed(g) && IsTopoOrder(g, order) && i <= |g.nodes| && |base| == |sg|
  {
    var r := AssignClusters(g, sg, order, i);
    Blind(base, r.sg) &&
    (forall j :: 0 <= j < |base| && !Visited(g, i, base, j) ==> r.sg[j] == sg[j]) &&
    (r.err.None? ==>
       forall j :: 0 <= j < |base| && Visited(g, i, base, j) ==>
         base[j].id in order && ClusterSize(g, base, order, base[j].id).Ok? &&
         r.sg[j].cluster == Some(Area(ClusterSize(g, base, order, base[j].id).value.ext))) &&
    (r.err.Some? ==>
       exists m :: i <= m < |g.nodes| && !IsLayoutId(g.nodes[m]) && g.nodes[m] in order &&
                   ClusterSize(g, base, order, g.nodes[m]) == Err(r.err.value))
  }

  /** The cluster loop does what `Assigned` says, from any scene graph that differs from `base` only in `cluster` keys. */
  lemma {:induction false} ClustersAssigned(g: Digraph, base: seq<SceneObject>, sg: seq<SceneObject>,
                                            order: seq<string>, i: nat)
    requires WellFormed(g) && IsTopoOrder(g, order) && i <= |g.nodes| && Blind(base, sg)
    ensures Assigned(g, base, sg, order, i)
    decreases |g.nodes| - i
  {
    if i < |g.nodes| {
      var n := g.nodes[i];
      assert n in g.nodes;
      if IsLayoutId(n) {
        ClustersAssigned(g, base, sg, order, i + 1);
        ClustersSkip(g, base, sg, order, i);
      } else {
        ClusterSizeBlind(g, base, sg, order, n);
        var c := ClusterSize(g, sg, order, n);
        if c.Ok? {
          var next := SetCluster(sg, n, Area(c.value.ext));
          assert Blind(base, next) by {
            assert forall j :: 0 <= j < |base| ==> SameButCluster(sg[j], next[j]);
          }
          ClustersAssigned(g, base, next, order, i + 1);
          ClustersWrite(g, base, sg, order, i, c.value);
        } else {
          ClustersFail(g, base, sg, order, i);
        }
      }
    }
  }

  /** The nodes still to come from `i` are node `i` and those from `i + 1`. */
  lemma PendingNext(g: Digraph, i: nat)
    requires i < |g.nodes|
    ensures forall x :: Pending(g, i, x) <==> x == g.nodes[i] || Pending(g, i + 1, x)
  {
    forall x | Pending(g, i, x) ensures x == g.nodes[i] || Pending(g, i + 1, x) {
      var m :| i <= m < |g.nodes| && g.nodes[m] == x;
      if m > i {
        assert i + 1 <= m < |g.nodes| && g.nodes[m] == x;
      }
    }
    assert Pending(g, i, g.nodes[i]) by {
      assert i <= i < |g.nodes| && g.nodes[i] == g.nodes[i];
    }
  }

  /** A layout node is skipped. */
  lemma ClustersSkip(g: Digraph, base: seq<SceneObject>, sg: seq<SceneObject>, order: seq<string>, i: nat)
    requires WellFormed(g) && IsTopoOrder(g, order) && i < |g.nodes| && IsLayoutId(g.nodes[i]) && |base| == |sg|
    requires Assigned(g, base, sg, order, i + 1)
    ensures Assigned(g, base, sg, order, i)
  {
    var n := g.nodes[i];
    assert n in g.nodes;
    PendingNext(g, i);
    assert forall j :: 0 <= j < |base| ==> (Visited(g, i, base, j) <==> Visited(g, i + 1, base, j));
    var r := AssignClusters(g, sg, order, i + 1);
    assert AssignClusters(g, sg, order, i) == r;
    if r.err.Some? {
      var m :| i + 1 <= m < |g.nodes| && !IsLayoutId(g.nodes[m]) && g.nodes[m] in order &&
               ClusterSize(g, base, order, g.nodes[m]) == Err(r.err.value);
    }
  }

  /** An object node whose footprint raises ends the loop. */
  lemma ClustersFail(g: Digraph, base: seq<SceneObject>, sg: seq<SceneObject>, order: seq<string>, i: nat)
    requires WellFormed(g) && IsTopoOrder(g, order) && i < |g.nodes| && !IsLayoutId(g.nodes[i]) && Blind(base, sg)
    requires g.nodes[i] in order && ClusterSize(g, sg, order, g.nodes[i]).Err?
    requires ClusterSize(g, base, order, g.nodes[i]) == ClusterSize(g, sg, order, g.nodes[i])
    ensures Assigned(g, base, sg, order, i)
  {
    var n := g.nodes[i];
    assert n in g.nodes;
    var r := AssignClusters(g, sg, order, i);
    assert r == Run(sg, Some(ClusterSize(g, sg, order, n).error));
    assert i <= i < |g.nodes| && !IsLayoutId(g.nodes[i]) && g.nodes[i] in order &&
           ClusterSize(g, base, order, g.nodes[i]) == Err(r.err.value);
  }

  /** An object node whose footprint is `c` gets its first entry's `cluster` key written. */
  lemma ClustersWrite(g: Digraph, base: seq<SceneObject>, sg: seq<SceneObject>, order: seq<string>, i: nat, c: Cluster)
    requires WellFormed(g) && IsTopoOrder(g, order) && i < |g.nodes| && !IsLayoutId(g.nodes[i]) && Blind(base, sg)
    requires g.nodes[i] in order && ClusterSize(g, sg, order, g.nodes[i]) == Ok(c)
    requires ClusterSize(g, base, order, g.nodes[i]) == ClusterSize(g, sg, order, g.nodes[i])
    requires Assigned(g, base, SetCluster(sg, g.nodes[i], Area(c.ext)), order, i + 1)
    ensures Assigned(g, base, sg, order, i)
  {
    var n := g.nodes[i];
    assert n in g.nodes;
    var next := SetCluster(sg, n, Area(c.ext));
    PendingNext(g, i);
    assert !Pending(g, i + 1, n);
    IndexOfBlind(n, base, sg);
    var r := AssignClusters(g, next, order, i + 1);
    assert AssignClusters(g, sg, order, i) == r;
    forall j | 0 <= j < |base| && !Visited(g, i, base, j) ensures r.sg[j] == sg[j] {
      assert !Visited(g, i + 1, base, j);
    }
    if r.err.None? {
      forall j | 0 <= j < |base| && Visited(g, i, base, j)
        ensures r.sg[j].cluster == Some(Area(ClusterSize(g, base, order, base[j].id).value.ext))
      {
        if base[j].id == n {
          assert !Visited(g, i + 1, base, j) && r.sg[j] == next[j];
        } else {
          assert Visited(g, i + 1, base, j);
        }
      }
    } else {
      var m :| i + 1 <= m < |g.nodes| && !IsLayoutId(g.nodes[m]) && g.nodes[m] in order &&
               ClusterSize(g, base, order, g.nodes[m]) == Err(r.err.value);
    }
  }

  /** Everything `create_object_clusters` does to `objects_in_room`, for a topological order of its graph. */
  function ObjectClusters(sg: seq<SceneObject>, order: seq<string>): Run
    requires IsTopoOrder(BuildSpec(sg), order)
  {
    var a := AssignRotations(sg, 0);
    if a.err.Some? then a
    else
      RotationsAssigned(sg, 0);
      BuildSpecShape(sg, a.sg);
      BuildGraphWellFormed(a.sg);
      AssignClusters(BuildSpec(a.sg), a.sg, order, 0)
  }

  /** The two loops of `create_object_clusters` one after the other, as the lemmas below use them. */
  lemma ClusterStages(sg: seq<SceneObject>, order: seq<string>)
    requires IsTopoOrder(BuildSpec(sg), order)
    ensures var a := AssignRotations(sg, 0);
            OnlyRotations(sg, a.sg) && WellFormed(BuildSpec(sg)) &&
            (a.err.None? ==>
               BuildSpec(a.sg) == BuildSpec(sg) && WellFormed(BuildSpec(a.sg)) &&
               Blind(a.sg, ObjectClusters(sg, order).sg))
  {
    RotationsAssigned(sg, 0);
    var a := AssignRotations(sg, 0);
    BuildGraphWellFormed(sg);
    if a.err.None? {
      BuildSpecShape(sg, a.sg);
      BuildGraphWellFormed(a.sg);
      assert Blind(a.sg, a.sg);
      ClustersAssigned(BuildSpec(a.sg), a.sg, a.sg, order, 0);
    }
  }

  /** `create_object_clusters` changes only the `rotation` and `cluster` keys. */
  lemma ObjectClustersShape(sg: seq<SceneObject>, order: seq<string>)
    requires IsTopoOrder(BuildSpec(sg), order)
    ensures var r := ObjectClusters(sg, order);
            |r.sg| == |sg| &&
            forall j :: 0 <= j < |sg| ==> r.sg[j] == sg[j].(rotation := r.sg[j].rotation, cluster := r.sg[j].cluster)
  {
    ClusterStages(sg, order);
  }

  /**
   * Once `create_object_clusters` succeeds every entry has a rotation, its own one where it
   * determines it.
   */
  lemma ObjectClustersRotated(sg: seq<SceneObject>, order: seq<string>)
    requires IsTopoOrder(BuildSpec(sg), order)
    ensures var r := ObjectClusters(sg, order);
            |r.sg| == |sg| &&
            (r.err.None? ==> forall j :: 0 <= j < |sg| ==> r.sg[j].rotation.Some?) &&
            (r.err.None? ==> forall j :: 0 <= j < |sg| && OwnRotation(sg[j]).Some? ==> r.sg[j].rotation == OwnRotation(sg[j]))
  {
    ClusterStages(sg, order);
    RotationsAssigned(sg, 0);
    var a := AssignRotations(sg, 0);
    var r := ObjectClusters(sg, order);
    if a.err.None? {
      forall j | 0 <= j < |sg| ensures r.sg[j].rotation == a.sg[j].rotation {
        assert SameButCluster(a.sg[j], r.sg[j]);
      }
    }
  }

  /**
   * Once `create_object_clusters` succeeds the first entry of every object holds the footprint
   * of its cluster, measured in the scene graph with the rotations stored.
   */
  lemma ObjectClustersArea(sg: seq<SceneObject>, order: seq<string>)
    requires IsTopoOrder(BuildSpec(sg), order)
    ensures var r := ObjectClusters(sg, order);
            var rotated := AssignRotations(sg, 0).sg;
            |r.sg| == |sg| &&
            (r.err.None? ==> forall j :: 0 <= j < |sg| && !IsLayoutId(sg[j].id) && IndexOf(sg[j].id, sg) == Some(j) ==>
                               WellFormed(BuildSpec(sg)) && sg[j].id in order &&
                               ClusterSize(BuildSpec(sg), rotated, order, sg[j].id).Ok? &&
                               r.sg[j].cluster == Some(Area(ClusterSize(BuildSpec(sg), rotated, order, sg[j].id).value.ext)))
  {
    ClusterStages(sg, order);
    var a := AssignRotations(sg, 0);
    if a.err.None? {
      var g := BuildSpec(a.sg);
      assert ObjectClusters(sg, order) == AssignClusters(g, a.sg, order, 0);
      assert Blind(a.sg, a.sg);
      ClustersAssigned(g, a.sg, a.sg, order, 0);
      forall j | 0 <= j < |sg| && !IsLayoutId(sg[j].id) && IndexOf(sg[j].id, sg) == Some(j)
        ensures Visited(g, 0, a.sg, j) && a.sg[j].id == sg[j].id
      {
        VisitedFirst(sg, a.sg, j);
      }
    }
  }

  /** The first entry of an object is one the cluster loop writes to, once the rotations are stored. */
  lemma VisitedFirst(sg: seq<SceneObject>, t: seq<SceneObject>, j: nat)
    requires OnlyRotations(sg, t) && j < |sg| && !IsLayoutId(sg[j].id) && IndexOf(sg[j].id, sg) == Some(j)
    ensures Visited(BuildSpec(t), 0, t, j) && t[j].id == sg[j].id
  {
    var id := sg[j].id;
    assert forall k :: 0 <= k < |sg| ==> t[k].id == sg[k].id;
    assert t[j].id == id;
    var v := IndexOf(id, t).value;
    assert v == j by {
      assert forall k :: 0 <= k < j ==> t[k].id != id;
    }
    NodeOf(t, j);
  }

  /** Every entry's id is a node of the graph built from the scene graph. */
  lemma NodeOf(t: seq<SceneObject>, j: nat)
    requires j < |t|
    ensures Pending(BuildSpec(t), 0, t[j].id)
  {
    BuildGraphComplete(t);
    var nodes := BuildSpec(t).nodes;
    assert t[j].id in nodes;
    var m :| 0 <= m < |nodes| && nodes[m] == t[j].id;
  }

  // ---------------------------------------------------------------- the point pass of backtrack

  /** The intersection of the regions: the first one, narrowed by each of the others in turn. */
  function PointOverlap(bs: seq<Box>): (r: Option<Box>)
    ensures |bs| == 0 ==> r.None?
    ensures |bs| == 1 ==> r == Some(bs[0])
    ensures r.Some? ==> forall k :: 0 <= k < |bs| ==> Inside(r.value, bs[k])
  {
    if |bs| == 0 then None
    else
      var r := OverlapAll(Some(bs[0]), bs[1..]);
      assert r.Some? ==> forall k :: 0 <= k < |bs| ==> Inside(r.value, bs[k]) by {
        if r.Some? {
          OverlapAllInside(Some(bs[0]), bs[1..]);
          assert forall k :: 1 <= k < |bs| ==> bs[k] == bs[1..][k - 1];
        }
      }
      r
  }

  /** The loop `for pos in possible_pos[1:]: overlap = calculate_overlap(overlap, pos)`. */
  method Intersect(bs: seq<Box>) returns (r: Option<Box>)
    ensures r == PointOverlap(bs)
  {
    if |bs| == 0 {
      return None;
    }
    r := Some(bs[0]);
    for i := 1 to |bs|
      invariant OverlapAll(r, bs[i..]) == OverlapAll(Some(bs[0]), bs[1..])
    {
      assert bs[i..][1..] == bs[i + 1..];
      r := CalculateOverlap(r, Some(bs[i]));
    }
    assert bs[|bs|..] == [];
  }

  /** `{"x": overlap[0], "y": overlap[2], "z": overlap[4]}`. */
  function Corner(b: Box): Position {
    Position(b.xMin, b.yMin, b.zMin)
  }

  /** The corner of an intersection of two or more regions lies in each of them, up to the overlap tolerance. */
  lemma CornerFits(bs: seq<Box>)
    requires |bs| >= 2 && PointOverlap(bs).Some?
    ensures forall k :: 0 <= k < |bs| ==> NearlyIn(Corner(PointOverlap(bs).value), bs[k])
  {
    var o := PointOverlap(bs).value;
    DrawnPointSatisfiesAll(Corner(o), bs[0], bs[1..]);
    assert forall k :: 1 <= k < |bs| ==> bs[k] == bs[1..][k - 1];
  }

  /** The point pass as it leaves the scene graph, the ids it froze (`point_bbox`), and its exception. */
  datatype Points = Points(sg: seq<SceneObject>, frozen: set<string>, err: Option<SceneError>)

  /**
   * One iteration of the first loop of `backtrack`, on entry `i`: layout elements are skipped;
   * for an object the candidate regions are computed, which stores its rotation, and when they
   * meet in a single point the object is put at the corner of that point and frozen.
   */
  function PointStep(p: Points, i: nat, room: Room): (r: Points)
    requires i < |p.sg|
    ensures |r.sg| == |p.sg|
  {
    var s := p.sg;
    if IsLayoutId(s[i].id) then p
    else
      var after := AfterPossiblePositions(s[i].id, s);
      match PossiblePositions(s[i].id, s, room)
      case Err(e) => Points(after, p.frozen, Some(e))
      case Ok(pp) =>
        var o := PointOverlap(Boxes(pp.cands));
        if o.Some? && IsPointBox(o.value) then
          Points(after[i := after[i].(position := Some(Corner(o.value)))], p.frozen + {s[i].id}, None)
        else Points(after, p.frozen, None)
  }

  /** A loop over the entries before `n` that applies `step` and stops at the first exception. */
  function Halting(step: (Points, nat) -> Points, p: Points, n: nat): (r: Points)
  {
    if n == 0 then p
    else
      var q := Halting(step, p, n - 1);
      if q.err.Some? then q else step(q, n - 1)
  }

  /** Once such a loop has raised, later entries change nothing. */
  lemma {:induction false} HaltingErrStays(step: (Points, nat) -> Points, p: Points, n: nat, m: nat)
    requires n <= m && Halting(step, p, n).err.Some?
    ensures Halting(step, p, m) == Halting(step, p, n)
    decreases m
  {
    if m > n {
      HaltingErrStays(step, p, n, m - 1);
    }
  }

  /** What holds of the state before the loop and is kept by every entry holds of the state after it. */
  lemma {:induction false} HaltingKeeps(step: (Points, nat) -> Points, p: Points, n: nat, inv: (nat, Points) -> bool)
    requires inv(0, p)
    requires forall i: nat, q: Points :: i < n && inv(i, q) && q.err.None? ==> inv(i + 1, step(q, i))
    requires forall i: nat, q: Points :: i < n && inv(i, q) && q.err.Some? ==> inv(i + 1, q)
    ensures inv(n, Halting(step, p, n))
    decreases n
  {
    if n > 0 {
      HaltingKeeps(step, p, n - 1, inv);
    }
  }

  /**
   * If every entry that does not raise decides its own index and keeps what the earlier ones
   * decided, a loop that does not raise has decided every index before `n`.
   */
  lemma {:induction false} HaltingDecides(step: (Points, nat) -> Points, p: Points, n: nat, fixed: (nat, Points) -> bool)
    requires forall m: nat :: 0 < m <= n && Halting(step, p, m).err.None? ==>
               fixed(m - 1, Halting(step, p, m)) &&
               forall j: nat :: j < m - 1 && fixed(j, Halting(step, p, m - 1)) ==> fixed(j, Halting(step, p, m))
    ensures Halting(step, p, n).err.None? ==> forall j: nat :: j < n ==> fixed(j, Halting(step, p, n))
    decreases n
  {
    if n > 0 && Halting(step, p, n).err.None? {
      HaltingDecides(step, p, n - 1, fixed);
    }
  }

  /** `PointStep` made total, as the step the point pass runs. */
  function PointStepOf(room: Room): (f: (Points, nat) -> Points)
    ensures forall p: Points, i: nat :: i < |p.sg| ==> f(p, i) == PointStep(p, i, room)
  {
    (p: Points, i: nat) => if i < |p.sg| then PointStep(p, i, room) else p
  }

  /** The first loop of `backtrack` over the entries before `n`: `PointStep` until the first exception. */
  function PointsTo(sg: seq<SceneObject>, n: nat, room: Room): (r: Points)
    requires n <= |sg|
    ensures |r.sg| == |sg|
  {
    PointsLength(sg, n, room);
    Halting(PointStepOf(room), Points(sg, {}, None), n)
  }

  /** No step of the point pass changes the number of entries. */
  lemma PointsLength(sg: seq<SceneObject>, n: nat, room: Room)
    ensures |Halting(PointStepOf(room), Points(sg, {}, None), n).sg| == |sg|
  {
    var step := PointStepOf(room);
    var inv := (i: nat, q: Points) => |q.sg| == |sg|;
    forall i: nat, q: Points | i < n && inv(i, q) && q.err.None?
      ensures inv(i + 1, step(q, i))
    {
    }
    HaltingKeeps(step, Points(sg, {}, None), n, inv);
  }

  /** Once the pass has raised, later entries change nothing. */
  lemma PointsErrStays(sg: seq<SceneObject>, n: nat, m: nat, room: Room)
    requires n <= m <= |sg| && PointsTo(sg, n, room).err.Some?
    ensures PointsTo(sg, m, room) == PointsTo(sg, n, room)
  {
    HaltingErrStays(PointStepOf(room), Points(sg, {}, None), n, m);
  }

  /** Every layout entry is as it was. */
  ghost predicate LayoutKept(s0: seq<SceneObject>, s: seq<SceneObject>) {
    |s0| == |s| && forall j :: 0 <= j < |s0| && IsLayoutId(s0[j].id) ==> s[j] == s0[j]
  }

  /**
   * What the point pass over the entries before `n` keeps: no id, size, placement or cluster
   * changes, no rotation already set changes, the layout entries and the entries from `n` on are
   * left alone, and every id it freezes belongs to an object before `n` that now has a position.
   */
  ghost predicate PointFacts(sg: seq<SceneObject>, n: nat, r: Points) {
    Steady(sg, r.sg) && Rotated(r.sg) && DistinctIds(r.sg) && LayoutKept(sg, r.sg) &&
    (forall j :: n <= j < |sg| ==> r.sg[j] == sg[j]) &&
    (forall x :: x in r.frozen ==> exists j :: 0 <= j < n && j < |sg| && sg[j].id == x && !IsLayoutId(x) && r.sg[j].position.Some?)
  }

  /** One step of the point pass: only entry `i` changes, and it keeps the facts the placing relies on. */
  ghost predicate StepKeeps(sg: seq<SceneObject>, i: nat, next: seq<SceneObject>) {
    i < |sg| && Steady(sg, next) && Rotated(next) && DistinctIds(next) && LayoutKept(sg, next) &&
    forall j :: 0 <= j < |sg| && j != i ==> next[j] == sg[j]
  }

  /** Computing the candidate regions of an object keeps the facts the placing relies on, and every position. */
  lemma AfterStep(sg: seq<SceneObject>, i: nat)
    requires i < |sg| && DistinctIds(sg) && Rotated(sg) && !IsLayoutId(sg[i].id)
    ensures StepKeeps(sg, i, AfterPossiblePositions(sg[i].id, sg))
    ensures AfterPossiblePositions(sg[i].id, sg)[i].position == sg[i].position
  {
    assert IndexOf(sg[i].id, sg) == Some(i);
    RotationPrecedence(sg[i], sg, Fuel(sg));
  }

  /** Once the candidate regions are computed, the object has a rotation. */
  lemma PossibleRotates(sg: seq<SceneObject>, i: nat, room: Room)
    requires i < |sg| && DistinctIds(sg) && PossiblePositions(sg[i].id, sg, room).Ok?
    ensures AfterPossiblePositions(sg[i].id, sg)[i].rotation.Some?
  {
    assert IndexOf(sg[i].id, sg) == Some(i);
  }

  /** Putting the object of a step at a position keeps the facts of the step. */
  lemma StepKeepsMove(s: seq<SceneObject>, i: nat, next: seq<SceneObject>, pos: Position)
    requires StepKeeps(s, i, next) && !IsLayoutId(s[i].id) && next[i].rotation.Some?
    ensures StepKeeps(s, i, next[i := next[i].(position := Some(pos))])
  {
    var t := next[i := next[i].(position := Some(pos))];
    assert forall j :: 0 <= j < |t| ==> t[j].id == next[j].id;
  }

  /** A step that keeps its facts and freezes at most its own, now positioned, object keeps the facts of the pass. */
  lemma FactsAdvance(sg: seq<SceneObject>, i: nat, p: Points, r: Points)
    requires i < |sg| && PointFacts(sg, i, p) && StepKeeps(p.sg, i, r.sg)
    requires r.frozen == p.frozen ||
             (r.frozen == p.frozen + {sg[i].id} && !IsLayoutId(sg[i].id) && r.sg[i].position.Some?)
    ensures PointFacts(sg, i + 1, r)
  {
    forall x | x in r.frozen
      ensures exists j :: 0 <= j < i + 1 && j < |sg| && sg[j].id == x && !IsLayoutId(x) && r.sg[j].position.Some?
    {
      if x !in p.frozen {
        assert sg[i].id == x && r.sg[i].position.Some?;
      } else {
        var j :| 0 <= j < i && j < |sg| && sg[j].id == x && !IsLayoutId(x) && p.sg[j].position.Some?;
        assert r.sg[j] == p.sg[j];
      }
    }
    assert forall j :: 0 <= j < |sg| ==> Same(sg[j], p.sg[j]) && Same(p.sg[j], r.sg[j]);
  }

  /** One step of the pass on entry `i` keeps the facts of the pass so far. */
  lemma PointStepKeeps(sg: seq<SceneObject>, p: Points, i: nat, room: Room)
    requires i < |sg| && p.err.None? && PointFacts(sg, i, p)
    ensures PointFacts(sg, i + 1, PointStep(p, i, room))
  {
    var r := PointStep(p, i, room);
    var s := p.sg;
    assert s[i] == sg[i];
    if !IsLayoutId(s[i].id) {
      var after := AfterPossiblePositions(s[i].id, s);
      AfterStep(s, i);
      match PossiblePositions(s[i].id, s, room)
      case Err(_) =>
        FactsAdvance(sg, i, p, r);
      case Ok(pp) =>
        var o := PointOverlap(Boxes(pp.cands));
        if o.Some? && IsPointBox(o.value) {
          PossibleRotates(s, i, room);
          StepKeepsMove(s, i, after, Corner(o.value));
        }
        FactsAdvance(sg, i, p, r);
    }
  }

  /** The point pass keeps the facts the placing relies on. */
  lemma PointsKeep(sg: seq<SceneObject>, n: nat, room: Room)
    requires n <= |sg| && DistinctIds(sg) && Rotated(sg)
    ensures PointFacts(sg, n, PointsTo(sg, n, room))
  {
    var step := PointStepOf(room);
    var inv := (i: nat, q: Points) => i <= |sg| && PointFacts(sg, i, q);
    forall i: nat, q: Points | i < n && inv(i, q) && q.err.None?
      ensures inv(i + 1, step(q, i))
    {
      PointStepKeeps(sg, q, i, room);
    }
    forall i: nat, q: Points | i < n && inv(i, q) && q.err.Some?
      ensures inv(i + 1, q)
    {
      FactsWiden(sg, i, q);
    }
    HaltingKeeps(step, Points(sg, {}, None), n, inv);
  }

  /** The facts of the pass before `n` are facts of the pass before `n + 1`. */
  lemma FactsWiden(sg: seq<SceneObject>, n: nat, p: Points)
    requires n < |sg| && PointFacts(sg, n, p)
    ensures PointFacts(sg, n + 1, p)
  {
  }

  /**
   * What a step does to the object at entry `j`, given the scene graph `q` it computed the
   * candidate regions in: it is frozen exactly when they meet in a single point; a frozen object
   * sits at the corner of that point, any other keeps its position.
   */
  ghost predicate Decided(id: string, q: seq<SceneObject>, j: nat, r: Points, room: Room)
    requires j < |r.sg| && j < |q|
  {
    var pp := PossiblePositions(id, q, room);
    pp.Ok? &&
    var o := PointOverlap(Boxes(pp.value.cands));
    (id in r.frozen <==> o.Some? && IsPointBox(o.value)) &&
    (id in r.frozen ==> r.sg[j].position == Some(Corner(o.value))) &&
    (id !in r.frozen ==> r.sg[j].position == q[j].position)
  }

  /**
   * What the point pass does to the object at entry `j`: it is `Decided` with the regions
   * computed in the scene graph as the pass has left it by then.
   */
  ghost predicate PointFixed(sg: seq<SceneObject>, j: nat, r: Points, room: Room)
    requires j < |sg| && |r.sg| == |sg|
  {
    Decided(sg[j].id, PointsTo(sg, j, room).sg, j, r, room)
  }

  /** A later state that leaves entry `j` and whether its id is frozen alone keeps it `Decided`. */
  lemma DecidedStays(id: string, q: seq<SceneObject>, j: nat, p: Points, r: Points, room: Room)
    requires j < |p.sg| && j < |r.sg| && j < |q| && Decided(id, q, j, p, room)
    requires r.sg[j] == p.sg[j] && (id in r.frozen <==> id in p.frozen)
    ensures Decided(id, q, j, r, room)
  {
  }

  /** A step changes no other entry, and freezes at most the id of its own. */
  lemma PointStepShape(p: Points, i: nat, room: Room)
    requires i < |p.sg| && DistinctIds(p.sg) && Rotated(p.sg)
    ensures var r := PointStep(p, i, room);
            (forall j :: 0 <= j < |p.sg| && j != i ==> r.sg[j] == p.sg[j]) &&
            (r.frozen == p.frozen || r.frozen == p.frozen + {p.sg[i].id})
  {
    if !IsLayoutId(p.sg[i].id) {
      AfterStep(p.sg, i);
    }
  }

  /** A step on an object that does not raise decides it. */
  lemma PointStepDecides(p: Points, i: nat, room: Room)
    requires i < |p.sg| && p.sg[i].id !in p.frozen && !IsLayoutId(p.sg[i].id) && DistinctIds(p.sg) && Rotated(p.sg)
    requires PointStep(p, i, room).err.None?
    ensures Decided(p.sg[i].id, p.sg, i, PointStep(p, i, room), room)
  {
    AfterStep(p.sg, i);
  }

  /** The step on entry `i` decides entry `i`, and leaves what earlier steps decided. */
  lemma PointStepFixes(sg: seq<SceneObject>, i: nat, room: Room)
    requires i < |sg| && DistinctIds(sg) && Rotated(sg)
    requires PointsTo(sg, i + 1, room).err.None?
    ensures var p, r := PointsTo(sg, i, room), PointsTo(sg, i + 1, room);
            p.err.None? && r == PointStep(p, i, room) &&
            (!IsLayoutId(sg[i].id) ==> PointFixed(sg, i, r, room)) &&
            (forall j :: 0 <= j < i && PointFixed(sg, j, p, room) ==> PointFixed(sg, j, r, room))
  {
    var p := PointsTo(sg, i, room);
    var r := PointsTo(sg, i + 1, room);
    PointsKeep(sg, i, room);
    assert p.err.None? && r == PointStep(p, i, room);
    assert p.sg[i] == sg[i];
    assert DistinctIds(p.sg) && Rotated(p.sg);
    forall x | x in p.frozen
      ensures x != sg[i].id
    {
      var j :| 0 <= j < i && j < |sg| && sg[j].id == x && !IsLayoutId(x) && p.sg[j].position.Some?;
    }
    PointStepShape(p, i, room);
    if !IsLayoutId(sg[i].id) {
      PointStepDecides(p, i, room);
    }
    forall j | 0 <= j < i && PointFixed(sg, j, p, room)
      ensures PointFixed(sg, j, r, room)
    {
      assert sg[j].id != sg[i].id;
      DecidedStays(sg[j].id, PointsTo(sg, j, room).sg, j, p, r, room);
    }
  }

  /** Entry `j` is a layout element or `PointFixed` in `r`. */
  ghost predicate Fixes(sg: seq<SceneObject>, j: nat, r: Points, room: Room) {
    j < |sg| && |r.sg| == |sg| && (IsLayoutId(sg[j].id) || PointFixed(sg, j, r, room))
  }

  /** `PointStepFixes` for the loop that stops at the first exception. */
  lemma PointsFixStep(sg: seq<SceneObject>, m: nat, room: Room)
    requires 0 < m <= |sg| && DistinctIds(sg) && Rotated(sg)
    requires Halting(PointStepOf(room), Points(sg, {}, None), m).err.None?
    ensures var step, p := PointStepOf(room), Points(sg, {}, None);
            Fixes(sg, m - 1, Halting(step, p, m), room) &&
            forall j: nat :: j < m - 1 && Fixes(sg, j, Halting(step, p, m - 1), room) ==> Fixes(sg, j, Halting(step, p, m), room)
  {
    PointStepFixes(sg, m - 1, room);
  }

  /** The point pass over the entries before `n` decides every object among them as `PointFixed` says. */
  lemma PointsFix(sg: seq<SceneObject>, n: nat, room: Room)
    requires n <= |sg| && DistinctIds(sg) && Rotated(sg)
    ensures var r := PointsTo(sg, n, room);
            r.err.None? ==> forall j :: 0 <= j < n && !IsLayoutId(sg[j].id) ==> PointFixed(sg, j, r, room)
  {
    var step := PointStepOf(room);
    var p := Points(sg, {}, None);
    var fixed := (j: nat, r: Points) => Fixes(sg, j, r, room);
    forall m: nat | 0 < m <= n && Halting(step, p, m).err.None?
      ensures fixed(m - 1, Halting(step, p, m)) &&
              forall j: nat :: j < m - 1 && fixed(j, Halting(step, p, m - 1)) ==> fixed(j, Halting(step, p, m))
    {
      PointsFixStep(sg, m, room);
    }
    HaltingDecides(step, p, n, fixed);
    if PointsTo(sg, n, room).err.None? {
      forall j | 0 <= j < n && !IsLayoutId(sg[j].id)
        ensures PointFixed(sg, j, PointsTo(sg, n, room), room)
      {
        assert fixed(j, Halting(step, p, n));
      }
    }
  }

  /**
   * Once the point pass over the whole scene graph succeeds, every object is frozen exactly when
   * its regions met in a single point, and then sits at its corner; every frozen id is such an
   * object's; every object that is not frozen, and every layout entry, keeps its position.
   */
  lemma PointPassFixes(sg: seq<SceneObject>, room: Room)
    requires DistinctIds(sg) && Rotated(sg)
    ensures var r := PointsTo(sg, |sg|, room);
            r.err.None? ==>
              (forall j :: 0 <= j < |sg| && !IsLayoutId(sg[j].id) ==> PointFixed(sg, j, r, room)) &&
              (forall x :: x in r.frozen ==> exists j :: 0 <= j < |sg| && sg[j].id == x && !IsLayoutId(x)) &&
              (forall j :: 0 <= j < |sg| && IsLayoutId(sg[j].id) ==> r.sg[j] == sg[j])
  {
    PointsKeep(sg, |sg|, room);
    PointsFix(sg, |sg|, room);
  }

  /** Until it raises, the point pass over one more entry is one more `PointStep`. */
  lemma PointsNext(sg: seq<SceneObject>, i: nat, room: Room)
    requires i < |sg| && PointsTo(sg, i, room).err.None?
    ensures PointsTo(sg, i + 1, room) == PointStep(PointsTo(sg, i, room), i, room)
  {
    PointsLength(sg, i, room);
  }

  /** One iteration of the first loop of `backtrack`, at entry `i`. */
  method PointTurn(p: Points, i: nat, room: Room) returns (r: Points)
    requires i < |p.sg|
    ensures r == PointStep(p, i, room)
  {
    var cur := p.sg;
    if IsLayoutId(cur[i].id) {
      return p;
    }
    var next, pp := GetPossiblePositions(cur[i].id, cur, room);
    if pp.Err? {
      return Points(next, p.frozen, Some(pp.error));
    }
    var frozen := p.frozen;
    var overlap := Intersect(Boxes(pp.value.cands));
    if overlap.Some? && IsPointBox(overlap.value) {
      next := next[i := next[i].(position := Some(Corner(overlap.value)))];
      frozen := frozen + {cur[i].id};
    }
    r := Points(next, frozen, None);
  }

  /** The first loop of `backtrack`. */
  method PointPass(sg: seq<SceneObject>, room: Room) returns (r: Points)
    ensures r == PointsTo(sg, |sg|, room)
  {
    var cur := sg;
    var frozen: set<string> := {};
    for i := 0 to |sg|
      invariant |cur| == |sg| && PointsTo(sg, i, room) == Points(cur, frozen, None)
    {
      var step := PointTurn(Points(cur, frozen, None), i, room);
      PointsNext(sg, i, room);
      if step.err.Some? {
        PointsErrStays(sg, i + 1, |sg|, room);
        return step;
      }
      cur, frozen := step.sg, step.frozen;
    }
    r := Points(cur, frozen, None);
  }

  // ---------------------------------------------------------------- the depth loop of backtrack

  /** `[item for item in scene_graph if item["new_object_id"] not in prior_ids]`. */
  function WithoutLayout(sg: seq<SceneObject>): (r: seq<SceneObject>)
    ensures forall o :: o in r <==> o in sg && !IsLayoutId(o.id)
  {
    if |sg| == 0 then []
    else (if IsLayoutId(sg[0].id) then [] else [sg[0]]) + WithoutLayout(sg[1..])
  }

  /** `[item for item in topological_order if item not in prior_ids]`. */
  function WithoutLayoutIds(order: seq<string>): (r: seq<string>)
    ensures forall n :: n in r <==> n in order && !IsLayoutId(n)
  {
    if |order| == 0 then []
    else (if IsLayoutId(order[0]) then [] else [order[0]]) + WithoutLayoutIds(order[1..])
  }

  /** `max(depth_scene_graph.values())`, which raises on an empty dictionary. */
  method MaxDepth(depth: map<string, int>) returns (r: Option<int>)
    ensures r.None? <==> depth == map[]
    ensures r.Some? ==> r.value in depth.Values && forall k :: k in depth ==> depth[k] <= r.value
  {
    var keys := depth.Keys;
    r := None;
    while keys != {}
      invariant keys <= depth.Keys
      invariant r.None? <==> keys == depth.Keys
      invariant r.Some? ==> r.value in depth.Values && forall k :: k in depth && k !in keys ==> depth[k] <= r.value
      decreases |keys|
    {
      var k :| k in keys;
      if r.None? || r.value < depth[k] {
        r := Some(depth[k]);
      }
      keys := keys - {k};
    }
    if r.None? {
      assert depth.Keys == {};
    }
  }

  /** `[node for node in topological_order if depth_scene_graph[node] == d]`. */
  function NodesAt(order: seq<string>, depth: map<string, int>, d: int): (r: Result<seq<string>, SceneError>)
    ensures r.Ok? <==> forall n :: n in order ==> n in depth
    ensures r.Ok? ==> forall n :: n in r.value <==> n in order && depth[n] == d
    ensures r.Err? ==> r.error.MissingDepth? && r.error.id in order && r.error.id !in depth
  {
    if |order| == 0 then Ok([])
    else if order[0] !in depth then Err(MissingDepth(order[0]))
    else
      match NodesAt(order[1..], depth, d)
      case Err(e) => Err(e)
      case Ok(rest) => Ok((if depth[order[0]] == d then [order[0]] else []) + rest)
  }

  /** Whether the rollback deletes the position of an entry. */
  predicate Clears(o: SceneObject, depth: map<string, int>, frozen: set<string>, d: int) {
    !IsLayoutId(o.id) && o.id in depth && depth[o.id] >= d && o.position.Some? && o.id !in frozen
  }

  /** The scene graph after a rollback at depth `d` that raised nothing. */
  function RolledBack(sg: seq<SceneObject>, depth: map<string, int>, frozen: set<string>, d: int): (r: seq<SceneObject>)
    ensures |r| == |sg|
    ensures forall j :: 0 <= j < |sg| ==> r[j] == if Clears(sg[j], depth, frozen, d) then sg[j].(position := None) else sg[j]
  {
    seq(|sg|, j requires 0 <= j < |sg| => if Clears(sg[j], depth, frozen, d) then sg[j].(position := None) else sg[j])
  }

  /** Entry `j` is the first object, layout elements aside, that has no depth. */
  predicate FirstWithoutDepth(sg: seq<SceneObject>, depth: map<string, int>, j: int) {
    0 <= j < |sg| && !IsLayoutId(sg[j].id) && sg[j].id !in depth &&
    forall i :: 0 <= i < j && !IsLayoutId(sg[i].id) ==> sg[i].id in depth
  }

  /**
   * The rollback after a failure: every object at depth `d` or deeper loses its position, except
   * the frozen ones. An object without a depth raises, and the entries before it stay cleared.
   */
  method Rollback(sg: seq<SceneObject>, depth: map<string, int>, frozen: set<string>, d: int)
    returns (sg': seq<SceneObject>, err: Option<SceneError>)
    ensures |sg'| == |sg|
    ensures err.None? <==> forall j :: 0 <= j < |sg| && !IsLayoutId(sg[j].id) ==> sg[j].id in depth
    ensures err.None? ==> sg' == RolledBack(sg, depth, frozen, d)
    ensures forall j :: 0 <= j < |sg| ==>
              sg'[j] == sg[j] || (Clears(sg[j], depth, frozen, d) && sg'[j] == sg[j].(position := None))
    ensures err.Some? ==> exists j :: FirstWithoutDepth(sg, depth, j) && err.value == MissingDepth(sg[j].id)
  {
    sg' := sg;
    for j := 0 to |sg|
      invariant |sg'| == |sg|
      invariant forall i :: 0 <= i < j && !IsLayoutId(sg[i].id) ==> sg[i].id in depth
      invariant forall i :: 0 <= i < |sg| ==>
                  sg'[i] == if i < j && Clears(sg[i], depth, frozen, d) then sg[i].(position := None) else sg[i]
    {
      var o := sg[j];
      if IsLayoutId(o.id) {
        continue;
      }
      if o.id !in depth {
        assert FirstWithoutDepth(sg, depth, j);
        return sg', Some(MissingDepth(o.id));
      }
      if depth[o.id] >= d && o.position.Some? && o.id !in frozen {
        sg' := sg'[j := o.(position := None)];
      }
    }
    err := None;
  }

  /** Every layout entry lists no parent object. */
  predicate LayoutEmpty(sg: seq<SceneObject>) {
    forall j :: 0 <= j < |sg| && IsLayoutId(sg[j].id) ==> |sg[j].placement.objects| == 0
  }

  /** Placing an object leaves the layout entries alone. */
  lemma LayoutStep(s0: seq<SceneObject>, s: seq<SceneObject>, s': seq<SceneObject>, k: nat)
    requires LayoutEmpty(s0) && Steady(s0, s) && LayoutKept(s0, s) && Orphans(s, s', k)
    requires k < |s| && !IsLayoutId(s[k].id)
    ensures LayoutKept(s0, s')
  {
  }

  /** Dropping positions keeps the facts the placing relies on. */
  lemma RollbackKeeps(s0: seq<SceneObject>, s: seq<SceneObject>, rolled: seq<SceneObject>, order: seq<string>)
    requires Keeps(s0, s, order, 0) && LayoutKept(s0, s) && |rolled| == |s|
    requires forall j :: 0 <= j < |s| ==>
               rolled[j] == s[j] || (!IsLayoutId(s[j].id) && rolled[j] == s[j].(position := None))
    ensures Keeps(s0, rolled, order, 0) && LayoutKept(s0, rolled)
  {
    DroppingKeeps(s0, s, rolled, -1);
  }

  /** The ids of the entries at the listed indices. */
  function IdsAt(sg: seq<SceneObject>, ks: seq<nat>): (r: seq<string>)
    requires Indices(ks, |sg|)
    ensures |r| == |ks| && forall i :: 0 <= i < |ks| ==> r[i] == sg[ks[i]].id
  {
    seq(|ks|, i requires 0 <= i < |ks| => sg[ks[i]].id)
  }

  /** The nodes of a pass that `point_bbox` does not mark, in order. */
  function Unfrozen(nodes: seq<string>, frozen: set<string>): (r: seq<string>)
    ensures forall n :: n in r <==> n in nodes && n !in frozen
  {
    if |nodes| == 0 then []
    else
      var last := nodes[|nodes| - 1];
      Unfrozen(nodes[..|nodes| - 1], frozen) + (if last in frozen then [] else [last])
  }

  /** One more node of a pass. */
  lemma UnfrozenNext(nodes: seq<string>, i: nat, frozen: set<string>)
    requires i < |nodes|
    ensures nodes[i] in frozen ==> Unfrozen(nodes[..i + 1], frozen) == Unfrozen(nodes[..i], frozen)
    ensures nodes[i] !in frozen ==> Unfrozen(nodes[..i + 1], frozen) == Unfrozen(nodes[..i], frozen) + [nodes[i]]
  {
    assert nodes[..i + 1][..i] == nodes[..i];
  }

  /** One more entry placed. */
  lemma IdsAtNext(sg: seq<SceneObject>, ks: seq<nat>, k: nat)
    requires Indices(ks, |sg|) && k < |sg|
    ensures Indices(ks + [k], |sg|) && IdsAt(sg, ks + [k]) == IdsAt(sg, ks) + [sg[k].id]
  {
  }

  /** The unfrozen nodes of a prefix come first among the unfrozen nodes. */
  lemma {:induction false} UnfrozenPrefix(nodes: seq<string>, n: nat, frozen: set<string>)
    requires n <= |nodes|
    ensures Unfrozen(nodes[..n], frozen) <= Unfrozen(nodes, frozen)
    decreases |nodes| - n
  {
    if n < |nodes| {
      var init := nodes[..|nodes| - 1];
      assert init[..n] == nodes[..n];
      UnfrozenPrefix(init, n, frozen);
    } else {
      assert nodes[..n] == nodes;
    }
  }

  /**
   * What a pass over `nodes` that raised nothing did: `placed` lists the entries placed, which are
   * the unfrozen nodes in order, all of them unless one reported errors and ended the pass; each
   * step is a call of `place_object` with fresh errors, and `failed` says that the last reported some.
   */
  ghost predicate PassSpec(sg: seq<SceneObject>, frozen: set<string>, nodes: seq<string>, order: seq<string>,
                           room: Room, placed: seq<nat>, steps: seq<Step>, failed: bool) {
    Indices(placed, |sg|) && |steps| == |placed| && ChildRun(sg, placed, order, room, steps) &&
    (forall i :: 0 <= i < |steps| ==> steps[i].result.Ok?) &&
    (forall i :: 0 <= i < |steps| - 1 ==> steps[i].result == Ok(map[])) &&
    (failed <==> |steps| > 0 && steps[|steps| - 1].result != Ok(map[])) &&
    IdsAt(sg, placed) <= Unfrozen(nodes, frozen) &&
    (!failed ==> IdsAt(sg, placed) == Unfrozen(nodes, frozen))
  }

  /**
   * The facts about a pass that raised nothing, with `n` the number of nodes it went through,
   * give what `PassSpec` says.
   */
  lemma PassMeets(sg: seq<SceneObject>, frozen: set<string>, nodes: seq<string>, order: seq<string>, room: Room,
                  placed: seq<nat>, steps: seq<Step>, failed: bool, n: nat)
    requires n <= |nodes| && Indices(placed, |sg|) && |steps| == |placed| && ChildRun(sg, placed, order, room, steps)
    requires IdsAt(sg, placed) == Unfrozen(nodes[..n], frozen)
    requires forall j :: 0 <= j < |steps| ==> steps[j].result.Ok?
    requires forall j :: 0 <= j < |steps| - 1 ==> steps[j].result == Ok(map[])
    requires failed <==> |steps| > 0 && steps[|steps| - 1].result != Ok(map[])
    requires !failed ==> n == |nodes|
    ensures PassSpec(sg, frozen, nodes, order, room, placed, steps, failed)
  {
    UnfrozenPrefix(nodes, n, frozen);
    assert nodes[..|nodes|] == nodes;
  }

  /** A pass that raised nothing failed exactly when one of its objects reported errors, and then that was the last. */
  lemma PassFailsIff(sg: seq<SceneObject>, frozen: set<string>, nodes: seq<string>, order: seq<string>, room: Room,
                     placed: seq<nat>, steps: seq<Step>, failed: bool)
    requires PassSpec(sg, frozen, nodes, order, room, placed, steps, failed)
    ensures failed <==> exists j :: 0 <= j < |steps| && steps[j].result.Ok? && steps[j].result.value != map[]
    ensures forall j :: 0 <= j < |steps| && steps[j].result != Ok(map[]) ==> j == |steps| - 1
  {
  }

  /**
   * What a pass that went through its first `n` nodes ended with: the facts placing keeps, the
   * entries `placed` with one call of `place_object` each, which are the unfrozen nodes among the
   * first `n` in order; when it raised nothing, `failed` says that the last call reported errors,
   * and a pass that did not fail went through every node; an exception is the last call's or
   * that of node `n`, which no entry has.
   */
  ghost predicate PassResult(sg: seq<SceneObject>, frozen: set<string>, nodes: seq<string>, order: seq<string>,
                             room: Room, sg': seq<SceneObject>, failed: bool, err: Option<SceneError>,
                             placed: seq<nat>, steps: seq<Step>, n: nat) {
    Keeps(sg, sg', order, 0) && LayoutKept(sg, sg') &&
    Indices(placed, |sg|) && |steps| == |placed| && ChildRun(sg, placed, order, room, steps) &&
    sg' == EndOf(sg, steps) && n <= |nodes| && IdsAt(sg, placed) == Unfrozen(nodes[..n], frozen) &&
    (failed ==> err.None?) &&
    (err.None? ==> (forall j :: 0 <= j < |steps| ==> steps[j].result.Ok?) &&
                   (forall j :: 0 <= j < |steps| - 1 ==> steps[j].result == Ok(map[])) &&
                   (failed <==> |steps| > 0 && steps[|steps| - 1].result != Ok(map[])) &&
                   (!failed ==> n == |nodes|)) &&
    (err.Some? ==> (|steps| > 0 && steps[|steps| - 1].result == Err(err.value)) ||
                   (err.value.MissingObject? && n < |nodes| && err.value.id == nodes[n] &&
                    nodes[n] !in frozen && forall j :: 0 <= j < |sg| ==> sg[j].id != err.value.id))
  }

  /**
   * One pass over the objects at the current depth: nodes marked by the point pass are skipped,
   * every other one is placed with fresh errors, and the pass stops at the first that reports
   * errors. A node that no entry has raises. `n` counts the nodes the pass went through.
   */
  method Pass(sg: seq<SceneObject>, frozen: set<string>, nodes: seq<string>, order: seq<string>, room: Room, g: Rng)
    returns (sg': seq<SceneObject>, failed: bool, err: Option<SceneError>, g': Rng,
             ghost placed: seq<nat>, ghost steps: seq<Step>, ghost n: nat)
    requires Ctx(sg, order) && LayoutEmpty(sg)
    requires forall i :: 0 <= i < |nodes| ==> !IsLayoutId(nodes[i])
    ensures PassResult(sg, frozen, nodes, order, room, sg', failed, err, placed, steps, n)
  {
    sg' := sg;
    g' := g;
    placed, steps := [], [];
    assert NoNewCollisions(sg, sg);
    for i := 0 to |nodes|
      invariant PassSoFar(sg, frozen, nodes, order, room, i, sg', placed, steps)
    {
      var stop;
      sg', stop, failed, err, g', placed, steps, n := PassTurn(sg, frozen, nodes, order, room, i, sg', g', placed, steps);
      if stop {
        return;
      }
    }
    PassSoFarDone(sg, frozen, nodes, order, room, sg', placed, steps);
    return sg', false, None, g', placed, steps, |nodes|;
  }

  /** The pass after its first `i` nodes, none of which reported errors. */
  ghost predicate PassSoFar(sg: seq<SceneObject>, frozen: set<string>, nodes: seq<string>, order: seq<string>,
                            room: Room, i: nat, cur: seq<SceneObject>, placed: seq<nat>, steps: seq<Step>) {
    i <= |nodes| && Keeps(sg, cur, order, 0) && LayoutKept(sg, cur) &&
    Indices(placed, |sg|) && |steps| == |placed| && ChildRun(sg, placed, order, room, steps) &&
    cur == EndOf(sg, steps) && IdsAt(sg, placed) == Unfrozen(nodes[..i], frozen) &&
    forall j :: 0 <= j < |steps| ==> steps[j].result == Ok(map[])
  }

  /** A pass through every node that reported nothing ends without failure. */
  lemma PassSoFarDone(sg: seq<SceneObject>, frozen: set<string>, nodes: seq<string>, order: seq<string>, room: Room,
                      cur: seq<SceneObject>, placed: seq<nat>, steps: seq<Step>)
    requires PassSoFar(sg, frozen, nodes, order, room, |nodes|, cur, placed, steps)
    ensures PassResult(sg, frozen, nodes, order, room, cur, false, None, placed, steps, |nodes|)
  {
  }

  /**
   * Node `i` of a pass: skipped when marked; otherwise the entry with that id is placed. The
   * pass stops (`stop`) when the object reported errors or raised, or when no entry has the id.
   */
  method PassTurn(sg: seq<SceneObject>, frozen: set<string>, nodes: seq<string>, order: seq<string>, room: Room,
                  i: nat, cur: seq<SceneObject>, g: Rng, ghost placed: seq<nat>, ghost steps: seq<Step>)
    returns (next: seq<SceneObject>, stop: bool, failed: bool, err: Option<SceneError>, g': Rng,
             ghost placed': seq<nat>, ghost steps': seq<Step>, ghost n: nat)
    requires Ctx(sg, order) && LayoutEmpty(sg) && forall j :: 0 <= j < |nodes| ==> !IsLayoutId(nodes[j])
    requires i < |nodes| && PassSoFar(sg, frozen, nodes, order, room, i, cur, placed, steps)
    ensures !stop ==> PassSoFar(sg, frozen, nodes, order, room, i + 1, next, placed', steps')
    ensures stop ==> PassResult(sg, frozen, nodes, order, room, next, failed, err, placed', steps', n)
  {
    var node := nodes[i];
    UnfrozenNext(nodes, i, frozen);
    if node in frozen {
      return cur, false, false, None, g, placed, steps, i + 1;
    }
    var k := IndexOf(node, cur);
    if k.None? {
      return cur, true, false, Some(MissingObject(node)), g, placed, steps, i;
    }
    var r;
    ghost var exit;
    next, r, g', exit := PlaceNode(sg, cur, k.value, order, room, g, placed, steps);
    placed', steps', n := placed + [k.value], steps + [Step(cur, k.value, r, exit, next)], i + 1;
    stop := r != Ok(map[]);
    failed := r.Ok? && stop;
    err := if r.Err? then Some(r.error) else None;
    PlacedNext(sg, frozen, nodes, order, room, i, cur, placed, steps, k.value, Step(cur, k.value, r, exit, next));
  }

  /** The pass one placed node further: it goes on when the node reported nothing, and ends otherwise. */
  lemma PlacedNext(sg: seq<SceneObject>, frozen: set<string>, nodes: seq<string>, order: seq<string>, room: Room,
                   i: nat, cur: seq<SceneObject>, placed: seq<nat>, steps: seq<Step>, k: nat, st: Step)
    requires i < |nodes| && PassSoFar(sg, frozen, nodes, order, room, i, cur, placed, steps)
    requires nodes[i] !in frozen && k < |cur| && cur[k].id == nodes[i]
    requires Unfrozen(nodes[..i + 1], frozen) == Unfrozen(nodes[..i], frozen) + [nodes[i]]
    requires Keeps(sg, st.after, order, 0) && LayoutKept(sg, st.after) && st.before == cur && st.k == k
    requires ChildRun(sg, placed + [k], order, room, steps + [st]) && EndOf(sg, steps + [st]) == st.after
    ensures st.result == Ok(map[]) ==> PassSoFar(sg, frozen, nodes, order, room, i + 1, st.after, placed + [k], steps + [st])
    ensures st.result != Ok(map[]) ==>
              PassResult(sg, frozen, nodes, order, room, st.after, st.result.Ok?,
                         if st.result.Err? then Some(st.result.error) else None, placed + [k], steps + [st], i + 1)
  {
    assert sg[k].id == nodes[i];
    IdsAtNext(sg, placed, k);
  }

  /** One node of a pass: `place_object` with fresh errors on entry `k`, where the pass so far ended. */
  method PlaceNode(sg: seq<SceneObject>, cur: seq<SceneObject>, k: nat, order: seq<string>, room: Room, g: Rng,
                   ghost placed: seq<nat>, ghost steps: seq<Step>)
    returns (next: seq<SceneObject>, e: Result<Errors, SceneError>, g': Rng, ghost exit: Exit)
    requires Ctx(sg, order) && LayoutEmpty(sg) && Keeps(sg, cur, order, 0) && LayoutKept(sg, cur)
    requires k < |cur| && !IsLayoutId(cur[k].id)
    requires |steps| == |placed| && ChildRun(sg, placed, order, room, steps) && cur == EndOf(sg, steps)
    requires forall j :: 0 <= j < |steps| ==> steps[j].result == Ok(map[])
    ensures Keeps(sg, next, order, 0) && LayoutKept(sg, next)
    ensures ChildRun(sg, placed + [k], order, room, steps + [Step(cur, k, e, exit, next)])
    ensures EndOf(sg, steps + [Step(cur, k, e, exit, next)]) == next
  {
    SteadyCtx(sg, cur, order);
    ghost var attempts;
    next, e, g', exit, attempts := PlaceObject(cur, k, order, room, map[], g);
    KeepsTrans(sg, cur, next, order, 0, Rank(order, cur[k].id));
    LayoutStep(sg, cur, next, k);
    ChildRunWider(sg, placed, [k], order, room, steps);
    ChildRunNext(sg, placed + [k], order, room, steps, Step(cur, k, e, exit, next));
  }

  /** One round of `while d <= max_depth`: the depth, the pass, whether it failed, and the scene graph after it. */
  datatype Round = Round(d: int, before: seq<SceneObject>, placed: seq<nat>, steps: seq<Step>, failed: bool,
                         after: seq<SceneObject>)

  /** The depth after a round at `d`: one deeper, or after a failure one back but never below 1. */
  function NextDepth(d: int, failed: bool): int {
    if !failed then d + 1 else if d > 1 then d - 1 else d
  }

  /**
   * A round that raised nothing: the pass over the nodes at its depth, and after a failure the
   * rollback at the depth it steps back to.
   */
  ghost predicate RoundDone(rd: Round, frozen: set<string>, depth: map<string, int>, order: seq<string>,
                            placeOrder: seq<string>, room: Room) {
    NodesAt(order, depth, rd.d).Ok? &&
    PassSpec(rd.before, frozen, NodesAt(order, depth, rd.d).value, placeOrder, room, rd.placed, rd.steps, rd.failed) &&
    var mid := EndOf(rd.before, rd.steps);
    if rd.failed then
      (forall j :: 0 <= j < |mid| && !IsLayoutId(mid[j].id) ==> mid[j].id in depth) &&
      rd.after == RolledBack(mid, depth, frozen, NextDepth(rd.d, true))
    else rd.after == mid
  }

  /** The scene graph after the rounds, starting from `sg`. */
  function SceneAfter(sg: seq<SceneObject>, rounds: seq<Round>): seq<SceneObject> {
    if |rounds| == 0 then sg else rounds[|rounds| - 1].after
  }

  /** The depth after the rounds, starting from 1. */
  function DepthAfter(rounds: seq<Round>): int {
    if |rounds| == 0 then 1 else NextDepth(rounds[|rounds| - 1].d, rounds[|rounds| - 1].failed)
  }

  /** Each round starts where the one before ended, at a depth the loop condition admits. */
  ghost predicate Linked(sg: seq<SceneObject>, maxDepth: int, rounds: seq<Round>)
    decreases |rounds|
  {
    |rounds| > 0 ==>
      var pre, rd := rounds[..|rounds| - 1], rounds[|rounds| - 1];
      Linked(sg, maxDepth, pre) && rd.before == SceneAfter(sg, pre) && rd.d == DepthAfter(pre) && rd.d <= maxDepth
  }

  /** The rounds of the depth loop so far, from depth 1 and `sg`. */
  ghost predicate Rounds(sg: seq<SceneObject>, frozen: set<string>, depth: map<string, int>, maxDepth: int,
                         order: seq<string>, placeOrder: seq<string>, room: Room, rounds: seq<Round>) {
    Linked(sg, maxDepth, rounds) &&
    forall i {:trigger RoundDone(rounds[i], frozen, depth, order, placeOrder, room)} :: 0 <= i < |rounds| ==>
      RoundDone(rounds[i], frozen, depth, order, placeOrder, room)
  }

  /** One more round where the rounds so far ended extends them. */
  lemma RoundsNext(sg: seq<SceneObject>, frozen: set<string>, depth: map<string, int>, maxDepth: int,
                   order: seq<string>, placeOrder: seq<string>, room: Room, rounds: seq<Round>, rd: Round)
    requires Rounds(sg, frozen, depth, maxDepth, order, placeOrder, room, rounds)
    requires rd.before == SceneAfter(sg, rounds) && rd.d == DepthAfter(rounds) && rd.d <= maxDepth
    requires RoundDone(rd, frozen, depth, order, placeOrder, room)
    ensures Rounds(sg, frozen, depth, maxDepth, order, placeOrder, room, rounds + [rd])
    ensures SceneAfter(sg, rounds + [rd]) == rd.after && DepthAfter(rounds + [rd]) == NextDepth(rd.d, rd.failed)
  {
    assert (rounds + [rd])[..|rounds|] == rounds;
  }

  /**
   * `while d <= max_depth`: a pass at depth `d`; after a failure `d` steps back one level (never
   * below 1) and the rollback clears depth `d` and deeper; otherwise `d` moves on. `budget`
   * bounds the number of passes, which the source does not bound; `rounds` are the rounds that
   * raised nothing.
   */
  method DepthLoop(sg: seq<SceneObject>, frozen: set<string>, depth: map<string, int>, maxDepth: int,
                   order: seq<string>, placeOrder: seq<string>, room: Room, g: Rng, budget: nat)
    returns (sg': seq<SceneObject>, r: Result<bool, SceneError>, g': Rng, ghost rounds: seq<Round>)
    requires Ctx(sg, placeOrder) && LayoutEmpty(sg) && 1 <= maxDepth
    requires forall n :: n in order ==> !IsLayoutId(n)
    ensures Keeps(sg, sg', placeOrder, 0) && LayoutKept(sg, sg')
    ensures Rounds(sg, frozen, depth, maxDepth, order, placeOrder, room, rounds) && |rounds| <= budget
    ensures r.Ok? ==> sg' == SceneAfter(sg, rounds)
    ensures r == Ok(true) ==> DepthAfter(rounds) == maxDepth + 1
    ensures r == Ok(false) ==> |rounds| == budget && DepthAfter(rounds) <= maxDepth
    ensures r.Err? ==> DepthAfter(rounds) <= maxDepth &&
                       RoundRaised(SceneAfter(sg, rounds), frozen, depth, order, placeOrder, room, DepthAfter(rounds), r.error)
  {
    sg' := sg;
    g' := g;
    var d := 1;
    var passes: nat := budget;
    rounds := [];
    assert NoNewCollisions(sg, sg);
    while d <= maxDepth
      invariant 1 <= d <= maxDepth + 1 && passes + |rounds| == budget
      invariant Keeps(sg, sg', placeOrder, 0) && LayoutKept(sg, sg')
      invariant Rounds(sg, frozen, depth, maxDepth, order, placeOrder, room, rounds)
      invariant sg' == SceneAfter(sg, rounds) && d == DepthAfter(rounds)
      decreases passes
    {
      if passes == 0 {
        return sg', Ok(false), g', rounds;
      }
      passes := passes - 1;
      var err;
      sg', err, g', rounds, d := DepthTurn(sg, frozen, depth, maxDepth, order, placeOrder, room, g', sg', rounds, d);
      if err.Some? {
        return sg', Err(err.value), g', rounds;
      }
    }
    r := Ok(true);
  }

  /** After a failed pass the rollback to depth `d'`; after any other the scene graph stays. */
  method EndRound(sg: seq<SceneObject>, next: seq<SceneObject>, depth: map<string, int>, frozen: set<string>,
                  failed: bool, d': int, placeOrder: seq<string>)
    returns (after: seq<SceneObject>, err: Option<SceneError>)
    requires Keeps(sg, next, placeOrder, 0) && LayoutKept(sg, next)
    ensures Keeps(sg, after, placeOrder, 0) && LayoutKept(sg, after)
    ensures !failed ==> err.None? && after == next
    ensures failed && err.None? ==> after == RolledBack(next, depth, frozen, d')
    ensures failed ==> (err.None? <==> forall j :: 0 <= j < |next| && !IsLayoutId(next[j].id) ==> next[j].id in depth)
    ensures err.Some? ==> failed && exists j :: FirstWithoutDepth(next, depth, j) && err.value == MissingDepth(next[j].id)
  {
    after, err := next, None;
    if failed {
      after, err := Rollback(next, depth, frozen, d');
      RollbackKeeps(sg, next, after, placeOrder);
    }
  }

  /** The scene graph between rounds and the nodes at a depth meet what a pass demands. */
  lemma TurnReady(sg: seq<SceneObject>, cur: seq<SceneObject>, order: seq<string>, nodes: seq<string>,
                  placeOrder: seq<string>)
    requires Ctx(sg, placeOrder) && LayoutEmpty(sg) && Keeps(sg, cur, placeOrder, 0)
    requires forall n :: n in order ==> !IsLayoutId(n)
    requires forall n :: n in nodes ==> n in order
    ensures Ctx(cur, placeOrder) && LayoutEmpty(cur)
    ensures forall i :: 0 <= i < |nodes| ==> !IsLayoutId(nodes[i])
  {
    forall i | 0 <= i < |nodes|
      ensures !IsLayoutId(nodes[i])
    {
      assert nodes[i] in nodes;
    }
    SteadyCtx(sg, cur, placeOrder);
    assert forall j :: 0 <= j < |sg| ==> cur[j].id == sg[j].id;
  }

  /** A pass from a scene graph between rounds keeps the facts, and one that raised nothing is a round. */
  lemma PassLinks(sg: seq<SceneObject>, cur: seq<SceneObject>, frozen: set<string>, nodes: seq<string>,
                  order: seq<string>, room: Room, next: seq<SceneObject>, failed: bool, err: Option<SceneError>,
                  placed: seq<nat>, steps: seq<Step>, n: nat)
    requires Ctx(sg, order) && Keeps(sg, cur, order, 0) && LayoutKept(sg, cur)
    requires PassResult(cur, frozen, nodes, order, room, next, failed, err, placed, steps, n)
    ensures Keeps(sg, next, order, 0) && LayoutKept(sg, next)
    ensures err.None? ==> PassSpec(cur, frozen, nodes, order, room, placed, steps, failed) && next == EndOf(cur, steps)
  {
    KeepsTrans(sg, cur, next, order, 0, 0);
    if err.None? {
      PassMeets(cur, frozen, nodes, order, room, placed, steps, failed, n);
    }
  }

  /** The pass of one round, from a scene graph between rounds. */
  method PassFrom(sg: seq<SceneObject>, cur: seq<SceneObject>, frozen: set<string>, order: seq<string>,
                  nodes: seq<string>, placeOrder: seq<string>, room: Room, g: Rng)
    returns (next: seq<SceneObject>, failed: bool, err: Option<SceneError>, g': Rng,
             ghost placed: seq<nat>, ghost steps: seq<Step>, ghost n: nat)
    requires Ctx(sg, placeOrder) && LayoutEmpty(sg) && Keeps(sg, cur, placeOrder, 0) && LayoutKept(sg, cur)
    requires forall n :: n in order ==> !IsLayoutId(n)
    requires forall n :: n in nodes ==> n in order
    ensures Keeps(sg, next, placeOrder, 0) && LayoutKept(sg, next)
    ensures PassResult(cur, frozen, nodes, placeOrder, room, next, failed, err, placed, steps, n)
    ensures err.None? ==> PassSpec(cur, frozen, nodes, placeOrder, room, placed, steps, failed) && next == EndOf(cur, steps)
  {
    TurnReady(sg, cur, order, nodes, placeOrder);
    next, failed, err, g', placed, steps, n := Pass(cur, frozen, nodes, placeOrder, room, g);
    PassLinks(sg, cur, frozen, nodes, placeOrder, room, next, failed, err, placed, steps, n);
  }

  /**
   * How the pass over `nodes` from `cur` raised `e`: one of its `place_object` calls or a node
   * that no entry has raised it, or the pass failed and the rollback came to an object without a depth.
   */
  ghost predicate PassRaised(cur: seq<SceneObject>, frozen: set<string>, nodes: seq<string>, placeOrder: seq<string>,
                             room: Room, depth: map<string, int>, next: seq<SceneObject>, failed: bool,
                             placed: seq<nat>, steps: seq<Step>, n: nat, e: SceneError) {
    PassResult(cur, frozen, nodes, placeOrder, room, next, false, Some(e), placed, steps, n) ||
    (PassResult(cur, frozen, nodes, placeOrder, room, next, true, None, placed, steps, n) &&
     exists j :: FirstWithoutDepth(next, depth, j) && e == MissingDepth(next[j].id))
  }

  /**
   * How the round at depth `d` from `cur` raised `e`: an object of the order has no depth, or the
   * pass over the objects at `d` raised, or the rollback after it did.
   */
  ghost predicate RoundRaised(cur: seq<SceneObject>, frozen: set<string>, depth: map<string, int>, order: seq<string>,
                              placeOrder: seq<string>, room: Room, d: int, e: SceneError) {
    match NodesAt(order, depth, d)
    case Err(x) => e == x
    case Ok(nodes) =>
      exists next, failed, placed, steps, n ::
        PassRaised(cur, frozen, nodes, placeOrder, room, depth, next, failed, placed, steps, n, e)
  }

  /**
   * One pass of the loop at depth `d`: either it raises, leaving the rounds as they were, or it
   * adds one round and returns the scene graph and the depth after it.
   */
  method DepthTurn(sg: seq<SceneObject>, frozen: set<string>, depth: map<string, int>, maxDepth: int,
                   order: seq<string>, placeOrder: seq<string>, room: Room, g: Rng,
                   cur: seq<SceneObject>, ghost rounds: seq<Round>, d: int)
    returns (sg': seq<SceneObject>, err: Option<SceneError>, g': Rng, ghost rounds': seq<Round>, d': int)
    requires Ctx(sg, placeOrder) && LayoutEmpty(sg) && 1 <= d <= maxDepth
    requires forall n :: n in order ==> !IsLayoutId(n)
    requires Keeps(sg, cur, placeOrder, 0) && LayoutKept(sg, cur)
    requires Rounds(sg, frozen, depth, maxDepth, order, placeOrder, room, rounds)
    requires cur == SceneAfter(sg, rounds) && d == DepthAfter(rounds)
    ensures Keeps(sg, sg', placeOrder, 0) && LayoutKept(sg, sg')
    ensures Rounds(sg, frozen, depth, maxDepth, order, placeOrder, room, rounds')
    ensures err.Some? ==> rounds' == rounds && RoundRaised(cur, frozen, depth, order, placeOrder, room, d, err.value)
    ensures err.None? ==> |rounds'| == |rounds| + 1 && sg' == SceneAfter(sg, rounds') && d' == DepthAfter(rounds') &&
                          1 <= d' <= maxDepth + 1
  {
    rounds' := rounds;
    d' := d;
    g' := g;
    var nodes := NodesAt(order, depth, d);
    if nodes.Err? {
      return cur, Some(nodes.error), g', rounds', d';
    }
    var next, failed, perr;
    ghost var placed, steps, n;
    next, failed, perr, g', placed, steps, n := PassFrom(sg, cur, frozen, order, nodes.value, placeOrder, room, g');
    if perr.Some? {
      assert PassRaised(cur, frozen, nodes.value, placeOrder, room, depth, next, failed, placed, steps, n, perr.value);
      return next, perr, g', rounds', d';
    }
    d' := d + 1;
    if failed {
      d' := d;
      if d > 1 {
        d' := d - 1;
      }
    }
    var after, rerr := EndRound(sg, next, depth, frozen, failed, d', placeOrder);
    if rerr.Some? {
      assert PassRaised(cur, frozen, nodes.value, placeOrder, room, depth, next, failed, placed, steps, n, rerr.value);
      return after, rerr, g', rounds', d;
    }
    RoundsNext(sg, frozen, depth, maxDepth, order, placeOrder, room, rounds, Round(d, cur, placed, steps, failed, after));
    rounds' := rounds + [Round(d, cur, placed, steps, failed, after)];
    sg' := after;
    err := None;
  }

  // ---------------------------------------------------------------- the class

  /** Every layout element is one of the room priors. */
  lemma PriorsCoverLayout(room: Room)
    ensures forall x :: IsLayoutId(x) ==> exists i :: 0 <= i < 6 && GetRoomPriors(room)[i].id == x
  {
    var p := GetRoomPriors(room);
    assert p[0].id == SouthWall && p[1].id == NorthWall && p[2].id == EastWall;
    assert p[3].id == WestWall && p[4].id == MiddleOfRoom && p[5].id == Ceiling;
  }

  /** With distinct ids, the layout entries of `objects + priors` are the priors. */
  lemma LayoutArePriors(objects: seq<SceneObject>, room: Room)
    requires DistinctIds(objects + GetRoomPriors(room))
    ensures forall j :: 0 <= j < |objects| ==> !IsLayoutId(objects[j].id)
    ensures LayoutEmpty(objects + GetRoomPriors(room))
  {
    var sg := objects + GetRoomPriors(room);
    PriorsCoverLayout(room);
    forall j, i | 0 <= j < |objects| && 0 <= i < 6
      ensures objects[j].id != GetRoomPriors(room)[i].id
    {
      assert sg[j] == objects[j] && sg[|objects| + i] == GetRoomPriors(room)[i];
    }
  }

  /** The scene graph `backtrack` starts from: rotated, and the layout entries are the priors. */
  lemma SceneReady(objects: seq<SceneObject>, room: Room)
    requires DistinctIds(objects + GetRoomPriors(room)) && Rotated(objects)
    ensures var scene := objects + GetRoomPriors(room);
            Rotated(scene) && LayoutEmpty(scene) &&
            (forall j :: 0 <= j < |objects| ==> !IsLayoutId(objects[j].id)) &&
            (forall i :: |objects| <= i < |scene| ==> IsLayoutId(scene[i].id))
  {
    LayoutArePriors(objects, room);
    var scene := objects + GetRoomPriors(room);
    assert forall j :: 0 <= j < |scene| ==> scene[j] == if j < |objects| then objects[j] else GetRoomPriors(room)[j - |objects|];
  }

  /** After the point pass the placing may start: ids, placements and order are as before. */
  lemma PointsReady(scene: seq<SceneObject>, placeOrder: seq<string>, pts: Points)
    requires DistinctIds(scene) && LayoutEmpty(scene) && IsTopoOrder(BuildSpec(scene), placeOrder)
    requires Steady(scene, pts.sg) && Rotated(pts.sg)
    ensures Ctx(pts.sg, placeOrder) && LayoutEmpty(pts.sg)
  {
    assert forall j :: 0 <= j < |scene| ==> pts.sg[j].id == scene[j].id && pts.sg[j].placement == scene[j].placement;
    BuildSpecShape(scene, pts.sg);
    RankedFromTopo(pts.sg, placeOrder);
  }

  /** `backtrack` leaves ids, sizes, placements, clusters, rotations and the priors as they were. */
  lemma BacktrackKeeps(scene: seq<SceneObject>, mid: seq<SceneObject>, placed: seq<SceneObject>, n: nat)
    requires n <= |scene| && Steady(scene, mid) && Steady(mid, placed) && Rotated(placed)
    requires LayoutKept(scene, mid) && LayoutKept(mid, placed)
    requires forall i :: n <= i < |scene| ==> IsLayoutId(scene[i].id)
    ensures Steady(scene, placed) && Rotated(placed) && placed[n..] == scene[n..]
  {
    assert forall j :: 0 <= j < |scene| ==> Same(scene[j], mid[j]) && Same(mid[j], placed[j]);
    assert forall i :: n <= i < |scene| ==> placed[i] == mid[i] == scene[i];
  }

  /**
   * What the second half of `backtrack` did from `sg`, given the depths `depth` that `get_depth`
   * returned: `max()` raises when there is none; otherwise the rounds of the depth loop up to the
   * largest depth `top`, within `budget` rounds, and the scene graph they end with once nothing raised.
   */
  ghost predicate DepthRun(sg: seq<SceneObject>, frozen: set<string>, topo: seq<string>, placeOrder: seq<string>,
                           room: Room, budget: nat, sg': seq<SceneObject>, r: Result<bool, SceneError>,
                           depth: map<string, int>, top: int, rounds: seq<Round>) {
    if depth == map[] then r == Err(NoDepths) && sg' == sg
    else
      top in depth.Values && (forall k :: k in depth ==> depth[k] <= top) &&
      Rounds(sg, frozen, depth, top, WithoutLayoutIds(topo), placeOrder, room, rounds) && |rounds| <= budget &&
      (r.Ok? ==> sg' == SceneAfter(sg, rounds)) &&
      (r == Ok(true) ==> DepthAfter(rounds) == top + 1) &&
      (r == Ok(false) ==> |rounds| == budget && DepthAfter(rounds) <= top) &&
      (r.Err? ==> DepthAfter(rounds) <= top &&
                  RoundRaised(SceneAfter(sg, rounds), frozen, depth, WithoutLayoutIds(topo), placeOrder, room,
                              DepthAfter(rounds), r.error))
  }

  /**
   * The second half of `backtrack`: the depth of every object in the graph without the layout
   * elements, then the depth loop up to the largest depth.
   */
  method PlaceByDepth(sg: seq<SceneObject>, frozen: set<string>, topo: seq<string>, placeOrder: seq<string>,
                      room: Room, g: Rng, budget: nat)
    returns (sg': seq<SceneObject>, r: Result<bool, SceneError>, g': Rng,
             depth: map<string, int>, ghost top: int, ghost rounds: seq<Round>)
    requires Ctx(sg, placeOrder) && LayoutEmpty(sg)
    ensures Keeps(sg, sg', placeOrder, 0) && LayoutKept(sg, sg')
    ensures var g := BuildSpec(WithoutLayout(sg));
            (forall k :: k in depth ==> k in g.nodes && !IsLayoutId(k) && depth[k] >= 1) &&
            (forall u, v :: HasEdge(g, u, v) && !IsLayoutId(v) && (u in depth || IsLayoutId(u)) ==> v in depth) &&
            (forall v :: v in depth ==> exists u :: HasEdge(g, u, v) && (u in depth || IsLayoutId(u))) &&
            (forall u, v :: IsLayoutId(u) && HasEdge(g, u, v) && !IsLayoutId(v) ==> v in depth && depth[v] == 1)
    ensures DepthRun(sg, frozen, topo, placeOrder, room, budget, sg', r, depth, top, rounds)
  {
    depth := GetDepth(WithoutLayout(sg));
    sg', r, g', top, rounds := PlaceAtDepths(sg, frozen, topo, placeOrder, room, g, budget, depth);
  }

  /** The depth loop of `backtrack` up to the largest of the depths `depth`; `max()` raises when there is none. */
  method PlaceAtDepths(sg: seq<SceneObject>, frozen: set<string>, topo: seq<string>, placeOrder: seq<string>,
                       room: Room, g: Rng, budget: nat, depth: map<string, int>)
    returns (sg': seq<SceneObject>, r: Result<bool, SceneError>, g': Rng, ghost top: int, ghost rounds: seq<Round>)
    requires Ctx(sg, placeOrder) && LayoutEmpty(sg)
    requires forall k :: k in depth ==> depth[k] >= 1
    ensures Keeps(sg, sg', placeOrder, 0) && LayoutKept(sg, sg')
    ensures DepthRun(sg, frozen, topo, placeOrder, room, budget, sg', r, depth, top, rounds)
  {
    var maxDepth := MaxDepth(depth);
    if maxDepth.None? {
      assert NoNewCollisions(sg, sg);
      return sg, Err(NoDepths), g, 0, [];
    }
    ghost var k :| k in depth && depth[k] == maxDepth.value;
    var order := WithoutLayoutIds(topo);
    top := maxDepth.value;
    sg', r, g', rounds := DepthLoop(sg, frozen, depth, maxDepth.value, order, placeOrder, room, g, budget);
  }

  /**
   * `backtrack` on values: `objects` followed by the room priors, the point pass, then the depth
   * loop. Ids, sizes, placements, clusters, rotations and the priors stay as they were; an
   * exception of the point pass is passed on; otherwise no object placed collides with another,
   * and the depth loop ran from the point pass's result as `DepthRun` says.
   * `topo` is the topological order of the graph of the objects (layout elements included as
   * references) and `placeOrder` that of the whole scene graph, which `place_object` computes.
   */
  method LayOut(objects: seq<SceneObject>, room: Room, topo: seq<string>, placeOrder: seq<string>, g: Rng, budget: nat)
    returns (sg': seq<SceneObject>, r: Result<bool, SceneError>, g': Rng,
             ghost depth: map<string, int>, ghost top: int, ghost rounds: seq<Round>)
    requires DistinctIds(objects + GetRoomPriors(room)) && Rotated(objects)
    requires IsTopoOrder(BuildSpec(objects + GetRoomPriors(room)), placeOrder)
    ensures Steady(objects + GetRoomPriors(room), sg') && Rotated(sg')
    ensures sg'[|objects|..] == GetRoomPriors(room)
    ensures var pts := PointsTo(objects + GetRoomPriors(room), |objects + GetRoomPriors(room)|, room);
            (pts.err.Some? ==> r == Err(pts.err.value) && sg' == pts.sg) &&
            (pts.err.None? ==> NoNewCollisions(pts.sg, sg') &&
                               DepthRun(pts.sg, pts.frozen, topo, placeOrder, room, budget, sg', r, depth, top, rounds))
  {
    var scene := objects + GetRoomPriors(room);
    SceneReady(objects, room);
    PointsKeep(scene, |scene|, room);
    var pts := PointPass(scene, room);
    BacktrackKeeps(scene, pts.sg, pts.sg, |objects|);
    if pts.err.Some? {
      return pts.sg, Err(pts.err.value), g, map[], 0, [];
    }
    PointsReady(scene, placeOrder, pts);
    sg', r, g', depth, top, rounds := PlaceByDepth(pts.sg, pts.frozen, topo, placeOrder, room, g, budget);
    BacktrackKeeps(scene, pts.sg, sg', |objects|);
  }

  /** The IDesign object, as far as the layout steps use it. */
  class IDesign {
    /** `self.scene_graph`, from `objects_in_room` on: the room priors are appended by `backtrack`. */
    var sceneGraph: seq<SceneObject>
    /** `self.room_dimensions`. */
    const room: Room
    /** `self.room_priors`. */
    const priors: seq<SceneObject>
    /** The state of the random source. */
    var rng: Rng

    /** `__init__`, given the objects the design conversation produced. */
    constructor (objects: seq<SceneObject>, room: Room, seed: nat)
      ensures sceneGraph == objects && this.room == room && priors == GetRoomPriors(room) && rng == Rng(seed)
    {
      sceneGraph := objects;
      this.room := room;
      priors := GetRoomPriors(room);
      rng := Rng(seed);
    }

    /** `create_object_clusters`, with `order` the topological order of the graph of the objects. */
    method CreateObjectClusters(order: seq<string>) returns (err: Option<SceneError>)
      modifies this`sceneGraph
      requires IsTopoOrder(BuildSpec(sceneGraph), order)
      ensures Run(sceneGraph, err) == ObjectClusters(old(sceneGraph), order)
    {
      var sg := sceneGraph;
      var cur := sg;
      for i := 0 to |cur|
        invariant |cur| == |sg| && AssignRotations(cur, i) == AssignRotations(sg, 0)
      {
        var rot := GetRotation(cur[i], cur, Fuel(cur));
        if rot.Err? {
          sceneGraph := cur;
          return Some(rot.error);
        }
        cur := WithRotation(cur, i, rot.value);
      }
      RotationsAssigned(sg, 0);
      BuildSpecShape(sg, cur);
      BuildGraphWellFormed(cur);
      var g := BuildGraph(cur);
      var rotated := cur;
      for i := 0 to |g.nodes|
        invariant AssignClusters(g, cur, order, i) == AssignClusters(g, rotated, order, 0)
      {
        var node := g.nodes[i];
        assert node in g.nodes;
        if !IsLayoutId(node) {
          var c := GetClusterSize(g, cur, order, node);
          if c.Err? {
            sceneGraph := cur;
            return Some(c.error);
          }
          cur := SetCluster(cur, node, Area(c.value.ext));
        }
      }
      sceneGraph := cur;
      err := None;
    }

    /** `backtrack`, on the IDesign object: the scene graph and the random source are updated. */
    method Backtrack(topo: seq<string>, placeOrder: seq<string>, budget: nat)
      returns (r: Result<bool, SceneError>, ghost depth: map<string, int>, ghost top: int, ghost rounds: seq<Round>)
      modifies this`sceneGraph, this`rng
      requires priors == GetRoomPriors(room)
      requires DistinctIds(sceneGraph + priors) && Rotated(sceneGraph)
      requires IsTopoOrder(BuildSpec(sceneGraph + priors), placeOrder)
      ensures Steady(old(sceneGraph) + priors, sceneGraph) && Rotated(sceneGraph)
      ensures sceneGraph[|old(sceneGraph)|..] == priors
      ensures var pts := PointsTo(old(sceneGraph) + priors, |old(sceneGraph) + priors|, room);
              (pts.err.Some? ==> r == Err(pts.err.value) && sceneGraph == pts.sg) &&
              (pts.err.None? ==> NoNewCollisions(pts.sg, sceneGraph) &&
                                 DepthRun(pts.sg, pts.frozen, topo, placeOrder, room, budget, sceneGraph, r, depth, top, rounds))
    {
      sceneGraph, r, rng, depth, top, rounds := LayOut(sceneGraph, room, topo, placeOrder, rng, budget);
    }
  }
}
