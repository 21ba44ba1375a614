/**
 * The directed scene graph of utils.py (`build_graph`) and its two rewrites
 * (`remove_unnecessary_edges`, `handle_under_prepositions`). An edge runs from the reference
 * to the dependent object and carries `(preposition, adjacency)`. The networkx graph is a
 * node sequence and an edge sequence, both in insertion order, with at most one edge per pair;
 * re-adding an edge overwrites its weight in place, as networkx does.
 */
module Graph {
  import opened Wrappers
  import opened Geometry
  import opened Constraints
  import opened Scene

  datatype Weight = Weight(prep: Prep, adjacent: bool)
  datatype Edge = Edge(src: string, dst: string, w: Weight)
  datatype Digraph = Digraph(nodes: seq<string>, edges: seq<Edge>)

  const Empty: Digraph := Digraph([], [])

  predicate HasEdgeIn(es: seq<Edge>, u: string, v: string) {
    exists e :: e in es && e.src == u && e.dst == v
  }

  predicate HasEdge(g: Digraph, u: string, v: string) {
    HasEdgeIn(g.edges, u, v)
  }

  predicate DistinctStrings(s: seq<string>) {
    forall i, j :: 0 <= i < j < |s| ==> s[i] != s[j]
  }

  /** At most one edge per ordered pair. */
  predicate UniquePairs(es: seq<Edge>) {
    forall i, j :: 0 <= i < j < |es| ==> !(es[i].src == es[j].src && es[i].dst == es[j].dst)
  }

  /** No repeated node, at most one edge per ordered pair, and every endpoint is a node. */
  predicate WellFormed(g: Digraph) {
    DistinctStrings(g.nodes) && UniquePairs(g.edges) &&
    (forall e :: e in g.edges ==> e.src in g.nodes && e.dst in g.nodes)
  }

  /** `G.add_node(n)`: a no-op when the node exists. */
  function AddNode(g: Digraph, n: string): (r: Digraph)
    ensures r.edges == g.edges
    ensures forall m :: m in r.nodes <==> m in g.nodes || m == n
    ensures WellFormed(g) ==> WellFormed(r)
  {
    if n in g.nodes then g else Digraph(g.nodes + [n], g.edges)
  }

  /** Every edge with the pair `(u, v)` gets weight `w`. */
  function Reweight(es: seq<Edge>, u: string, v: string, w: Weight): (r: seq<Edge>)
    ensures |r| == |es|
    ensures forall k :: 0 <= k < |es| ==>
              r[k].src == es[k].src && r[k].dst == es[k].dst &&
              r[k].w == (if es[k].src == u && es[k].dst == v then w else es[k].w)
  {
    if |es| == 0 then []
    else [if es[0].src == u && es[0].dst == v then Edge(u, v, w) else es[0]] + Reweight(es[1..], u, v, w)
  }

  /** `G.add_edge(u, v, weight=w)`: adds missing endpoints, then adds the edge or overwrites its weight. */
  function AddEdge(g: Digraph, u: string, v: string, w: Weight): (r: Digraph)
    ensures forall m :: m in r.nodes <==> m in g.nodes || m == u || m == v
    ensures forall e :: e in r.edges <==> e == Edge(u, v, w) || (e in g.edges && !(e.src == u && e.dst == v))
    ensures WellFormed(g) ==> WellFormed(r)
  {
    var g1 := AddNode(AddNode(g, u), v);
    if HasEdge(g1, u, v) then
      ReweightMembers(g1.edges, u, v, w);
      Digraph(g1.nodes, Reweight(g1.edges, u, v, w))
    else
      Digraph(g1.nodes, g1.edges + [Edge(u, v, w)])
  }

  /** Reweighting an existing pair replaces that edge by the new one and keeps the rest. */
  lemma ReweightMembers(es: seq<Edge>, u: string, v: string, w: Weight)
    requires HasEdgeIn(es, u, v)
    ensures forall e :: e in Reweight(es, u, v, w) <==> e == Edge(u, v, w) || (e in es && !(e.src == u && e.dst == v))
    ensures UniquePairs(es) ==> UniquePairs(Reweight(es, u, v, w))
  {
    var r := Reweight(es, u, v, w);
    forall e | e in r ensures e == Edge(u, v, w) || (e in es && !(e.src == u && e.dst == v)) {
      var k :| 0 <= k < |r| && r[k] == e;
      assert es[k] in es;
    }
    forall e | e in es && !(e.src == u && e.dst == v) ensures e in r {
      var k :| 0 <= k < |es| && es[k] == e;
      assert r[k] == e;
    }
    var e0 :| e0 in es && e0.src == u && e0.dst == v;
    var k0 :| 0 <= k0 < |es| && es[k0] == e0;
    assert r[k0] == Edge(u, v, w);
  }

  /** The edges not matching the pair `(u, v)`. */
  function WithoutPair(es: seq<Edge>, u: string, v: string): (r: seq<Edge>)
    ensures forall e :: e in r <==> e in es && !(e.src == u && e.dst == v)
    ensures UniquePairs(es) ==> UniquePairs(r)
  {
    if |es| == 0 then []
    else if es[0].src == u && es[0].dst == v then WithoutPair(es[1..], u, v)
    else
      var r := [es[0]] + WithoutPair(es[1..], u, v);
      assert forall j :: 0 < j < |r| ==> r[j] in es[1..];
      r
  }

  /** `G.remove_edge(u, v)`. */
  function RemoveEdge(g: Digraph, u: string, v: string): (r: Digraph)
    ensures r.nodes == g.nodes
    ensures forall e :: e in r.edges <==> e in g.edges && !(e.src == u && e.dst == v)
    ensures WellFormed(g) ==> WellFormed(r)
  {
    Digraph(g.nodes, WithoutPair(g.edges, u, v))
  }

  function WithoutString(s: seq<string>, n: string): (r: seq<string>)
    ensures forall m :: m in r <==> m in s && m != n
    ensures DistinctStrings(s) ==> DistinctStrings(r)
  {
    if |s| == 0 then []
    else if s[0] == n then WithoutString(s[1..], n)
    else
      var r := [s[0]] + WithoutString(s[1..], n);
      assert forall j :: 0 < j < |r| ==> r[j] in s[1..];
      r
  }

  /** The edges that do not touch `n`. */
  function WithoutTouching(es: seq<Edge>, n: string): (r: seq<Edge>)
    ensures forall e :: e in r <==> e in es && e.src != n && e.dst != n
    ensures UniquePairs(es) ==> UniquePairs(r)
  {
    if |es| == 0 then []
    else if es[0].src == n || es[0].dst == n then WithoutTouching(es[1..], n)
    else
      var r := [es[0]] + WithoutTouching(es[1..], n);
      assert forall j :: 0 < j < |r| ==> r[j] in es[1..];
      r
  }

  /** `G.remove_node(n)`: the node and every edge touching it. */
  function RemoveNode(g: Digraph, n: string): (r: Digraph)
    ensures forall m :: m in r.nodes <==> m in g.nodes && m != n
    ensures forall e :: e in r.edges <==> e in g.edges && e.src != n && e.dst != n
    ensures WellFormed(g) ==> WellFormed(r)
  {
    Digraph(WithoutString(g.nodes, n), WithoutTouching(g.edges, n))
  }

  /** `G.predecessors(v)`: sources of the edges into `v`, in edge order. */
  function PredsIn(es: seq<Edge>, v: string): (r: seq<string>)
    ensures forall u :: u in r <==> HasEdgeIn(es, u, v)
  {
    if |es| == 0 then []
    else
      var rest := PredsIn(es[1..], v);
      assert forall u :: HasEdgeIn(es, u, v) <==> (es[0].src == u && es[0].dst == v) || HasEdgeIn(es[1..], u, v) by {
        forall u ensures HasEdgeIn(es, u, v) <==> (es[0].src == u && es[0].dst == v) || HasEdgeIn(es[1..], u, v) {
          if HasEdgeIn(es, u, v) && !(es[0].src == u && es[0].dst == v) {
            var e :| e in es && e.src == u && e.dst == v;
            assert e in es[1..];
          }
          if HasEdgeIn(es[1..], u, v) {
            var e :| e in es[1..] && e.src == u && e.dst == v;
            assert e in es;
          }
        }
      }
      (if es[0].dst == v then [es[0].src] else []) + rest
  }

  function Preds(g: Digraph, v: string): seq<string> {
    PredsIn(g.edges, v)
  }

  /** `G.successors(u)`: targets of the edges out of `u`, in edge order. */
  function SuccsIn(es: seq<Edge>, u: string): (r: seq<string>)
    ensures forall v :: v in r <==> HasEdgeIn(es, u, v)
  {
    if |es| == 0 then []
    else
      var rest := SuccsIn(es[1..], u);
      assert forall v :: HasEdgeIn(es, u, v) <==> (es[0].src == u && es[0].dst == v) || HasEdgeIn(es[1..], u, v) by {
        forall v ensures HasEdgeIn(es, u, v) <==> (es[0].src == u && es[0].dst == v) || HasEdgeIn(es[1..], u, v) {
          if HasEdgeIn(es, u, v) && !(es[0].src == u && es[0].dst == v) {
            var e :| e in es && e.src == u && e.dst == v;
            assert e in es[1..];
          }
          if HasEdgeIn(es[1..], u, v) {
            var e :| e in es[1..] && e.src == u && e.dst == v;
            assert e in es;
          }
        }
      }
      (if es[0].src == u then [es[0].dst] else []) + rest
  }

  function Succs(g: Digraph, u: string): seq<string> {
    SuccsIn(g.edges, u)
  }

  /** `G[u][v]["weight"]`, absent when there is no such edge. */
  function WeightIn(es: seq<Edge>, u: string, v: string): (r: Option<Weight>)
    ensures r.Some? <==> HasEdgeIn(es, u, v)
    ensures r.Some? ==> Edge(u, v, r.value) in es
  {
    if |es| == 0 then None
    else if es[0].src == u && es[0].dst == v then Some(es[0].w)
    else
      var rest := WeightIn(es[1..], u, v);
      assert HasEdgeIn(es[1..], u, v) ==> HasEdgeIn(es, u, v) by {
        if HasEdgeIn(es[1..], u, v) {
          var e :| e in es[1..] && e.src == u && e.dst == v;
          assert e in es;
        }
      }
      assert HasEdgeIn(es, u, v) ==> HasEdgeIn(es[1..], u, v) by {
        if HasEdgeIn(es, u, v) {
          var e :| e in es && e.src == u && e.dst == v;
          assert e in es[1..];
        }
      }
      rest
  }

  function WeightOf(g: Digraph, u: string, v: string): Option<Weight> {
    WeightIn(g.edges, u, v)
  }

  /** In a well-formed graph an edge's weight is the one `G[u][v]` reads. */
  lemma WeightOfEdge(g: Digraph, e: Edge)
    requires WellFormed(g) && e in g.edges
    ensures WeightOf(g, e.src, e.dst) == Some(e.w)
  {
    assert HasEdge(g, e.src, e.dst);
    var w := WeightOf(g, e.src, e.dst).value;
    var i :| 0 <= i < |g.edges| && g.edges[i] == Edge(e.src, e.dst, w);
    var j :| 0 <= j < |g.edges| && g.edges[j] == e;
    assert i == j;
  }

  /**
   * A topological order of the graph (what `nx.topological_sort` returns): every node exactly
   * once, and every edge goes forward.
   */
  predicate IsTopoOrder(g: Digraph, order: seq<string>) {
    DistinctStrings(order) &&
    (forall n :: n in g.nodes ==> n in order) && (forall n :: n in order ==> n in g.nodes) &&
    (forall i, j :: 0 <= i < |order| && 0 <= j < |order| && HasEdge(g, order[i], order[j]) ==> i < j)
  }

  /** The position of a node in an order. */
  function Rank(order: seq<string>, n: string): (r: nat)
    requires n in order
    ensures r < |order| && order[r] == n
    ensures DistinctStrings(order) ==> forall k :: 0 <= k < |order| && order[k] == n ==> k == r
  {
    if order[0] == n then 0 else 1 + Rank(order[1..], n)
  }

  /** In a topological order every edge's target comes strictly after its source. */
  lemma EdgeGoesForward(g: Digraph, order: seq<string>, u: string, v: string)
    requires WellFormed(g) && IsTopoOrder(g, order) && HasEdge(g, u, v)
    ensures u in order && v in order && Rank(order, u) < Rank(order, v)
  {
    var e :| e in g.edges && e.src == u && e.dst == v;
    assert u in g.nodes && v in g.nodes;
  }

  // ---------------------------------------------------------------- build_graph

  function AddLayoutEdges(g: Digraph, v: string, ls: seq<LayoutEdge>): Digraph
    decreases |ls|
  {
    if |ls| == 0 then g
    else AddEdge(AddLayoutEdges(g, v, ls[..|ls| - 1]), ls[|ls| - 1].element, v, Weight(ls[|ls| - 1].prep, true))
  }

  function AddObjectEdges(g: Digraph, v: string, os: seq<ObjectEdge>): Digraph
    decreases |os|
  {
    if |os| == 0 then g
    else
      var c := os[|os| - 1];
      AddEdge(AddObjectEdges(g, v, os[..|os| - 1]), c.target, v, Weight(c.prep, c.adjacent))
  }

  /** The graph after one object of the loop in `build_graph`. */
  function AddObject(g: Digraph, o: SceneObject): Digraph {
    AddObjectEdges(AddLayoutEdges(AddNode(g, o.id), o.id, o.placement.layout), o.id, o.placement.objects)
  }

  /** The graph `build_graph` builds, as a fold over the scene graph. */
  function BuildSpec(sg: seq<SceneObject>): Digraph
    decreases |sg|
  {
    if |sg| == 0 then Empty else AddObject(BuildSpec(sg[..|sg| - 1]), sg[|sg| - 1])
  }

  /** `build_graph`. */
  method BuildGraph(sg: seq<SceneObject>) returns (g: Digraph)
    ensures g == BuildSpec(sg)
  {
    g := Empty;
    var i := 0;
    while i < |sg|
      invariant 0 <= i <= |sg|
      invariant g == BuildSpec(sg[..i])
    {
      var o := sg[i];
      g := AddNode(g, o.id);
      g := AddLayoutLoop(g, o.id, o.placement.layout);
      g := AddObjectLoop(g, o.id, o.placement.objects);
      assert sg[..i + 1][..i] == sg[..i];
      i := i + 1;
    }
    assert sg[..i] == sg;
  }

  /** The loop of `build_graph` over `room_layout_elements`. */
  method AddLayoutLoop(g0: Digraph, v: string, ls: seq<LayoutEdge>) returns (g: Digraph)
    ensures g == AddLayoutEdges(g0, v, ls)
  {
    g := g0;
    var j := 0;
    while j < |ls|
      invariant 0 <= j <= |ls|
      invariant g == AddLayoutEdges(g0, v, ls[..j])
    {
      assert ls[..j + 1][..j] == ls[..j];
      g := AddEdge(g, ls[j].element, v, Weight(ls[j].prep, true));
      j := j + 1;
    }
    assert ls[..j] == ls;
  }

  /** The loop of `build_graph` over `objects_in_room`. */
  method AddObjectLoop(g0: Digraph, v: string, os: seq<ObjectEdge>) returns (g: Digraph)
    ensures g == AddObjectEdges(g0, v, os)
  {
    g := g0;
    var k := 0;
    while k < |os|
      invariant 0 <= k <= |os|
      invariant g == AddObjectEdges(g0, v, os[..k])
    {
      assert os[..k + 1][..k] == os[..k];
      g := AddEdge(g, os[k].target, v, Weight(os[k].prep, os[k].adjacent));
      k := k + 1;
    }
    assert os[..k] == os;
  }

  /** Object `o` lists `u` as a reference with weight `w`. */
  predicate References(o: SceneObject, u: string, w: Weight) {
    (exists k :: 0 <= k < |o.placement.layout| && o.placement.layout[k].element == u &&
                 w == Weight(o.placement.layout[k].prep, true)) ||
    (exists k :: 0 <= k < |o.placement.objects| && o.placement.objects[k].target == u &&
                 w == Weight(o.placement.objects[k].prep, o.placement.objects[k].adjacent))
  }

  predicate ListsReference(o: SceneObject, u: string) {
    (exists k :: 0 <= k < |o.placement.layout| && o.placement.layout[k].element == u) ||
    (exists k :: 0 <= k < |o.placement.objects| && o.placement.objects[k].target == u)
  }

  /** Some entry with the edge's target as id lists the edge's source with the edge's weight. */
  predicate Justified(sg: seq<SceneObject>, e: Edge) {
    exists i :: 0 <= i < |sg| && sg[i].id == e.dst && References(sg[i], e.src, e.w)
  }

  lemma {:induction false} LayoutEdgesSound(g: Digraph, o: SceneObject, n: nat)
    requires n <= |o.placement.layout|
    ensures forall e :: e in AddLayoutEdges(g, o.id, o.placement.layout[..n]).edges ==>
              e in g.edges || (e.dst == o.id && References(o, e.src, e.w))
    ensures forall m :: m in AddLayoutEdges(g, o.id, o.placement.layout[..n]).nodes ==>
              m in g.nodes || m == o.id || ListsReference(o, m)
    decreases n
  {
    if n > 0 {
      assert o.placement.layout[..n][..n - 1] == o.placement.layout[..n - 1];
      LayoutEdgesSound(g, o, n - 1);
    }
  }

  lemma {:induction false} ObjectEdgesSound(g: Digraph, o: SceneObject, n: nat)
    requires n <= |o.placement.objects|
    ensures forall e :: e in AddObjectEdges(g, o.id, o.placement.objects[..n]).edges ==>
              e in g.edges || (e.dst == o.id && References(o, e.src, e.w))
    ensures forall m :: m in AddObjectEdges(g, o.id, o.placement.objects[..n]).nodes ==>
              m in g.nodes || m == o.id || ListsReference(o, m)
    decreases n
  {
    if n > 0 {
      assert o.placement.objects[..n][..n - 1] == o.placement.objects[..n - 1];
      ObjectEdgesSound(g, o, n - 1);
    }
  }

  /**
   * Every edge of the built graph comes from a constraint: its target is an entry that lists
   * its source as a layout element or a reference object, with that constraint's weight
   * (layout constraints are always adjacent). Every node is an id or a listed reference.
   */
  lemma {:induction false} BuildGraphSound(sg: seq<SceneObject>)
    ensures forall e :: e in BuildSpec(sg).edges ==> Justified(sg, e)
    ensures forall m :: m in BuildSpec(sg).nodes ==>
              exists i :: 0 <= i < |sg| && (sg[i].id == m || ListsReference(sg[i], m))
    decreases |sg|
  {
    if |sg| > 0 {
      var prefix := sg[..|sg| - 1];
      var o := sg[|sg| - 1];
      BuildGraphSound(prefix);
      var g0 := BuildSpec(prefix);
      var g1 := AddLayoutEdges(AddNode(g0, o.id), o.id, o.placement.layout);
      assert o.placement.layout[..|o.placement.layout|] == o.placement.layout;
      assert o.placement.objects[..|o.placement.objects|] == o.placement.objects;
      LayoutEdgesSound(AddNode(g0, o.id), o, |o.placement.layout|);
      ObjectEdgesSound(g1, o, |o.placement.objects|);
      forall e | e in BuildSpec(sg).edges ensures Justified(sg, e) {
        if e in g0.edges {
          var i :| 0 <= i < |prefix| && prefix[i].id == e.dst && References(prefix[i], e.src, e.w);
          assert sg[i] == prefix[i];
        } else {
          assert sg[|sg| - 1].id == e.dst && References(sg[|sg| - 1], e.src, e.w);
        }
      }
      forall m | m in BuildSpec(sg).nodes
        ensures exists i :: 0 <= i < |sg| && (sg[i].id == m || ListsReference(sg[i], m))
      {
        if m in g0.nodes {
          var i :| 0 <= i < |prefix| && (prefix[i].id == m || ListsReference(prefix[i], m));
          assert sg[i] == prefix[i];
        } else {
          assert sg[|sg| - 1].id == m || ListsReference(sg[|sg| - 1], m);
        }
      }
    }
  }

  /** Adding edges never removes a node or an edge pair. */
  lemma {:induction false} LayoutEdgesKeep(g: Digraph, v: string, ls: seq<LayoutEdge>)
    ensures forall m :: m in g.nodes ==> m in AddLayoutEdges(g, v, ls).nodes
    ensures forall u, w :: HasEdge(g, u, w) ==> HasEdge(AddLayoutEdges(g, v, ls), u, w)
    ensures forall k :: 0 <= k < |ls| ==> HasEdge(AddLayoutEdges(g, v, ls), ls[k].element, v)
    decreases |ls|
  {
    if |ls| > 0 {
      var pre := ls[..|ls| - 1];
      LayoutEdgesKeep(g, v, pre);
      var gp := AddLayoutEdges(g, v, pre);
      var last := ls[|ls| - 1];
      var r := AddLayoutEdges(g, v, ls);
      assert r == AddEdge(gp, last.element, v, Weight(last.prep, true));
      assert Edge(last.element, v, Weight(last.prep, true)) in r.edges;
      forall u, w | HasEdge(gp, u, w) ensures HasEdge(r, u, w) {
        var e :| e in gp.edges && e.src == u && e.dst == w;
        if e.src == last.element && e.dst == v {
          assert Edge(last.element, v, Weight(last.prep, true)) in r.edges;
        } else {
          assert e in r.edges;
        }
      }
      forall k | 0 <= k < |ls| ensures HasEdge(r, ls[k].element, v) {
        if k < |ls| - 1 {
          assert pre[k] == ls[k];
        }
      }
    }
  }

  lemma {:induction false} ObjectEdgesKeep(g: Digraph, v: string, os: seq<ObjectEdge>)
    ensures forall m :: m in g.nodes ==> m in AddObjectEdges(g, v, os).nodes
    ensures forall u, w :: HasEdge(g, u, w) ==> HasEdge(AddObjectEdges(g, v, os), u, w)
    ensures forall k :: 0 <= k < |os| ==> HasEdge(AddObjectEdges(g, v, os), os[k].target, v)
    decreases |os|
  {
    if |os| > 0 {
      var pre := os[..|os| - 1];
      ObjectEdgesKeep(g, v, pre);
      var gp := AddObjectEdges(g, v, pre);
      var last := os[|os| - 1];
      var r := AddObjectEdges(g, v, os);
      assert r == AddEdge(gp, last.target, v, Weight(last.prep, last.adjacent));
      assert Edge(last.target, v, Weight(last.prep, last.adjacent)) in r.edges;
      forall u, w | HasEdge(gp, u, w) ensures HasEdge(r, u, w) {
        var e :| e in gp.edges && e.src == u && e.dst == w;
        if e.src == last.target && e.dst == v {
          assert Edge(last.target, v, Weight(last.prep, last.adjacent)) in r.edges;
        } else {
          assert e in r.edges;
        }
      }
      forall k | 0 <= k < |os| ensures HasEdge(r, os[k].target, v) {
        if k < |os| - 1 {
          assert pre[k] == os[k];
        }
      }
    }
  }

  /**
   * Conversely every constraint of every entry is an edge of the built graph, and every id is
   * a node.
   */
  lemma {:induction false} BuildGraphComplete(sg: seq<SceneObject>)
    ensures forall i :: 0 <= i < |sg| ==> sg[i].id in BuildSpec(sg).nodes
    ensures forall i, k :: 0 <= i < |sg| && 0 <= k < |sg[i].placement.layout| ==>
              HasEdge(BuildSpec(sg), sg[i].placement.layout[k].element, sg[i].id)
    ensures forall i, k :: 0 <= i < |sg| && 0 <= k < |sg[i].placement.objects| ==>
              HasEdge(BuildSpec(sg), sg[i].placement.objects[k].target, sg[i].id)
    decreases |sg|
  {
    if |sg| > 0 {
      var prefix := sg[..|sg| - 1];
      var o := sg[|sg| - 1];
      BuildGraphComplete(prefix);
      var g0 := BuildSpec(prefix);
      var gn := AddNode(g0, o.id);
      var g1 := AddLayoutEdges(gn, o.id, o.placement.layout);
      LayoutEdgesKeep(gn, o.id, o.placement.layout);
      ObjectEdgesKeep(g1, o.id, o.placement.objects);
      assert forall u, w :: HasEdge(g0, u, w) ==> HasEdge(gn, u, w);
      forall i | 0 <= i < |sg| ensures sg[i].id in BuildSpec(sg).nodes {
        if i < |sg| - 1 { assert sg[i] == prefix[i]; }
      }
      forall i, k | 0 <= i < |sg| && 0 <= k < |sg[i].placement.layout|
        ensures HasEdge(BuildSpec(sg), sg[i].placement.layout[k].element, sg[i].id)
      {
        if i < |sg| - 1 { assert sg[i] == prefix[i]; }
      }
      forall i, k | 0 <= i < |sg| && 0 <= k < |sg[i].placement.objects|
        ensures HasEdge(BuildSpec(sg), sg[i].placement.objects[k].target, sg[i].id)
      {
        if i < |sg| - 1 { assert sg[i] == prefix[i]; }
      }
    }
  }

  lemma {:induction false} BuildGraphWellFormed(sg: seq<SceneObject>)
    ensures WellFormed(BuildSpec(sg))
    decreases |sg|
  {
    if |sg| > 0 {
      BuildGraphWellFormed(sg[..|sg| - 1]);
      var o := sg[|sg| - 1];
      LayoutWellFormed(AddNode(BuildSpec(sg[..|sg| - 1]), o.id), o.id, o.placement.layout);
      ObjectWellFormed(AddLayoutEdges(AddNode(BuildSpec(sg[..|sg| - 1]), o.id), o.id, o.placement.layout),
                       o.id, o.placement.objects);
    }
  }

  lemma {:induction false} LayoutWellFormed(g: Digraph, v: string, ls: seq<LayoutEdge>)
    requires WellFormed(g)
    ensures WellFormed(AddLayoutEdges(g, v, ls))
    decreases |ls|
  {
    if |ls| > 0 { LayoutWellFormed(g, v, ls[..|ls| - 1]); }
  }

  lemma {:induction false} ObjectWellFormed(g: Digraph, v: string, os: seq<ObjectEdge>)
    requires WellFormed(g)
    ensures WellFormed(AddObjectEdges(g, v, os))
    decreases |os|
  {
    if |os| > 0 { ObjectWellFormed(g, v, os[..|os| - 1]); }
  }
}
