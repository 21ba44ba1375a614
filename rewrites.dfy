/**
 * The two graph rewrites of utils.py that run before the conflict checks:
 * `remove_unnecessary_edges` and `handle_under_prepositions`.
 */
module Rewrites {
  import opened Wrappers
  import opened Geometry
  import opened Scene
  import opened Graph

  // ---------------------------------------------------------------- remove_unnecessary_edges

  /** `any(G[p][n]["weight"]["preposition"] == "in the corner" for p in ps)`. */
  predicate AnyCorner(g: Digraph, n: string, ps: seq<string>) {
    exists k :: 0 <= k < |ps| && WeightOf(g, ps[k], n).Some? && WeightOf(g, ps[k], n).value.prep == InCorner
  }

  /** The test of `remove_unnecessary_edges` for node `n`: an object with a corner edge and more than two parents. */
  predicate PruneCondition(g: Digraph, n: string) {
    !IsLayoutId(n) && AnyCorner(g, n, Preds(g, n)) && |Preds(g, n)| > 2
  }

  /** The inner loop: drop the non-corner edges from the listed parents into `n`. */
  function PruneParents(g: Digraph, n: string, ps: seq<string>): Digraph
    decreases |ps|
  {
    if |ps| == 0 then g
    else
      var g' := PruneParents(g, n, ps[..|ps| - 1]);
      var p := ps[|ps| - 1];
      if WeightOf(g', p, n).Some? && WeightOf(g', p, n).value.prep != InCorner then RemoveEdge(g', p, n) else g'
  }

  function PruneNode(g: Digraph, n: string): Digraph {
    if PruneCondition(g, n) then PruneParents(g, n, Preds(g, n)) else g
  }

  /** `remove_unnecessary_edges` as a fold over the topological order. */
  function RemoveUnnecessarySpec(g: Digraph, order: seq<string>): Digraph
    decreases |order|
  {
    if |order| == 0 then g else PruneNode(RemoveUnnecessarySpec(g, order[..|order| - 1]), order[|order| - 1])
  }

  /** `remove_unnecessary_edges`. */
  method RemoveUnnecessaryEdges(g0: Digraph, order: seq<string>) returns (g: Digraph)
    requires IsTopoOrder(g0, order)
    ensures g == RemoveUnnecessarySpec(g0, order)
  {
    g := g0;
    var i := 0;
    while i < |order|
      invariant 0 <= i <= |order|
      invariant g == RemoveUnnecessarySpec(g0, order[..i])
    {
      var node := order[i];
      assert order[..i + 1][..i] == order[..i];
      if !IsLayoutId(node) {
        var parents := Preds(g, node);
        if AnyCorner(g, node, parents) && |parents| > 2 {
          g := PruneLoop(g, node, parents);
        }
      }
      i := i + 1;
    }
    assert order[..i] == order;
  }

  /** The inner loop of `remove_unnecessary_edges`, over the parents of one node. */
  method PruneLoop(g0: Digraph, node: string, parents: seq<string>) returns (g: Digraph)
    ensures g == PruneParents(g0, node, parents)
  {
    g := g0;
    var k := 0;
    while k < |parents|
      invariant 0 <= k <= |parents|
      invariant g == PruneParents(g0, node, parents[..k])
    {
      assert parents[..k + 1][..k] == parents[..k];
      var p := parents[k];
      var w := WeightOf(g, p, node);
      if w.Some? && w.value.prep != InCorner {
        g := RemoveEdge(g, p, node);
      }
      k := k + 1;
    }
    assert parents[..k] == parents;
  }

  /** Dropping an edge into `n` leaves the parents of every other node, and their weights, as they were. */
  lemma {:induction false} WithoutPairKeepsOthers(es: seq<Edge>, u: string, n: string, m: string)
    requires n != m
    ensures PredsIn(WithoutPair(es, u, n), m) == PredsIn(es, m)
    ensures forall p :: WeightIn(WithoutPair(es, u, n), p, m) == WeightIn(es, p, m)
    decreases |es|
  {
    if |es| > 0 {
      WithoutPairKeepsOthers(es[1..], u, n, m);
    }
  }

  lemma {:induction false} PruneParentsKeepsOthers(g: Digraph, n: string, ps: seq<string>, m: string)
    requires n != m
    ensures Preds(PruneParents(g, n, ps), m) == Preds(g, m)
    ensures forall p :: WeightOf(PruneParents(g, n, ps), p, m) == WeightOf(g, p, m)
    decreases |ps|
  {
    if |ps| > 0 {
      var g' := PruneParents(g, n, ps[..|ps| - 1]);
      PruneParentsKeepsOthers(g, n, ps[..|ps| - 1], m);
      WithoutPairKeepsOthers(g'.edges, ps[|ps| - 1], n, m);
    }
  }

  lemma {:induction false} RemoveUnnecessaryKeepsOthers(g: Digraph, order: seq<string>, m: string)
    requires m !in order
    ensures Preds(RemoveUnnecessarySpec(g, order), m) == Preds(g, m)
    ensures forall p :: WeightOf(RemoveUnnecessarySpec(g, order), p, m) == WeightOf(g, p, m)
    decreases |order|
  {
    if |order| > 0 {
      var pre := order[..|order| - 1];
      assert m !in pre;
      RemoveUnnecessaryKeepsOthers(g, pre, m);
      var g' := RemoveUnnecessarySpec(g, pre);
      if PruneCondition(g', order[|order| - 1]) {
        PruneParentsKeepsOthers(g', order[|order| - 1], Preds(g', order[|order| - 1]), m);
      }
    }
  }

  lemma {:induction false} PruneParentsEffect(g: Digraph, n: string, ps: seq<string>)
    requires WellFormed(g)
    ensures WellFormed(PruneParents(g, n, ps)) && PruneParents(g, n, ps).nodes == g.nodes
    ensures forall e :: e in PruneParents(g, n, ps).edges <==>
              e in g.edges && !(e.dst == n && e.src in ps && e.w.prep != InCorner)
    decreases |ps|
  {
    if |ps| > 0 {
      var pre := ps[..|ps| - 1];
      var p := ps[|ps| - 1];
      PruneParentsEffect(g, n, pre);
      var g' := PruneParents(g, n, pre);
      forall e | e in g'.edges && e.src == p && e.dst == n ensures WeightOf(g', p, n) == Some(e.w) {
        WeightOfEdge(g', e);
      }
      forall e ensures e in PruneParents(g, n, ps).edges <==>
                       e in g.edges && !(e.dst == n && e.src in ps && e.w.prep != InCorner)
      {
        assert e.src in ps <==> e.src in pre || e.src == p;
      }
    }
  }

  /**
   * `remove_unnecessary_edges` removes exactly the non-corner edges into the nodes that, in the
   * original graph, have a corner edge and more than two parents; all nodes and every other
   * edge stay.
   */
  lemma {:induction false} RemoveUnnecessaryEffect(g: Digraph, order: seq<string>)
    requires WellFormed(g) && DistinctStrings(order)
    ensures var r := RemoveUnnecessarySpec(g, order);
            WellFormed(r) && r.nodes == g.nodes &&
            forall e :: e in r.edges <==>
              e in g.edges && !(e.dst in order && PruneCondition(g, e.dst) && e.w.prep != InCorner)
    decreases |order|
  {
    if |order| > 0 {
      var pre := order[..|order| - 1];
      var n := order[|order| - 1];
      assert DistinctStrings(pre);
      assert n !in pre;
      RemoveUnnecessaryEffect(g, pre);
      var g' := RemoveUnnecessarySpec(g, pre);
      RemoveUnnecessaryKeepsOthers(g, pre, n);
      assert Preds(g', n) == Preds(g, n);
      assert PruneCondition(g', n) == PruneCondition(g, n) by {
        assert forall k :: 0 <= k < |Preds(g, n)| ==> WeightOf(g', Preds(g, n)[k], n) == WeightOf(g, Preds(g, n)[k], n);
      }
      if PruneCondition(g', n) {
        PruneParentsEffect(g', n, Preds(g', n));
        forall e | e in g'.edges && e.dst == n ensures e.src in Preds(g', n) {
          assert HasEdge(g', e.src, n);
        }
      }
      forall e ensures e in RemoveUnnecessarySpec(g, order).edges <==>
                       e in g.edges && !(e.dst in order && PruneCondition(g, e.dst) && e.w.prep != InCorner)
      {
        assert e.dst in order <==> e.dst in pre || e.dst == n;
      }
    }
  }

  /** Corner edges are never removed, and a pruned node keeps only corner edges. */
  lemma RemoveUnnecessaryKeepsCorners(g: Digraph, order: seq<string>)
    requires WellFormed(g) && IsTopoOrder(g, order)
    ensures var r := RemoveUnnecessarySpec(g, order);
            (forall e :: e in g.edges && e.w.prep == InCorner ==> e in r.edges) &&
            (forall e :: e in r.edges && PruneCondition(g, e.dst) ==> e.w.prep == InCorner) &&
            (forall e :: e in g.edges && !PruneCondition(g, e.dst) ==> e in r.edges)
  {
    RemoveUnnecessaryEffect(g, order);
    forall e | e in RemoveUnnecessarySpec(g, order).edges ensures e.dst in order {
      assert e in g.edges;
    }
  }

  // ---------------------------------------------------------------- handle_under_prepositions

  /** Node `n` has an incoming "under" edge. */
  predicate UnderInto(g: Digraph, n: string) {
    exists e :: e in g.edges && e.dst == n && e.w.prep == Under
  }

  /** The first loop of `handle_under_prepositions`: the nodes to remove, with repetitions. */
  function ToRemove(g: Digraph, sg: seq<SceneObject>, nodes: seq<string>): Result<seq<string>, SceneError>
    decreases |nodes|
  {
    if |nodes| == 0 then Ok([])
    else
      match ToRemove(g, sg, nodes[..|nodes| - 1])
      case Err(e) => Err(e)
      case Ok(acc) =>
        var n := nodes[|nodes| - 1];
        if !UnderInto(g, n) then Ok(acc)
        else match Find(n, sg)
          case None => Err(MissingObject(n))
          case Some(o) => if IsThin(o.size) then Ok(acc) else Ok(acc + [n] + Succs(g, n))
  }

  function WithoutId(sg: seq<SceneObject>, id: string): (r: seq<SceneObject>)
    ensures forall o :: o in r <==> o in sg && o.id != id
  {
    if |sg| == 0 then [] else (if sg[0].id == id then [] else [sg[0]]) + WithoutId(sg[1..], id)
  }

  /** The second loop: drop each node from the scene graph and from the graph. */
  function RemoveAll(g: Digraph, sg: seq<SceneObject>, ns: seq<string>): (Digraph, seq<SceneObject>)
    decreases |ns|
  {
    if |ns| == 0 then (g, sg)
    else
      var (g', sg') := RemoveAll(g, sg, ns[..|ns| - 1]);
      var n := ns[|ns| - 1];
      (if n in g'.nodes then RemoveNode(g', n) else g', WithoutId(sg', n))
  }

  function HandleUnderSpec(g: Digraph, sg: seq<SceneObject>): Result<(Digraph, seq<SceneObject>), SceneError> {
    var ns :- ToRemove(g, sg, g.nodes);
    Ok(RemoveAll(g, sg, ns))
  }

  /** `handle_under_prepositions`. */
  method HandleUnderPrepositions(g0: Digraph, sg0: seq<SceneObject>) returns (r: Result<(Digraph, seq<SceneObject>), SceneError>)
    ensures r == HandleUnderSpec(g0, sg0)
  {
    var nodes := g0.nodes;
    var toRemove: seq<string> := [];
    var i := 0;
    while i < |nodes|
      invariant 0 <= i <= |nodes|
      invariant ToRemove(g0, sg0, nodes[..i]) == Ok(toRemove)
    {
      var node := nodes[i];
      assert nodes[..i + 1][..i] == nodes[..i];
      if UnderInto(g0, node) {
        var obj := Find(node, sg0);
        if obj.None? {
          ToRemoveErrStays(g0, sg0, nodes, i + 1);
          return Err(MissingObject(node));
        }
        if !IsThin(obj.value.size) {
          toRemove := toRemove + [node] + Succs(g0, node);
        }
      }
      i := i + 1;
    }
    assert nodes[..i] == nodes;
    var g, sg := g0, sg0;
    var j := 0;
    while j < |toRemove|
      invariant 0 <= j <= |toRemove|
      invariant RemoveAll(g0, sg0, toRemove[..j]) == (g, sg)
    {
      var n := toRemove[j];
      assert toRemove[..j + 1][..j] == toRemove[..j];
      sg := WithoutId(sg, n);
      if n in g.nodes {
        g := RemoveNode(g, n);
      }
      j := j + 1;
    }
    assert toRemove[..j] == toRemove;
    r := Ok((g, sg));
  }

  /** A failure on a prefix of the nodes is the failure of the whole loop. */
  lemma {:induction false} ToRemoveErrStays(g: Digraph, sg: seq<SceneObject>, nodes: seq<string>, i: nat)
    requires i <= |nodes| && ToRemove(g, sg, nodes[..i]).Err?
    ensures ToRemove(g, sg, nodes) == ToRemove(g, sg, nodes[..i])
    decreases |nodes| - i
  {
    if i < |nodes| {
      assert nodes[..|nodes| - 1][..i] == nodes[..i];
      ToRemoveErrStays(g, sg, nodes[..|nodes| - 1], i);
    } else {
      assert nodes[..i] == nodes;
    }
  }

  /** A node is doomed when it has an "under" edge and is not thin, or is a direct child of such a node. */
  predicate DoomedRoot(g: Digraph, sg: seq<SceneObject>, m: string) {
    UnderInto(g, m) && Find(m, sg).Some? && !IsThin(Find(m, sg).value.size)
  }

  predicate Doomed(g: Digraph, sg: seq<SceneObject>, nodes: seq<string>, n: string) {
    exists k :: 0 <= k < |nodes| && DoomedRoot(g, sg, nodes[k]) && (n == nodes[k] || HasEdge(g, nodes[k], n))
  }

  lemma {:induction false} ToRemoveMembers(g: Digraph, sg: seq<SceneObject>, nodes: seq<string>)
    ensures ToRemove(g, sg, nodes).Err? <==> exists k :: 0 <= k < |nodes| && UnderInto(g, nodes[k]) && Find(nodes[k], sg).None?
    ensures ToRemove(g, sg, nodes).Ok? ==> forall n :: n in ToRemove(g, sg, nodes).value <==> Doomed(g, sg, nodes, n)
    decreases |nodes|
  {
    if |nodes| > 0 {
      var pre := nodes[..|nodes| - 1];
      var m := nodes[|nodes| - 1];
      ToRemoveMembers(g, sg, pre);
      assert forall k :: 0 <= k < |pre| ==> pre[k] == nodes[k];
      if ToRemove(g, sg, nodes).Ok? {
        var acc := ToRemove(g, sg, pre).value;
        forall n ensures n in ToRemove(g, sg, nodes).value <==> Doomed(g, sg, nodes, n) {
          if Doomed(g, sg, nodes, n) {
            var k :| 0 <= k < |nodes| && DoomedRoot(g, sg, nodes[k]) && (n == nodes[k] || HasEdge(g, nodes[k], n));
            if k == |nodes| - 1 {
              assert n == m || n in Succs(g, m);
            } else {
              assert Doomed(g, sg, pre, n);
            }
          }
          if n in ToRemove(g, sg, nodes).value && n !in acc {
            assert n == m || n in Succs(g, m);
            assert DoomedRoot(g, sg, nodes[|nodes| - 1]);
          }
          if n in acc {
            var k :| 0 <= k < |pre| && DoomedRoot(g, sg, pre[k]) && (n == pre[k] || HasEdge(g, pre[k], n));
            assert nodes[k] == pre[k];
          }
        }
      }
    }
  }

  lemma {:induction false} RemoveAllEffect(g: Digraph, sg: seq<SceneObject>, ns: seq<string>)
    requires WellFormed(g)
    ensures var (g', sg') := RemoveAll(g, sg, ns);
            (forall m :: m in g'.nodes <==> m in g.nodes && m !in ns) &&
            (forall e :: e in g'.edges <==> e in g.edges && e.src !in ns && e.dst !in ns) &&
            (forall o :: o in sg' <==> o in sg && o.id !in ns) &&
            WellFormed(g')
    decreases |ns|
  {
    if |ns| > 0 {
      var pre := ns[..|ns| - 1];
      RemoveAllEffect(g, sg, pre);
      var (g', sg') := RemoveAll(g, sg, pre);
      assert forall e :: e in g'.edges ==> e.src in g'.nodes && e.dst in g'.nodes;
      forall x ensures x in ns <==> x in pre || x == ns[|ns| - 1] {
        if x in ns { var k :| 0 <= k < |ns| && ns[k] == x; if k < |ns| - 1 { assert pre[k] == x; } }
      }
    }
  }

  /**
   * `handle_under_prepositions` fails exactly when some node with an "under" edge has no entry;
   * otherwise it removes exactly the doomed nodes (non-thin objects under something, and their
   * direct children) from the graph, with their edges, and from the scene graph.
   */
  lemma HandleUnderEffect(g: Digraph, sg: seq<SceneObject>)
    requires WellFormed(g)
    ensures HandleUnderSpec(g, sg).Err? <==> exists k :: 0 <= k < |g.nodes| && UnderInto(g, g.nodes[k]) && Find(g.nodes[k], sg).None?
    ensures HandleUnderSpec(g, sg).Ok? ==>
              var (g', sg') := HandleUnderSpec(g, sg).value;
              (forall m :: m in g'.nodes <==> m in g.nodes && !Doomed(g, sg, g.nodes, m)) &&
              (forall e :: e in g'.edges <==> e in g.edges && !Doomed(g, sg, g.nodes, e.src) && !Doomed(g, sg, g.nodes, e.dst)) &&
              (forall o :: o in sg' <==> o in sg && !Doomed(g, sg, g.nodes, o.id)) &&
              WellFormed(g')
  {
    ToRemoveMembers(g, sg, g.nodes);
    if ToRemove(g, sg, g.nodes).Ok? {
      RemoveAllEffect(g, sg, ToRemove(g, sg, g.nodes).value);
    }
  }
}
