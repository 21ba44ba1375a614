/**
 * `get_depth` of utils.py: a depth-first search from the room layout elements over the
 * scene graph, writing a depth for every node it reaches. A node's depth is written when it
 * is first visited; meeting it again along another edge lowers the stored depth to the
 * depth of that edge's target when that is smaller, and nothing is propagated further.
 */
module Depth {
  import opened Wrappers
  import opened Geometry
  import opened Constraints
  import opened Scene
  import opened Graph

  /** `start_nodes`: the graph's layout element nodes, in node order. */
  function StartNodes(nodes: seq<string>): (r: seq<string>)
    ensures forall n :: n in r <==> n in nodes && IsLayoutId(n)
    decreases |nodes|
  {
    if |nodes| == 0 then []
    else StartNodes(nodes[..|nodes| - 1]) + (if IsLayoutId(nodes[|nodes| - 1]) then [nodes[|nodes| - 1]] else [])
  }

  /** `G.successors(n)` for every node `n`. */
  function Adjacency(g: Digraph): map<string, seq<string>> {
    map n | n in g.nodes :: Succs(g, n)
  }

  /** Every successor listed is itself a node with a successor list. */
  predicate Closed(adj: map<string, seq<string>>) {
    forall u, v :: u in adj && v in adj[u] ==> v in adj
  }

  lemma AdjacencyEdges(g: Digraph)
    requires WellFormed(g)
    ensures Closed(Adjacency(g))
    ensures forall u :: u in Adjacency(g) <==> u in g.nodes
    ensures forall u, v :: HasEdge(g, u, v) ==> u in Adjacency(g) && v in Adjacency(g)[u]
    ensures forall u, v :: u in Adjacency(g) && v in Adjacency(g)[u] ==> HasEdge(g, u, v)
  {
    var adj := Adjacency(g);
    forall u, v | HasEdge(g, u, v) ensures u in adj && v in adj[u] {
      var e :| e in g.edges && e.src == u && e.dst == v;
    }
    forall u, v | u in adj && v in adj[u] ensures v in adj {
      var e :| e in g.edges && e.src == u && e.dst == v;
    }
  }

  lemma {:induction false} SubsetCard<T>(a: set<T>, b: set<T>)
    requires a <= b
    ensures |a| <= |b|
    decreases |b|
  {
    if a != {} {
      var x :| x in a;
      SubsetCard(a - {x}, b - {x});
    }
  }

  lemma AddCard<T>(a: set<T>, x: T)
    ensures |a + {x}| == if x in a then |a| else |a| + 1
  {
    if x in a {
      assert a + {x} == a;
    }
  }

  /** Every node of `xs` has a depth of at most `b`. */
  predicate AtMost(depth: map<string, int>, xs: set<string>, b: int) {
    forall x :: x in xs ==> x in depth && depth[x] <= b
  }

  /** Depths that only went down keep every bound they met. */
  lemma StaysAtMost(before: map<string, int>, after: map<string, int>, xs: set<string>, b: int)
    requires forall v :: v in before ==> v in after && after[v] <= before[v]
    requires AtMost(before, xs, b)
    ensures AtMost(after, xs, b)
  {
  }

  /** The two variables the nested `dfs` of `get_depth` updates: `visited` and `all_nodes_depth`. */
  datatype Search = Search(visited: set<string>, depth: map<string, int>)

  /**
   * Only nodes are visited, exactly the visited nodes have a depth, depths are never
   * negative, and every node other than a layout element is at depth 1 or more.
   */
  ghost predicate Valid(succ: map<string, seq<string>>, st: Search) {
    Closed(succ) && st.visited <= succ.Keys && st.depth.Keys == st.visited &&
    (forall v :: v in st.depth ==> st.depth[v] >= 0) &&
    (forall v :: v in st.depth && !IsLayoutId(v) ==> st.depth[v] >= 1)
  }

  /** Every visited node outside `open` (the nodes still on the search stack) has all its successors visited. */
  ghost predicate ClosedExcept(succ: map<string, seq<string>>, st: Search, open: set<string>) {
    forall v, s :: v in st.visited && v in succ && v !in open && s in succ[v] ==> s in st.visited
  }

  /** Every visited node other than a layout element was reached along an edge from a visited node. */
  ghost predicate Justified(succ: map<string, seq<string>>, st: Search) {
    forall v :: v in st.visited && !IsLayoutId(v) ==> exists u :: u in st.visited && u in succ && v in succ[u]
  }

  /** The depths of `after` are those of `before` or lower, and nothing was forgotten. */
  ghost predicate Lowered(before: Search, after: Search) {
    before.visited <= after.visited &&
    forall v :: v in before.depth ==> v in after.depth && after.depth[v] <= before.depth[v]
  }

  ghost predicate Invariant(succ: map<string, seq<string>>, st: Search, open: set<string>) {
    Valid(succ, st) && ClosedExcept(succ, st, open) && Justified(succ, st) && open <= st.visited
  }

  /** `dfs(node, depth)`, on the state `st` of the search. */
  method Dfs(succ: map<string, seq<string>>, node: string, d: int, st: Search, ghost open: set<string>)
    returns (r: Search)
    requires Invariant(succ, st, open) && node in succ && node !in open
    requires d >= 0 && (d >= 1 || IsLayoutId(node))
    requires !IsLayoutId(node) ==> exists u :: u in st.visited && u in succ && node in succ[u]
    requires node in st.depth ==> d <= st.depth[node]
    ensures Invariant(succ, r, open) && Lowered(st, r)
    ensures node in r.visited && r.depth[node] <= d
    ensures forall s :: s in succ[node] ==> s in r.depth && r.depth[s] <= d + 1
    decreases |succ.Keys| - |st.visited|, if node in st.visited then 1 else 0, 3
  {
    SubsetCard(st.visited, succ.Keys);
    AddCard(st.visited, node);
    var entry := Search(st.visited + {node}, st.depth[node := d]);
    Entered(succ, node, d, st, open);
    ghost var done;
    r, done := VisitAll(succ, node, d, entry, open);
    Finished(succ, node, d, st, entry, r, done, open);
  }

  /** The loop of `dfs(node, d)` over the successors of `node`. */
  method VisitAll(succ: map<string, seq<string>>, node: string, d: int, entry: Search, ghost open: set<string>)
    returns (r: Search, ghost done: set<string>)
    requires InLoop(succ, node, d, 0, entry, entry, {}, open)
    ensures InLoop(succ, node, d, |succ[node]|, entry, r, done, open)
    decreases |succ.Keys| - |entry.visited|, 1, 2
  {
    r := entry;
    done := {};
    var succs := succ[node];
    for i := 0 to |succs|
      invariant InLoop(succ, node, d, i, entry, r, done, open)
    {
      r, done := Step(succ, node, d, succs, i, entry, r, done, open);
    }
  }

  /** Marking `node` visited at depth `d` starts the loop of `dfs(node, d)` in a sound state. */
  lemma Entered(succ: map<string, seq<string>>, node: string, d: int, st: Search, open: set<string>)
    requires Invariant(succ, st, open) && node in succ && node !in open
    requires d >= 0 && (d >= 1 || IsLayoutId(node))
    requires !IsLayoutId(node) ==> exists u :: u in st.visited && u in succ && node in succ[u]
    requires node in st.depth ==> d <= st.depth[node]
    ensures InLoop(succ, node, d, 0, Search(st.visited + {node}, st.depth[node := d]),
                   Search(st.visited + {node}, st.depth[node := d]), {}, open)
  {
  }

  /** Once every successor of `node` has been seen, `node` is closed and the search is as `dfs` promises. */
  lemma Finished(succ: map<string, seq<string>>, node: string, d: int, st: Search, entry: Search,
                 r: Search, done: set<string>, open: set<string>)
    requires Invariant(succ, st, open) && node in succ && node !in open
    requires node in st.depth ==> d <= st.depth[node]
    requires entry == Search(st.visited + {node}, st.depth[node := d])
    requires InLoop(succ, node, d, |succ[node]|, entry, r, done, open)
    ensures Invariant(succ, r, open) && Lowered(st, r)
    ensures node in r.visited && r.depth[node] <= d
    ensures forall s :: s in succ[node] ==> s in r.depth && r.depth[s] <= d + 1
  {
    forall s | s in succ[node] ensures s in done {
      var j :| 0 <= j < |succ[node]| && succ[node][j] == s;
    }
    assert ClosedExcept(succ, r, open);
    assert Lowered(st, r);
  }

  /**
   * What the loop of `dfs(node, d)` keeps after its first `i` successors: the search started
   * from `entry` is as sound as ever, `node` is still open, and each of those successors is in
   * `done` and at depth `d + 1` or less.
   */
  ghost predicate InLoop(succ: map<string, seq<string>>, node: string, d: int, i: int,
                         entry: Search, st: Search, done: set<string>, open: set<string>) {
    node in entry.visited && node !in open && node in succ && d >= 0 && 0 <= i <= |succ[node]| &&
    Invariant(succ, st, open + {node}) && Lowered(entry, st) &&
    (forall j :: 0 <= j < i ==> succ[node][j] in done) &&
    AtMost(st.depth, done, d + 1)
  }

  /** One iteration of the loop of `dfs(node, d)`: the `i`-th successor. */
  method Step(succ: map<string, seq<string>>, node: string, d: int, succs: seq<string>, i: int,
              entry: Search, st: Search, ghost done: set<string>, ghost open: set<string>)
    returns (r: Search, ghost done': set<string>)
    requires InLoop(succ, node, d, i, entry, st, done, open) && succs == succ[node] && i < |succs|
    ensures InLoop(succ, node, d, i + 1, entry, r, done', open)
    decreases |succ.Keys| - |entry.visited|, 1, 1
  {
    SubsetCard(entry.visited, st.visited);
    SubsetCard(st.visited, succ.Keys);
    r := Visit(succ, node, d, succs[i], st, open);
    StaysAtMost(st.depth, r.depth, done, d + 1);
    done' := done + {succs[i]};
  }

  /** One successor `s` of `node` in the loop of `dfs(node, d)`. */
  method Visit(succ: map<string, seq<string>>, node: string, d: int, s: string, st: Search, ghost open: set<string>)
    returns (r: Search)
    requires Invariant(succ, st, open + {node}) && node in st.visited && node in succ && node !in open
    requires d >= 0 && s in succ[node]
    ensures Invariant(succ, r, open + {node}) && Lowered(st, r)
    ensures s in r.depth && r.depth[s] <= d + 1
    decreases |succ.Keys| - |st.visited|, 1, 0
  {
    if s !in st.visited {
      r := Dfs(succ, s, d + 1, st, open + {node});
    } else if st.depth[s] < d + 1 {
      // already at a smaller depth
      r := st;
    } else {
      r := st.(depth := st.depth[s := d + 1]);
    }
  }

  /** The loop of `get_depth` over the start nodes, each searched from at depth 0. */
  method SearchAll(succ: map<string, seq<string>>, starts: seq<string>) returns (st: Search)
    requires Closed(succ)
    requires forall x :: x in starts ==> x in succ && IsLayoutId(x)
    ensures Invariant(succ, st, {})
    ensures forall x :: x in starts ==> x in st.visited
    ensures forall u, v :: u in starts && v in succ[u] ==> v in st.depth && st.depth[v] <= 1
  {
    st := Search({}, map[]);
    ghost var near: set<string> := {};
    for i := 0 to |starts|
      invariant Invariant(succ, st, {})
      invariant forall j :: 0 <= j < i ==> starts[j] in st.visited
      invariant forall j, v :: 0 <= j < i && v in succ[starts[j]] ==> v in near
      invariant AtMost(st.depth, near, 1)
    {
      st, near := SearchStart(succ, starts, i, st, near);
    }
  }

  /** One iteration of that loop: `dfs(start, 0)` for the `i`-th start node. */
  method SearchStart(succ: map<string, seq<string>>, starts: seq<string>, i: int, st: Search, ghost near: set<string>)
    returns (r: Search, ghost near': set<string>)
    requires forall x :: x in starts ==> x in succ && IsLayoutId(x)
    requires 0 <= i < |starts|
    requires Invariant(succ, st, {})
    requires forall j :: 0 <= j < i ==> starts[j] in st.visited
    requires forall j, v :: 0 <= j < i && v in succ[starts[j]] ==> v in near
    requires AtMost(st.depth, near, 1)
    ensures Invariant(succ, r, {})
    ensures forall j :: 0 <= j < i + 1 ==> starts[j] in r.visited
    ensures forall j, v :: 0 <= j < i + 1 && v in succ[starts[j]] ==> v in near'
    ensures AtMost(r.depth, near', 1)
  {
    r := Dfs(succ, starts[i], 0, st, {});
    StaysAtMost(st.depth, r.depth, near, 1);
    near' := near + set v | v in succ[starts[i]];
  }

  /** The nodes a finished search reached, layout elements dropped, with their depths. */
  function Reached(st: Search): (r: map<string, int>)
    ensures forall k :: k in r <==> k in st.depth && !IsLayoutId(k)
    ensures forall k :: k in r ==> r[k] == st.depth[k]
  {
    map k | k in st.depth && !IsLayoutId(k) :: st.depth[k]
  }

  /** What a finished search says about the graph it ran on. */
  lemma ReachedMeaning(g: Digraph, st: Search)
    requires WellFormed(g)
    requires Invariant(Adjacency(g), st, {})
    requires forall x :: x in StartNodes(g.nodes) ==> x in st.visited
    requires forall u, v :: u in StartNodes(g.nodes) && v in Adjacency(g)[u] ==> v in st.depth && st.depth[v] <= 1
    ensures forall k :: k in Reached(st) ==> k in g.nodes && !IsLayoutId(k) && Reached(st)[k] >= 1
    ensures forall u, v :: HasEdge(g, u, v) && !IsLayoutId(v) && (u in Reached(st) || IsLayoutId(u)) ==> v in Reached(st)
    ensures forall v :: v in Reached(st) ==> exists u :: HasEdge(g, u, v) && (u in Reached(st) || IsLayoutId(u))
    ensures forall u, v :: IsLayoutId(u) && HasEdge(g, u, v) && !IsLayoutId(v) ==> v in Reached(st) && Reached(st)[v] == 1
  {
    AdjacencyEdges(g);
    var adj := Adjacency(g);
    var r := Reached(st);
    forall u, v | HasEdge(g, u, v) && !IsLayoutId(v) && (u in r || IsLayoutId(u)) ensures v in r {
      assert u in st.visited;
    }
    forall v | v in r ensures exists u :: HasEdge(g, u, v) && (u in r || IsLayoutId(u)) {
      var u :| u in st.visited && u in adj && v in adj[u];
      assert HasEdge(g, u, v);
    }
  }

  /**
   * `get_depth`: the depths of every node reached from a layout element, layout elements
   * removed. Every depth is at least 1; every object hanging directly off a layout element
   * is at depth exactly 1; the nodes reached are closed under successors and each was reached
   * along an edge from a layout element or another node reached.
   */
  method GetDepth(sg: seq<SceneObject>) returns (r: map<string, int>)
    ensures forall k :: k in r ==> k in BuildSpec(sg).nodes && !IsLayoutId(k) && r[k] >= 1
    ensures forall u, v :: HasEdge(BuildSpec(sg), u, v) && !IsLayoutId(v) && (u in r || IsLayoutId(u)) ==> v in r
    ensures forall v :: v in r ==> exists u :: HasEdge(BuildSpec(sg), u, v) && (u in r || IsLayoutId(u))
    ensures forall u, v :: IsLayoutId(u) && HasEdge(BuildSpec(sg), u, v) && !IsLayoutId(v) ==> v in r && r[v] == 1
  {
    var g := BuildGraph(sg);
    BuildGraphWellFormed(sg);
    AdjacencyEdges(g);
    var st := SearchAll(Adjacency(g), StartNodes(g.nodes));
    ReachedMeaning(g, st);
    r := Reached(st);
  }
}
