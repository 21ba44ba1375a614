/**
 * The checks of utils.py that turn directions by rotations:
 * `check_wall_relationship_impossibilities` and `check_corner_relationship_impossibilities`,
 * with the direction arithmetic they share.
 */
module Relations {
  import opened Wrappers
  import opened Geometry
  import opened Constraints
  import opened Scene
  import opened Graph
  import opened Conflicts

  // ---------------------------------------------------------------- directions

  /** The members of `directional_preps`. */
  predicate IsDirectional(p: Prep) {
    p == InFront || p == LeftOf || p == Behind || p == RightOf
  }

  /** `directional_preps`: the directions in quarter-turn order. */
  const Directions: seq<Prep> := [InFront, LeftOf, Behind, RightOf]

  /** `directional_preps[i]`. */
  function DirAt(i: nat): (p: Prep)
    requires i < 4
    ensures IsDirectional(p)
  {
    assert IsDirectional(Directions[i]) by {
      assert forall j :: 0 <= j < 4 ==> IsDirectional(Directions[j]);
    }
    Directions[i]
  }

  /** `directional_preps.index(p)`. */
  function DirIndex(p: Prep): (i: nat)
    requires IsDirectional(p)
    ensures i < 4 && DirAt(i) == p
  {
    if p == InFront then 0 else if p == LeftOf then 1 else if p == Behind then 2 else 3
  }

  /** `directional_preps[int((index + z_angle // 90) % 4)]`: a direction turned by a rotation. */
  function Turned(p: Prep, r: Rotation): (t: Prep)
    requires IsDirectional(p)
    ensures IsDirectional(t)
  {
    DirAt((DirIndex(p) + Quarter(r)) % 4)
  }

  /** `directional_preps[(index + 2) % 4]`: the opposite direction. */
  function Opposite(p: Prep): (t: Prep)
    requires IsDirectional(p)
    ensures IsDirectional(t)
  {
    DirAt((DirIndex(p) + 2) % 4)
  }

  /** `wall_impossible_preps`: the side of an unrotated object on the wall that lies outside the room. */
  function WallImpossible(w: string): (p: Prep)
    requires IsWall(w)
    ensures IsDirectional(p)
  {
    if w == SouthWall then Behind else if w == NorthWall then InFront else if w == WestWall then LeftOf else RightOf
  }

  lemma DirIndexOf(j: nat)
    requires j < 4
    ensures DirIndex(DirAt(j)) == j
  {
  }

  lemma Mod4(x: nat)
    requires x < 8
    ensures x % 4 == if x < 4 then x else x - 4
  {
  }

  /** An unrotated object keeps its directions, and turning is one-to-one. */
  lemma TurnedLaws(p: Prep, q: Prep, a: Rotation)
    requires IsDirectional(p) && IsDirectional(q)
    ensures Turned(p, R0) == p
    ensures Turned(p, a) == Turned(q, a) ==> p == q
  {
    var i, j, k := DirIndex(p), DirIndex(q), Quarter(a);
    assert Quarter(R0) == 0;
    Mod4(i);
    if Turned(p, a) == Turned(q, a) {
      DirAtInjective((i + k) % 4, (j + k) % 4);
      AddMod4Injective(i, j, k);
    }
  }

  lemma DirAtInjective(x: nat, y: nat)
    requires x < 4 && y < 4 && DirAt(x) == DirAt(y)
    ensures x == y
  {
    DirIndexOf(x);
    DirIndexOf(y);
  }

  lemma AddMod4Injective(i: nat, j: nat, k: nat)
    requires i < 4 && j < 4 && k < 4 && (i + k) % 4 == (j + k) % 4
    ensures i == j
  {
    Mod4(i + k);
    Mod4(j + k);
  }

  /** The opposite is the half turn, differs from the direction and undoes itself. */
  lemma OppositeLaws(p: Prep)
    requires IsDirectional(p)
    ensures Opposite(p) == Turned(p, R180) && Opposite(p) != p && Opposite(Opposite(p)) == p
  {
    HalfTurn();
    var i := DirIndex(p);
    var j := (i + 2) % 4;
    HalfTurnIndex(i);
    DirIndexOf(j);
    assert Opposite(p) == DirAt(j) == Turned(p, R180);
    if DirAt(j) == p {
      DirAtInjective(i, j);
    }
    assert Opposite(DirAt(j)) == DirAt((j + 2) % 4);
  }

  /** A half turn is two quarter turns. */
  lemma HalfTurn()
    ensures Quarter(R180) == 2
  {
  }

  /** Two half turns of an index come back to it, and one does not. */
  lemma HalfTurnIndex(i: nat)
    requires i < 4
    ensures (i + 2) % 4 != i && ((i + 2) % 4 + 2) % 4 == i
  {
    Mod4(i + 2);
    Mod4((i + 2) % 4 + 2);
  }

  /** The two walls of a corner rule out two different sides, whatever the rotation. */
  lemma CornerSidesDiffer(w1: string, w2: string, r: Rotation)
    requires IsWall(w1) && IsWall(w2) && w1 != w2
    ensures Turned(WallImpossible(w1), r) != Turned(WallImpossible(w2), r)
  {
    TurnedLaws(WallImpossible(w1), WallImpossible(w2), r);
  }

  // ---------------------------------------------------------------- shared helpers

  /** `list(filter(keep, s))`. */
  function FilterBy(s: seq<string>, keep: string -> bool): (r: seq<string>)
    ensures forall x :: x in r <==> x in s && keep(x)
  {
    if |s| == 0 then []
    else
      var rest := FilterBy(s[1..], keep);
      assert forall x :: x in s <==> x == s[0] || x in s[1..];
      (if keep(s[0]) then [s[0]] else []) + rest
  }

  /** An edge `u -> v` with the preposition `q`. */
  predicate EdgeIs(g: Digraph, u: string, v: string, q: Prep) {
    WeightOf(g, u, v).Some? && WeightOf(g, u, v).value.prep == q
  }

  /** The parents of `n` that are not room layout elements. */
  function ObjectParents(g: Digraph, n: string): seq<string> {
    FilterBy(Preds(g, n), x => !IsLayoutId(x))
  }

  /** `get_rotation(next((x for x in scene_graph if ...), None))`; a missing entry has no keys to read. */
  function RotationOfId(id: string, sg: seq<SceneObject>): Result<Rotation, SceneError> {
    match Find(id, sg)
    case None => Err(MissingObject(id))
    case Some(o) => GetRotation(o, sg, Fuel(sg))
  }

  /** `parents_rot`: the rotation of each parent, failing on the first that cannot be resolved. */
  function Rotations(ps: seq<string>, sg: seq<SceneObject>): (r: Result<seq<Rotation>, SceneError>)
    ensures r.Ok? <==> forall k :: 0 <= k < |ps| ==> RotationOfId(ps[k], sg).Ok?
    ensures r.Ok? ==> |r.value| == |ps| && forall k :: 0 <= k < |ps| ==> r.value[k] == RotationOfId(ps[k], sg).value
  {
    if |ps| == 0 then Ok([])
    else
      var first :- RotationOfId(ps[0], sg);
      var rest :- Rotations(ps[1..], sg);
      assert forall k :: 1 <= k < |ps| ==> ps[k] == ps[1..][k - 1];
      Ok([first] + rest)
  }

  /** Rotations fail exactly when some parent's rotation does. */
  lemma RotationsFail(ps: seq<string>, sg: seq<SceneObject>)
    ensures Rotations(ps, sg).Err? <==> exists p :: p in ps && RotationOfId(p, sg).Err?
  {
    if Rotations(ps, sg).Err? {
      var k :| 0 <= k < |ps| && RotationOfId(ps[k], sg).Err?;
      assert ps[k] in ps;
    }
  }

  /**
   * The outer loop every check shares: run `f` on each node of the topological order and
   * concatenate the reports, stopping at the first exception.
   */
  function ConcatScan<T>(f: string -> Result<seq<T>, SceneError>, order: seq<string>): Result<seq<T>, SceneError>
    decreases |order|
  {
    if |order| == 0 then Ok([])
    else
      match ConcatScan(f, order[..|order| - 1])
      case Err(e) => Err(e)
      case Ok(prev) =>
        match f(order[|order| - 1])
        case Err(e) => Err(e)
        case Ok(more) => Ok(prev + more)
  }

  /** The scan one entry further. */
  lemma ConcatScanNext<T>(f: string -> Result<seq<T>, SceneError>, order: seq<string>, i: nat)
    requires i < |order|
    ensures ConcatScan(f, order[..i + 1]) ==
            match ConcatScan(f, order[..i])
            case Err(e) => Err(e)
            case Ok(prev) => match f(order[i]) case Err(e) => Err(e) case Ok(more) => Ok(prev + more)
  {
    assert order[..i + 1][..i] == order[..i];
  }

  lemma {:induction false} ConcatScanErrStays<T>(f: string -> Result<seq<T>, SceneError>, order: seq<string>, i: nat)
    requires i <= |order| && ConcatScan(f, order[..i]).Err?
    ensures ConcatScan(f, order) == ConcatScan(f, order[..i])
    decreases |order| - i
  {
    if i < |order| {
      assert order[..|order| - 1][..i] == order[..i];
      ConcatScanErrStays(f, order[..|order| - 1], i);
    } else {
      assert order[..i] == order;
    }
  }

  lemma {:induction false} ConcatScanMembers<T>(f: string -> Result<seq<T>, SceneError>, order: seq<string>)
    ensures ConcatScan(f, order).Err? <==> exists k :: 0 <= k < |order| && f(order[k]).Err?
    ensures ConcatScan(f, order).Ok? ==>
            forall c :: c in ConcatScan(f, order).value <==> exists n :: n in order && f(n).Ok? && c in f(n).value
    decreases |order|
  {
    if |order| > 0 {
      var pre := order[..|order| - 1];
      ConcatScanMembers(f, pre);
      assert forall k :: 0 <= k < |pre| ==> pre[k] == order[k];
      assert forall n :: n in order <==> n in pre || n == order[|order| - 1];
    }
  }

  // ---------------------------------------------------------------- check_wall_relationship_impossibilities

  /** The walls that parent `p` is on. */
  function OnWalls(g: Digraph, p: string): (r: seq<string>)
    ensures forall w :: w in r ==> IsWall(w)
  {
    FilterBy(Preds(g, p), w => IsWall(w) && EdgeIs(g, w, p, On))
  }

  /** `c` reports that `node` is on the outer side of `p`, rotated by `r`, on one of the walls `ws`. */
  predicate WallHit(g: Digraph, node: string, p: string, r: Rotation, ws: seq<string>, c: Conflict) {
    c.WallOutOfBounds? && c.node == node && c.parent == p && c.wall in ws && IsWall(c.wall) &&
    c.prep == Turned(WallImpossible(c.wall), r) && EdgeIs(g, p, node, c.prep)
  }

  /** The loop over `walls` for parent `p` of `node`, rotated by `r`. */
  function WallHitsFor(g: Digraph, node: string, p: string, r: Rotation, ws: seq<string>): seq<Conflict>
    requires forall w :: w in ws ==> IsWall(w)
    decreases |ws|
  {
    if |ws| == 0 then []
    else
      var w := ws[|ws| - 1];
      var q := Turned(WallImpossible(w), r);
      WallHitsFor(g, node, p, r, ws[..|ws| - 1]) + if EdgeIs(g, p, node, q) then [WallOutOfBounds(node, p, w, q)] else []
  }

  /** The loop over `zip(parents, parents_rot)`. */
  function WallHitsNode(g: Digraph, node: string, ps: seq<string>, rs: seq<Rotation>): seq<Conflict>
    requires |ps| == |rs|
    decreases |ps|
  {
    if |ps| == 0 then []
    else
      var k := |ps| - 1;
      WallHitsNode(g, node, ps[..k], rs[..k]) + WallHitsFor(g, node, ps[k], rs[k], OnWalls(g, ps[k]))
  }

  function WallNode(g: Digraph, sg: seq<SceneObject>, node: string): Result<seq<Conflict>, SceneError> {
    if IsLayoutId(node) then Ok([])
    else
      var ps := ObjectParents(g, node);
      var rs :- Rotations(ps, sg);
      Ok(WallHitsNode(g, node, ps, rs))
  }

  function WallScan(g: Digraph, sg: seq<SceneObject>, order: seq<string>): Result<seq<Conflict>, SceneError> {
    ConcatScan(n => WallNode(g, sg, n), order)
  }

  /** `check_wall_relationship_impossibilities`, over the topological order `order`. */
  method CheckWallImpossibilities(g: Digraph, sg: seq<SceneObject>, order: seq<string>)
    returns (r: Result<seq<Conflict>, SceneError>)
    ensures r == WallScan(g, sg, order)
  {
    var f := n => WallNode(g, sg, n);
    var conflicts: seq<Conflict> := [];
    var i := 0;
    while i < |order|
      invariant 0 <= i <= |order|
      invariant ConcatScan(f, order[..i]) == Ok(conflicts)
    {
      ConcatScanNext(f, order, i);
      var more := WallNodeCheck(g, sg, order[i]);
      if more.Err? {
        ConcatScanErrStays(f, order, i + 1);
        return Err(more.error);
      }
      conflicts := conflicts + more.value;
      i := i + 1;
    }
    assert order[..i] == order;
    r := Ok(conflicts);
  }

  /** One turn of the loop over the topological order: layout elements are skipped. */
  method WallNodeCheck(g: Digraph, sg: seq<SceneObject>, node: string) returns (r: Result<seq<Conflict>, SceneError>)
    ensures r == WallNode(g, sg, node)
  {
    if IsLayoutId(node) {
      return Ok([]);
    }
    var parents := ObjectParents(g, node);
    var rots := Rotations(parents, sg);
    if rots.Err? {
      return Err(rots.error);
    }
    var cs := WallNodeLoop(g, node, parents, rots.value);
    r := Ok(cs);
  }

  method WallNodeLoop(g: Digraph, node: string, ps: seq<string>, rs: seq<Rotation>) returns (cs: seq<Conflict>)
    requires |ps| == |rs|
    ensures cs == WallHitsNode(g, node, ps, rs)
  {
    cs := [];
    var k := 0;
    while k < |ps|
      invariant 0 <= k <= |ps|
      invariant cs == WallHitsNode(g, node, ps[..k], rs[..k])
    {
      WallHitsNodeNext(g, node, ps, rs, k);
      var more := WallLoop(g, node, ps[k], rs[k], OnWalls(g, ps[k]));
      cs := cs + more;
      k := k + 1;
    }
    assert ps[..k] == ps && rs[..k] == rs;
  }

  /** The loop over `zip(parents, parents_rot)` one parent further. */
  lemma WallHitsNodeNext(g: Digraph, node: string, ps: seq<string>, rs: seq<Rotation>, k: nat)
    requires |ps| == |rs| && k < |ps|
    ensures WallHitsNode(g, node, ps[..k + 1], rs[..k + 1]) ==
            WallHitsNode(g, node, ps[..k], rs[..k]) + WallHitsFor(g, node, ps[k], rs[k], OnWalls(g, ps[k]))
  {
    assert ps[..k + 1][..k] == ps[..k] && rs[..k + 1][..k] == rs[..k];
  }

  method WallLoop(g: Digraph, node: string, p: string, r: Rotation, ws: seq<string>) returns (cs: seq<Conflict>)
    requires forall w :: w in ws ==> IsWall(w)
    ensures cs == WallHitsFor(g, node, p, r, ws)
  {
    cs := [];
    var k := 0;
    while k < |ws|
      invariant 0 <= k <= |ws|
      invariant cs == WallHitsFor(g, node, p, r, ws[..k])
    {
      assert ws[..k + 1][..k] == ws[..k];
      var q := Turned(WallImpossible(ws[k]), r);
      if EdgeIs(g, p, node, q) {
        cs := cs + [WallOutOfBounds(node, p, ws[k], q)];
      }
      k := k + 1;
    }
    assert ws[..k] == ws;
  }

  lemma {:induction false} WallHitsForMembers(g: Digraph, node: string, p: string, r: Rotation, ws: seq<string>)
    requires forall w :: w in ws ==> IsWall(w)
    ensures forall c :: c in WallHitsFor(g, node, p, r, ws) <==> WallHit(g, node, p, r, ws, c)
    decreases |ws|
  {
    if |ws| > 0 {
      var pre := ws[..|ws| - 1];
      WallHitsForMembers(g, node, p, r, pre);
      assert forall w :: w in ws <==> w in pre || w == ws[|ws| - 1];
    }
  }

  lemma {:induction false} WallHitsNodeMembers(g: Digraph, node: string, ps: seq<string>, rs: seq<Rotation>)
    requires |ps| == |rs|
    ensures forall c :: c in WallHitsNode(g, node, ps, rs) <==>
              exists j :: 0 <= j < |ps| && WallHit(g, node, ps[j], rs[j], OnWalls(g, ps[j]), c)
    decreases |ps|
  {
    if |ps| > 0 {
      var k := |ps| - 1;
      var pre, last := WallHitsNode(g, node, ps[..k], rs[..k]), WallHitsFor(g, node, ps[k], rs[k], OnWalls(g, ps[k]));
      assert WallHitsNode(g, node, ps, rs) == pre + last;
      WallHitsNodeMembers(g, node, ps[..k], rs[..k]);
      WallHitsForMembers(g, node, ps[k], rs[k], OnWalls(g, ps[k]));
      forall c | c in pre + last
        ensures exists j :: 0 <= j < |ps| && WallHit(g, node, ps[j], rs[j], OnWalls(g, ps[j]), c)
      {
        if c in pre {
          var j :| 0 <= j < k && WallHit(g, node, ps[..k][j], rs[..k][j], OnWalls(g, ps[..k][j]), c);
          assert ps[..k][j] == ps[j] && rs[..k][j] == rs[j];
        } else {
          assert WallHit(g, node, ps[k], rs[k], OnWalls(g, ps[k]), c);
        }
      }
      forall c, j | 0 <= j < |ps| && WallHit(g, node, ps[j], rs[j], OnWalls(g, ps[j]), c)
        ensures c in pre + last
      {
        if j < k {
          assert ps[..k][j] == ps[j] && rs[..k][j] == rs[j];
          assert c in pre;
        } else {
          assert j == k;
          assert c in last;
        }
      }
    }
  }

  /** What the wall check reports about one node. */
  lemma WallNodeMembers(g: Digraph, sg: seq<SceneObject>, node: string)
    ensures WallNode(g, sg, node).Err? <==>
            !IsLayoutId(node) && exists p :: p in ObjectParents(g, node) && RotationOfId(p, sg).Err?
    ensures WallNode(g, sg, node).Ok? ==>
            forall c :: c in WallNode(g, sg, node).value <==>
              !IsLayoutId(node) && c.WallOutOfBounds? && c.parent in ObjectParents(g, node) &&
              WallHit(g, node, c.parent, RotationOfId(c.parent, sg).value, OnWalls(g, c.parent), c)
  {
    var ps := ObjectParents(g, node);
    RotationsFail(ps, sg);
    if !IsLayoutId(node) && Rotations(ps, sg).Ok? {
      var rs := Rotations(ps, sg).value;
      WallHitsNodeMembers(g, node, ps, rs);
      forall c ensures c in WallNode(g, sg, node).value <==>
              c.WallOutOfBounds? && c.parent in ps &&
              WallHit(g, node, c.parent, RotationOfId(c.parent, sg).value, OnWalls(g, c.parent), c)
      {
        if c in WallHitsNode(g, node, ps, rs) {
          var j :| 0 <= j < |ps| && WallHit(g, node, ps[j], rs[j], OnWalls(g, ps[j]), c);
          assert rs[j] == RotationOfId(ps[j], sg).value && ps[j] in ps;
        }
        if c.WallOutOfBounds? && c.parent in ps &&
           WallHit(g, node, c.parent, RotationOfId(c.parent, sg).value, OnWalls(g, c.parent), c) {
          var k :| 0 <= k < |ps| && ps[k] == c.parent;
          assert WallHit(g, node, ps[k], rs[k], OnWalls(g, ps[k]), c);
        }
      }
    }
  }

  /**
   * `check_wall_relationship_impossibilities` fails exactly when the rotation of an object
   * parent of some object cannot be resolved; otherwise it reports exactly the edges `p -> n`
   * between objects whose preposition, turned by `p`'s rotation, is the side of `p` that lies
   * beyond a wall `p` is on.
   */
  lemma WallImpossibilitiesExact(g: Digraph, sg: seq<SceneObject>, order: seq<string>)
    ensures WallScan(g, sg, order).Err? <==>
            exists n :: n in order && !IsLayoutId(n) && exists p :: p in ObjectParents(g, n) && RotationOfId(p, sg).Err?
    ensures WallScan(g, sg, order).Ok? ==>
            forall c :: c in WallScan(g, sg, order).value <==>
              c.WallOutOfBounds? && c.node in order && !IsLayoutId(c.node) && c.parent in ObjectParents(g, c.node) &&
              WallHit(g, c.node, c.parent, RotationOfId(c.parent, sg).value, OnWalls(g, c.parent), c)
  {
    var f := n => WallNode(g, sg, n);
    ConcatScanMembers(f, order);
    forall n ensures f(n).Err? <==> !IsLayoutId(n) && exists p :: p in ObjectParents(g, n) && RotationOfId(p, sg).Err? {
      WallNodeMembers(g, sg, n);
    }
    if WallScan(g, sg, order).Ok? {
      forall c ensures c in WallScan(g, sg, order).value <==>
              c.WallOutOfBounds? && c.node in order && !IsLayoutId(c.node) && c.parent in ObjectParents(g, c.node) &&
              WallHit(g, c.node, c.parent, RotationOfId(c.parent, sg).value, OnWalls(g, c.parent), c)
      {
        if c.WallOutOfBounds? {
          WallNodeMembers(g, sg, c.node);
        }
        forall n | n in order && f(n).Ok? && c in f(n).value ensures c.WallOutOfBounds? && n == c.node {
          WallNodeMembers(g, sg, n);
        }
      }
    }
  }

  // ---------------------------------------------------------------- check_corner_relationship_impossibilities

  /** The parents of `p` reached by an "in the corner" edge. */
  function CornerParents(g: Digraph, p: string): seq<string> {
    FilterBy(Preds(g, p), w => EdgeIs(g, w, p, InCorner))
  }

  /** The loop over `corners`: each wall's outer side turned by `r`; a non-wall has no entry. */
  function ImpossiblePreps(ws: seq<string>, r: Rotation): Result<seq<Prep>, SceneError>
    decreases |ws|
  {
    if |ws| == 0 then Ok([])
    else
      match ImpossiblePreps(ws[..|ws| - 1], r)
      case Err(e) => Err(e)
      case Ok(prev) =>
        var w := ws[|ws| - 1];
        if IsWall(w) then Ok(prev + [Turned(WallImpossible(w), r)]) else Err(NotAWall(w))
  }

  /** The sides ruled out are those of all the corner walls, and any other corner parent is an error. */
  lemma ImpossiblePrepsMeaning(ws: seq<string>, r: Rotation)
    ensures ImpossiblePreps(ws, r).Ok? <==> forall k :: 0 <= k < |ws| ==> IsWall(ws[k])
    ensures ImpossiblePreps(ws, r).Ok? ==>
            |ImpossiblePreps(ws, r).value| == |ws| &&
            forall k :: 0 <= k < |ws| ==> IsWall(ws[k]) && ImpossiblePreps(ws, r).value[k] == Turned(WallImpossible(ws[k]), r)
  {
    ImpossiblePrepsFails(ws, r);
    ImpossiblePrepsValues(ws, r);
  }

  lemma {:induction false} ImpossiblePrepsFails(ws: seq<string>, r: Rotation)
    ensures ImpossiblePreps(ws, r).Ok? <==> forall k :: 0 <= k < |ws| ==> IsWall(ws[k])
    decreases |ws|
  {
    if |ws| > 0 {
      var pre, w := ws[..|ws| - 1], ws[|ws| - 1];
      ImpossiblePrepsFails(pre, r);
      if ImpossiblePreps(pre, r).Ok? {
        assert ImpossiblePreps(ws, r).Ok? == IsWall(w);
        if IsWall(w) {
          forall k | 0 <= k < |ws| ensures IsWall(ws[k]) {
            if k < |pre| {
              assert pre[k] == ws[k];
            }
          }
        }
      } else {
        assert ImpossiblePreps(ws, r).Err?;
        var k :| 0 <= k < |pre| && !IsWall(pre[k]);
        assert !IsWall(ws[k]);
      }
    } else {
      assert ImpossiblePreps(ws, r) == Ok([]);
    }
  }

  lemma {:induction false} ImpossiblePrepsValues(ws: seq<string>, r: Rotation)
    ensures ImpossiblePreps(ws, r).Ok? ==>
            |ImpossiblePreps(ws, r).value| == |ws| &&
            forall k :: 0 <= k < |ws| ==> IsWall(ws[k]) && ImpossiblePreps(ws, r).value[k] == Turned(WallImpossible(ws[k]), r)
    decreases |ws|
  {
    if |ws| > 0 && ImpossiblePreps(ws, r).Ok? {
      var pre := ws[..|ws| - 1];
      var w := ws[|ws| - 1];
      ImpossiblePrepsValues(pre, r);
      var prev := ImpossiblePreps(pre, r).value;
      var v := prev + [Turned(WallImpossible(w), r)];
      assert ImpossiblePreps(ws, r) == Ok(v);
      forall k | 0 <= k < |ws| ensures IsWall(ws[k]) && v[k] == Turned(WallImpossible(ws[k]), r) {
        if k < |pre| {
          assert pre[k] == ws[k] && v[k] == prev[k];
        }
      }
    }
  }

  predicate HitsAny(g: Digraph, p: string, node: string, qs: seq<Prep>) {
    exists k :: 0 <= k < |qs| && EdgeIs(g, p, node, qs[k])
  }

  /** The body of the loop over `zip(parents, parents_rot)` for parent `p` at rotation `r`. */
  function CornerHitsFor(g: Digraph, node: string, p: string, r: Rotation): Result<seq<Conflict>, SceneError> {
    var ws := CornerParents(g, p);
    if |ws| != 2 then Ok([])
    else
      var qs :- ImpossiblePreps(ws, r);
      Ok(if HitsAny(g, p, node, qs) then [CornerOutOfBounds(node, p, ws, qs)] else [])
  }

  function CornerHitsNode(g: Digraph, node: string, ps: seq<string>, rs: seq<Rotation>): Result<seq<Conflict>, SceneError>
    requires |ps| == |rs|
    decreases |ps|
  {
    if |ps| == 0 then Ok([])
    else
      var k := |ps| - 1;
      match CornerHitsNode(g, node, ps[..k], rs[..k])
      case Err(e) => Err(e)
      case Ok(prev) =>
        match CornerHitsFor(g, node, ps[k], rs[k])
        case Err(e) => Err(e)
        case Ok(more) => Ok(prev + more)
  }

  function CornerNode(g: Digraph, sg: seq<SceneObject>, node: string): Result<seq<Conflict>, SceneError> {
    if IsLayoutId(node) then Ok([])
    else
      var ps := ObjectParents(g, node);
      var rs :- Rotations(ps, sg);
      CornerHitsNode(g, node, ps, rs)
  }

  function CornerScan(g: Digraph, sg: seq<SceneObject>, order: seq<string>): Result<seq<Conflict>, SceneError> {
    ConcatScan(n => CornerNode(g, sg, n), order)
  }

  /** `check_corner_relationship_impossibilities`, over the topological order `order`. */
  method CheckCornerImpossibilities(g: Digraph, sg: seq<SceneObject>, order: seq<string>)
    returns (r: Result<seq<Conflict>, SceneError>)
    ensures r == CornerScan(g, sg, order)
  {
    var f := n => CornerNode(g, sg, n);
    var conflicts: seq<Conflict> := [];
    var i := 0;
    while i < |order|
      invariant 0 <= i <= |order|
      invariant ConcatScan(f, order[..i]) == Ok(conflicts)
    {
      ConcatScanNext(f, order, i);
      var more := CornerNodeCheck(g, sg, order[i]);
      if more.Err? {
        ConcatScanErrStays(f, order, i + 1);
        return Err(more.error);
      }
      conflicts := conflicts + more.value;
      i := i + 1;
    }
    assert order[..i] == order;
    r := Ok(conflicts);
  }

  /** One turn of the loop over the topological order: layout elements are skipped. */
  method CornerNodeCheck(g: Digraph, sg: seq<SceneObject>, node: string) returns (r: Result<seq<Conflict>, SceneError>)
    ensures r == CornerNode(g, sg, node)
  {
    if IsLayoutId(node) {
      return Ok([]);
    }
    var parents := ObjectParents(g, node);
    var rots := Rotations(parents, sg);
    if rots.Err? {
      return Err(rots.error);
    }
    r := CornerNodeLoop(g, node, parents, rots.value);
  }

  method CornerNodeLoop(g: Digraph, node: string, ps: seq<string>, rs: seq<Rotation>)
    returns (r: Result<seq<Conflict>, SceneError>)
    requires |ps| == |rs|
    ensures r == CornerHitsNode(g, node, ps, rs)
  {
    var cs: seq<Conflict> := [];
    var k := 0;
    while k < |ps|
      invariant 0 <= k <= |ps|
      invariant CornerHitsNode(g, node, ps[..k], rs[..k]) == Ok(cs)
    {
      CornerHitsNodeNext(g, node, ps, rs, k);
      var more := CornerParentCheck(g, node, ps[k], rs[k]);
      if more.Err? {
        CornerHitsNodeErrStays(g, node, ps, rs, k + 1);
        return Err(more.error);
      }
      cs := cs + more.value;
      k := k + 1;
    }
    assert ps[..k] == ps && rs[..k] == rs;
    r := Ok(cs);
  }

  /** The loop over the parents one parent further. */
  lemma CornerHitsNodeNext(g: Digraph, node: string, ps: seq<string>, rs: seq<Rotation>, k: nat)
    requires k < |ps| == |rs|
    ensures CornerHitsNode(g, node, ps[..k + 1], rs[..k + 1]) ==
            match CornerHitsNode(g, node, ps[..k], rs[..k])
            case Err(e) => Err(e)
            case Ok(prev) =>
              match CornerHitsFor(g, node, ps[k], rs[k]) case Err(e) => Err(e) case Ok(more) => Ok(prev + more)
  {
    assert ps[..k + 1][..k] == ps[..k] && rs[..k + 1][..k] == rs[..k];
  }

  /** The body of the loop over `zip(parents, parents_rot)`, for one parent. */
  method CornerParentCheck(g: Digraph, node: string, p: string, r: Rotation) returns (res: Result<seq<Conflict>, SceneError>)
    ensures res == CornerHitsFor(g, node, p, r)
  {
    var corners := CornerParents(g, p);
    if |corners| != 2 {
      return Ok([]);
    }
    var preps := ImpossiblePrepsLoop(corners, r);
    if preps.Err? {
      return Err(preps.error);
    }
    if HitsAny(g, p, node, preps.value) {
      return Ok([CornerOutOfBounds(node, p, corners, preps.value)]);
    }
    return Ok([]);
  }

  method ImpossiblePrepsLoop(ws: seq<string>, r: Rotation) returns (res: Result<seq<Prep>, SceneError>)
    ensures res == ImpossiblePreps(ws, r)
  {
    var qs: seq<Prep> := [];
    var k := 0;
    while k < |ws|
      invariant 0 <= k <= |ws|
      invariant ImpossiblePreps(ws[..k], r) == Ok(qs)
    {
      ImpossiblePrepsNext(ws, r, k, qs);
      if !IsWall(ws[k]) {
        ImpossiblePrepsErrStays(ws, r, k + 1);
        return Err(NotAWall(ws[k]));
      }
      qs := qs + [Turned(WallImpossible(ws[k]), r)];
      k := k + 1;
    }
    assert ws[..k] == ws;
    res := Ok(qs);
  }

  /** The loop over `corners` one wall further. */
  lemma ImpossiblePrepsNext(ws: seq<string>, r: Rotation, k: nat, qs: seq<Prep>)
    requires k < |ws| && ImpossiblePreps(ws[..k], r) == Ok(qs)
    ensures IsWall(ws[k]) ==> ImpossiblePreps(ws[..k + 1], r) == Ok(qs + [Turned(WallImpossible(ws[k]), r)])
    ensures !IsWall(ws[k]) ==> ImpossiblePreps(ws[..k + 1], r) == Err(NotAWall(ws[k]))
  {
    assert ws[..k + 1][..k] == ws[..k];
  }

  lemma {:induction false} ImpossiblePrepsErrStays(ws: seq<string>, r: Rotation, i: nat)
    requires i <= |ws| && ImpossiblePreps(ws[..i], r).Err?
    ensures ImpossiblePreps(ws, r) == ImpossiblePreps(ws[..i], r)
    decreases |ws| - i
  {
    if i < |ws| {
      assert ws[..|ws| - 1][..i] == ws[..i];
      ImpossiblePrepsErrStays(ws[..|ws| - 1], r, i);
    } else {
      assert ws[..i] == ws;
    }
  }

  lemma {:induction false} CornerHitsNodeErrStays(g: Digraph, node: string, ps: seq<string>, rs: seq<Rotation>, i: nat)
    requires |ps| == |rs| && i <= |ps| && CornerHitsNode(g, node, ps[..i], rs[..i]).Err?
    ensures CornerHitsNode(g, node, ps, rs) == CornerHitsNode(g, node, ps[..i], rs[..i])
    decreases |ps| - i
  {
    if i < |ps| {
      var k := |ps| - 1;
      assert ps[..k][..i] == ps[..i] && rs[..k][..i] == rs[..i];
      CornerHitsNodeErrStays(g, node, ps[..k], rs[..k], i);
    } else {
      assert ps[..i] == ps && rs[..i] == rs;
    }
  }

  /** Parent `p` makes the check fail: exactly two corner parents, not both walls. */
  predicate CornerFails(g: Digraph, p: string) {
    var ws := CornerParents(g, p);
    |ws| == 2 && !(IsWall(ws[0]) && IsWall(ws[1]))
  }

  /** `c` reports that `node` lies on an outer side of `p`, rotated by `r`, in the corner of its two walls. */
  predicate CornerHit(g: Digraph, node: string, p: string, r: Rotation, c: Conflict) {
    c.CornerOutOfBounds? && c.node == node && c.parent == p && c.walls == CornerParents(g, p) &&
    |c.walls| == 2 && IsWall(c.walls[0]) && IsWall(c.walls[1]) &&
    c.preps == [Turned(WallImpossible(c.walls[0]), r), Turned(WallImpossible(c.walls[1]), r)] &&
    HitsAny(g, p, node, c.preps)
  }

  lemma CornerHitsForFails(g: Digraph, node: string, p: string, r: Rotation)
    ensures CornerHitsFor(g, node, p, r).Err? <==> CornerFails(g, p)
  {
    ImpossiblePrepsMeaning(CornerParents(g, p), r);
  }

  lemma CornerHitsForMembers(g: Digraph, node: string, p: string, r: Rotation)
    ensures CornerHitsFor(g, node, p, r).Ok? ==>
            forall c :: c in CornerHitsFor(g, node, p, r).value <==> CornerHit(g, node, p, r, c)
  {
    var ws := CornerParents(g, p);
    ImpossiblePrepsMeaning(ws, r);
    if |ws| == 2 && ImpossiblePreps(ws, r).Ok? {
      var qs := ImpossiblePreps(ws, r).value;
      assert qs == [qs[0], qs[1]];
    }
  }

  /** One step of the fold over the parents fails when the prefix or the last parent does. */
  lemma CornerHitsNodeStep(g: Digraph, node: string, ps: seq<string>, rs: seq<Rotation>)
    requires |ps| == |rs| && |ps| > 0
    ensures CornerHitsNode(g, node, ps, rs).Err? <==>
            CornerHitsNode(g, node, ps[..|ps| - 1], rs[..|ps| - 1]).Err? || CornerHitsFor(g, node, ps[|ps| - 1], rs[|ps| - 1]).Err?
  {
  }

  lemma {:induction false} CornerHitsNodeFails(g: Digraph, node: string, ps: seq<string>, rs: seq<Rotation>)
    requires |ps| == |rs|
    ensures CornerHitsNode(g, node, ps, rs).Err? <==> exists p :: p in ps && CornerFails(g, p)
    decreases |ps|
  {
    if |ps| > 0 {
      var k := |ps| - 1;
      CornerHitsNodeFails(g, node, ps[..k], rs[..k]);
      CornerHitsForFails(g, node, ps[k], rs[k]);
      CornerHitsNodeStep(g, node, ps, rs);
      assert ps == ps[..k] + [ps[k]];
    }
  }

  lemma {:induction false} CornerHitsNodeMembers(g: Digraph, node: string, ps: seq<string>, rs: seq<Rotation>)
    requires |ps| == |rs| && CornerHitsNode(g, node, ps, rs).Ok?
    ensures forall c :: c in CornerHitsNode(g, node, ps, rs).value <==>
              exists j :: 0 <= j < |ps| && CornerHit(g, node, ps[j], rs[j], c)
    decreases |ps|
  {
    if |ps| > 0 {
      var k := |ps| - 1;
      CornerHitsNodeMembers(g, node, ps[..k], rs[..k]);
      CornerHitsForMembers(g, node, ps[k], rs[k]);
      var pre := CornerHitsNode(g, node, ps[..k], rs[..k]).value;
      var last := CornerHitsFor(g, node, ps[k], rs[k]).value;
      assert CornerHitsNode(g, node, ps, rs).value == pre + last;
      forall c | c in pre + last ensures exists j :: 0 <= j < |ps| && CornerHit(g, node, ps[j], rs[j], c) {
        if c in pre {
          var j :| 0 <= j < k && CornerHit(g, node, ps[..k][j], rs[..k][j], c);
          assert ps[..k][j] == ps[j] && rs[..k][j] == rs[j];
        } else {
          assert CornerHit(g, node, ps[k], rs[k], c);
        }
      }
      forall c, j | 0 <= j < |ps| && CornerHit(g, node, ps[j], rs[j], c) ensures c in pre + last {
        if j < k {
          assert ps[..k][j] == ps[j] && rs[..k][j] == rs[j];
          assert CornerHit(g, node, ps[..k][j], rs[..k][j], c);
          assert c in pre;
        } else {
          assert j == k;
          assert c in last;
        }
      }
    }
  }

  /** What the corner check reports about one node. */
  lemma CornerNodeMembers(g: Digraph, sg: seq<SceneObject>, node: string)
    ensures CornerNode(g, sg, node).Err? <==>
            !IsLayoutId(node) && exists p :: p in ObjectParents(g, node) && (RotationOfId(p, sg).Err? || CornerFails(g, p))
    ensures CornerNode(g, sg, node).Ok? ==>
            forall c :: c in CornerNode(g, sg, node).value <==>
              !IsLayoutId(node) && c.CornerOutOfBounds? && c.parent in ObjectParents(g, node) &&
              CornerHit(g, node, c.parent, RotationOfId(c.parent, sg).value, c)
  {
    var ps := ObjectParents(g, node);
    RotationsFail(ps, sg);
    if !IsLayoutId(node) && Rotations(ps, sg).Ok? {
      var rs := Rotations(ps, sg).value;
      CornerHitsNodeFails(g, node, ps, rs);
      if CornerHitsNode(g, node, ps, rs).Ok? {
        CornerHitsNodeMembers(g, node, ps, rs);
        forall c ensures c in CornerNode(g, sg, node).value <==>
                c.CornerOutOfBounds? && c.parent in ps && CornerHit(g, node, c.parent, RotationOfId(c.parent, sg).value, c)
        {
          if c.CornerOutOfBounds? && c.parent in ps && CornerHit(g, node, c.parent, RotationOfId(c.parent, sg).value, c) {
            var j :| 0 <= j < |ps| && ps[j] == c.parent;
            assert CornerHit(g, node, ps[j], rs[j], c);
          }
        }
      }
    }
  }

  /**
   * `check_corner_relationship_impossibilities` fails exactly when a rotation cannot be
   * resolved or a parent with two corner edges has a corner parent that is not a wall;
   * otherwise it reports exactly the edges `p -> n` between objects whose preposition, turned
   * by `p`'s rotation, is one of the two outer sides of the corner `p` stands in.
   */
  lemma CornerImpossibilitiesExact(g: Digraph, sg: seq<SceneObject>, order: seq<string>)
    ensures CornerScan(g, sg, order).Err? <==>
            exists n :: n in order && !IsLayoutId(n) &&
                        exists p :: p in ObjectParents(g, n) && (RotationOfId(p, sg).Err? || CornerFails(g, p))
    ensures CornerScan(g, sg, order).Ok? ==>
            forall c :: c in CornerScan(g, sg, order).value <==>
              c.CornerOutOfBounds? && c.node in order && !IsLayoutId(c.node) && c.parent in ObjectParents(g, c.node) &&
              CornerHit(g, c.node, c.parent, RotationOfId(c.parent, sg).value, c)
  {
    var f := n => CornerNode(g, sg, n);
    ConcatScanMembers(f, order);
    forall n ensures f(n).Err? <==>
                     !IsLayoutId(n) && exists p :: p in ObjectParents(g, n) && (RotationOfId(p, sg).Err? || CornerFails(g, p))
    {
      CornerNodeMembers(g, sg, n);
    }
    if CornerScan(g, sg, order).Ok? {
      forall c ensures c in CornerScan(g, sg, order).value <==>
              c.CornerOutOfBounds? && c.node in order && !IsLayoutId(c.node) && c.parent in ObjectParents(g, c.node) &&
              CornerHit(g, c.node, c.parent, RotationOfId(c.parent, sg).value, c)
      {
        if c.CornerOutOfBounds? {
          CornerNodeMembers(g, sg, c.node);
        }
        forall n | n in order && f(n).Ok? && c in f(n).value ensures c.CornerOutOfBounds? && n == c.node {
          CornerNodeMembers(g, sg, n);
        }
      }
    }
  }

  /** A reported corner of two different walls always rules out two different sides. */
  lemma CornerReportSidesDiffer(g: Digraph, node: string, p: string, r: Rotation, c: Conflict)
    requires CornerHit(g, node, p, r, c) && c.walls[0] != c.walls[1]
    ensures c.preps[0] != c.preps[1]
  {
    CornerSidesDiffer(c.walls[0], c.walls[1], r);
  }
}
