/**
 * `preprocess_scene_graph` of utils.py: drops relationships to the floor for objects that are
 * not on the floor, turns "in the corner" of the floor or the ceiling into "on", drops object
 * relationships to the floor and repairs references to unknown ids by substring match.
 */
module Preprocess {
  import opened Wrappers
  import opened Constraints
  import opened Scene

  // ---------------------------------------------------------------- strings

  /** Python's `a in b` on strings: `a` occurs contiguously in `b`. */
  predicate IsSubstring(a: string, b: string)
    decreases |b|
  {
    a <= b || (|b| > 0 && IsSubstring(a, b[1..]))
  }

  /** `next(iter([x for x in ids if t in x]), None)`: the first id that contains `t`. */
  function FirstContaining(t: string, ids: seq<string>): (r: Option<string>)
    ensures r.Some? ==> r.value in ids && IsSubstring(t, r.value)
    ensures r.None? <==> forall k :: 0 <= k < |ids| ==> !IsSubstring(t, ids[k])
    ensures r.Some? ==> exists k :: 0 <= k < |ids| && ids[k] == r.value && forall m :: 0 <= m < k ==> !IsSubstring(t, ids[m])
  {
    if |ids| == 0 then None
    else if IsSubstring(t, ids[0]) then Some(ids[0])
    else
      var r := FirstContaining(t, ids[1..]);
      assert forall k :: 1 <= k < |ids| ==> ids[k] == ids[1..][k - 1];
      r
  }

  // ---------------------------------------------------------------- room layout relationships

  predicate HasElement(ls: seq<LayoutEdge>, id: string) {
    exists k :: 0 <= k < |ls| && ls[k].element == id
  }

  function WithoutElement(ls: seq<LayoutEdge>, id: string): seq<LayoutEdge> {
    if |ls| == 0 then [] else (if ls[0].element == id then [] else [ls[0]]) + WithoutElement(ls[1..], id)
  }

  lemma {:induction false} WithoutElementMembers(ls: seq<LayoutEdge>, id: string)
    ensures forall l :: l in WithoutElement(ls, id) <==> l in ls && l.element != id
  {
    if |ls| > 0 {
      WithoutElementMembers(ls[1..], id);
    }
  }

  /** An object that is not on the floor loses its relationships with the floor. */
  function DropFloor(o: SceneObject): seq<LayoutEdge> {
    var ls := o.placement.layout;
    if !o.onFloor && HasElement(ls, MiddleOfRoom) then WithoutElement(ls, MiddleOfRoom) else ls
  }

  /** "in the corner" of the floor or of the ceiling becomes "on". */
  function CornerToOn(l: LayoutEdge): LayoutEdge {
    if l.prep == InCorner && (l.element == MiddleOfRoom || l.element == Ceiling) then l.(prep := On) else l
  }

  function MapCornerToOn(ls: seq<LayoutEdge>): seq<LayoutEdge> {
    if |ls| == 0 then [] else [CornerToOn(ls[0])] + MapCornerToOn(ls[1..])
  }

  lemma {:induction false} MapCornerToOnAt(ls: seq<LayoutEdge>)
    ensures |MapCornerToOn(ls)| == |ls| && forall i :: 0 <= i < |ls| ==> MapCornerToOn(ls)[i] == CornerToOn(ls[i])
  {
    if |ls| > 0 {
      MapCornerToOnAt(ls[1..]);
    }
  }

  // ---------------------------------------------------------------- object relationships

  /**
   * The state of the loop over `objects_in_room`: the edge records, which the loop renames in
   * place, and which of them the current list still holds. The loop iterates over the original
   * list while the current list is replaced by filtered copies that share the same records, so
   * the current list is always the records marked `alive`, in their original order.
   */
  datatype EdgeState = EdgeState(edges: seq<ObjectEdge>, alive: seq<bool>)

  predicate ValidState(st: EdgeState, n: nat) {
    |st.edges| == n && |st.alive| == n
  }

  /** `[x for x in current if x["object_id"] != "middle of the room"]`. */
  function DropFloorRefs(st: EdgeState): (r: EdgeState)
    requires ValidState(st, |st.edges|)
    ensures r.edges == st.edges && |r.alive| == |st.alive|
    ensures forall j :: 0 <= j < |st.alive| ==> r.alive[j] == (st.alive[j] && st.edges[j].target != MiddleOfRoom)
  {
    EdgeState(st.edges, seq(|st.alive|, j requires 0 <= j < |st.alive| => st.alive[j] && st.edges[j].target != MiddleOfRoom))
  }

  /** The current list: the live records, in order. */
  function Current(st: EdgeState, n: nat): seq<ObjectEdge>
    requires n <= |st.edges| && n <= |st.alive|
    decreases n
  {
    if n == 0 then [] else Current(st, n - 1) + if st.alive[n - 1] then [st.edges[n - 1]] else []
  }

  /** One iteration, on the `k`-th record of the original list. */
  function VisitEdge(st: EdgeState, k: nat, ids: seq<string>): (r: Result<EdgeState, SceneError>)
    requires k < |st.edges| && ValidState(st, |st.edges|)
    ensures r.Ok? ==> ValidState(r.value, |st.edges|)
  {
    var e := st.edges[k];
    if e.target == MiddleOfRoom then Ok(DropFloorRefs(st))
    else if e.target in ids then Ok(st)
    else match FirstContaining(e.target, ids)
      case None => Err(MissingObject(e.target))
      case Some(c) => Ok(EdgeState(st.edges[k := e.(target := c)], st.alive))
  }

  function FixEdgesUpTo(es: seq<ObjectEdge>, ids: seq<string>, n: nat): (r: Result<EdgeState, SceneError>)
    requires n <= |es|
    ensures r.Ok? ==> ValidState(r.value, |es|)
    decreases n
  {
    if n == 0 then Ok(EdgeState(es, seq(|es|, _ => true)))
    else match FixEdgesUpTo(es, ids, n - 1)
      case Err(e) => Err(e)
      case Ok(st) => VisitEdge(st, n - 1, ids)
  }

  /** The loop over `objects_in_room` one record further. */
  lemma FixEdgesNext(es: seq<ObjectEdge>, ids: seq<string>, k: nat, st: EdgeState)
    requires k < |es| && FixEdgesUpTo(es, ids, k) == Ok(st)
    ensures k < |st.edges| && ValidState(st, |st.edges|)
    ensures FixEdgesUpTo(es, ids, k + 1) == VisitEdge(st, k, ids)
  {
  }

  /** The loop over `objects_in_room` of one object, given the ids of the scene graph. */
  function FixObjectEdges(es: seq<ObjectEdge>, ids: seq<string>): Result<seq<ObjectEdge>, SceneError> {
    var st :- FixEdgesUpTo(es, ids, |es|);
    Ok(Current(st, |es|))
  }

  function PreprocessObjectSpec(o: SceneObject, ids: seq<string>): Result<SceneObject, SceneError> {
    var layout := MapCornerToOn(DropFloor(o));
    var objects :- FixObjectEdges(o.placement.objects, ids);
    Ok(o.(placement := Placement(layout, objects)))
  }

  /** The outcome of preprocessing each object, against the ids of the whole scene graph. */
  function Outcomes(sg: seq<SceneObject>): (rs: seq<Result<SceneObject, SceneError>>)
    ensures |rs| == |sg|
  {
    seq(|sg|, i requires 0 <= i < |sg| => PreprocessObjectSpec(sg[i], Ids(sg)))
  }

  /** The loop over the objects: the first failure, or every object preprocessed, in order. */
  function Collect(rs: seq<Result<SceneObject, SceneError>>, n: nat): Result<seq<SceneObject>, SceneError>
    requires n <= |rs|
    decreases n
  {
    if n == 0 then Ok([])
    else
      var done :- Collect(rs, n - 1);
      var o :- rs[n - 1];
      Ok(done + [o])
  }

  function PreprocessSpec(sg: seq<SceneObject>): Result<seq<SceneObject>, SceneError> {
    Collect(Outcomes(sg), |sg|)
  }

  /** The loop that turns corner relationships with the floor or the ceiling into "on". */
  method CornersToOn(ls0: seq<LayoutEdge>) returns (ls: seq<LayoutEdge>)
    ensures ls == MapCornerToOn(ls0)
  {
    ls := ls0;
    var i := 0;
    while i < |ls|
      invariant 0 <= i <= |ls| == |ls0|
      invariant forall j :: 0 <= j < i ==> ls[j] == CornerToOn(ls0[j])
      invariant forall j :: i <= j < |ls| ==> ls[j] == ls0[j]
    {
      ls := ls[i := CornerToOn(ls[i])];
      i := i + 1;
    }
    MapCornerToOnAt(ls0);
  }

  /** The loop over `objects_in_room`. */
  method FixEdges(es: seq<ObjectEdge>, ids: seq<string>) returns (r: Result<seq<ObjectEdge>, SceneError>)
    ensures r == FixObjectEdges(es, ids)
  {
    var st := EdgeState(es, seq(|es|, _ => true));
    var k := 0;
    while k < |es|
      invariant 0 <= k <= |es|
      invariant FixEdgesUpTo(es, ids, k) == Ok(st)
    {
      FixEdgesNext(es, ids, k, st);
      var e := st.edges[k];
      if e.target == MiddleOfRoom {
        st := DropFloorRefs(st);
      } else if e.target !in ids {
        var closest := FirstContaining(e.target, ids);
        if closest.None? {
          FixEdgesErrStays(es, ids, k + 1);
          return Err(MissingObject(e.target));
        }
        st := EdgeState(st.edges[k := e.(target := closest.value)], st.alive);
      }
      k := k + 1;
    }
    r := Ok(Current(st, |es|));
  }

  /** The body of the loop of `preprocess_scene_graph`, for one object. */
  method PreprocessObject(o: SceneObject, ids: seq<string>) returns (r: Result<SceneObject, SceneError>)
    ensures r == PreprocessObjectSpec(o, ids)
  {
    var layout := o.placement.layout;
    if !o.onFloor && HasElement(layout, MiddleOfRoom) {
      layout := WithoutElement(layout, MiddleOfRoom);
    }
    layout := CornersToOn(layout);
    var objects := FixEdges(o.placement.objects, ids);
    if objects.Err? {
      return Err(objects.error);
    }
    r := Ok(o.(placement := Placement(layout, objects.value)));
  }

  /** `preprocess_scene_graph`. */
  method PreprocessSceneGraph(sg: seq<SceneObject>) returns (r: Result<seq<SceneObject>, SceneError>)
    ensures r == PreprocessSpec(sg)
  {
    var ids := Ids(sg);
    var done: seq<SceneObject> := [];
    var n := 0;
    while n < |sg|
      invariant 0 <= n <= |sg|
      invariant Collect(Outcomes(sg), n) == Ok(done)
    {
      var next := PreprocessNext(sg, ids, n, done);
      if next.Err? {
        CollectErrStays(Outcomes(sg), n + 1);
        return next;
      }
      done := next.value;
      n := n + 1;
    }
    r := Ok(done);
  }

  /** One iteration of the loop of `preprocess_scene_graph`. */
  method PreprocessNext(sg: seq<SceneObject>, ids: seq<string>, n: nat, done: seq<SceneObject>)
    returns (r: Result<seq<SceneObject>, SceneError>)
    requires ids == Ids(sg) && n < |sg| && Collect(Outcomes(sg), n) == Ok(done)
    ensures r == Collect(Outcomes(sg), n + 1)
  {
    var o := PreprocessObject(sg[n], ids);
    if o.Err? {
      return Err(o.error);
    }
    r := Ok(done + [o.value]);
  }

  lemma {:induction false} FixEdgesErrStays(es: seq<ObjectEdge>, ids: seq<string>, n: nat)
    requires n <= |es| && FixEdgesUpTo(es, ids, n).Err?
    ensures FixEdgesUpTo(es, ids, |es|) == FixEdgesUpTo(es, ids, n)
    decreases |es| - n
  {
    if n < |es| {
      FixEdgesErrStays(es, ids, n + 1);
    }
  }

  lemma {:induction false} CollectErrStays(rs: seq<Result<SceneObject, SceneError>>, n: nat)
    requires n <= |rs| && Collect(rs, n).Err?
    ensures Collect(rs, |rs|) == Collect(rs, n)
    decreases |rs| - n
  {
    if n < |rs| {
      CollectErrStays(rs, n + 1);
    }
  }

  // ---------------------------------------------------------------- what preprocessing achieves

  /** A reference the loop can resolve: the floor (dropped), a known id, or a substring of one. */
  predicate Resolvable(e: ObjectEdge, ids: seq<string>) {
    e.target == MiddleOfRoom || e.target in ids || FirstContaining(e.target, ids).Some?
  }

  /** A reference to a known id stays; any other is renamed to the first id that contains it. */
  function Repaired(e: ObjectEdge, ids: seq<string>): ObjectEdge {
    if e.target in ids then e
    else match FirstContaining(e.target, ids)
      case None => e
      case Some(c) => e.(target := c)
  }

  /** The references of `es` that are not to the floor, in order, each replaced by its counterpart in `fixed`. */
  function KeptUpTo(es: seq<ObjectEdge>, fixed: seq<ObjectEdge>, n: nat): seq<ObjectEdge>
    requires n <= |es| == |fixed|
    decreases n
  {
    if n == 0 then []
    else KeptUpTo(es, fixed, n - 1) + if es[n - 1].target == MiddleOfRoom then [] else [fixed[n - 1]]
  }

  function RepairAll(es: seq<ObjectEdge>, ids: seq<string>): (r: seq<ObjectEdge>)
    ensures |r| == |es|
  {
    seq(|es|, j requires 0 <= j < |es| => Repaired(es[j], ids))
  }

  /** The intended result of the loop: the references to the floor dropped, the rest repaired. */
  function CleanEdges(es: seq<ObjectEdge>, ids: seq<string>): seq<ObjectEdge> {
    KeptUpTo(es, RepairAll(es, ids), |es|)
  }

  /** The loop fails exactly on the first reference that is not resolvable. */
  lemma {:induction false} FixEdgesFails(es: seq<ObjectEdge>, ids: seq<string>, n: nat)
    requires n <= |es|
    ensures FixEdgesUpTo(es, ids, n).Err? <==> exists j :: 0 <= j < n && !Resolvable(es[j], ids)
    ensures FixEdgesUpTo(es, ids, n).Ok? ==> forall j :: n <= j < |es| ==> FixEdgesUpTo(es, ids, n).value.edges[j] == es[j]
    decreases n
  {
    if n > 0 {
      FixEdgesFails(es, ids, n - 1);
      var prev := FixEdgesUpTo(es, ids, n - 1);
      if prev.Ok? {
        VisitEdgeFails(prev.value, n - 1, ids);
        FixEdgesNext(es, ids, n - 1, prev.value);
        assert prev.value.edges[n - 1] == es[n - 1];
        if !Resolvable(es[n - 1], ids) {
          assert exists j :: 0 <= j < n && !Resolvable(es[j], ids) by {
            assert 0 <= n - 1 < n && !Resolvable(es[n - 1], ids);
          }
        } else {
          forall j | 0 <= j < n
            ensures Resolvable(es[j], ids)
          {
            if j < n - 1 {
              assert !(0 <= j < n - 1 && !Resolvable(es[j], ids));
            }
          }
        }
      } else {
        assert FixEdgesUpTo(es, ids, n) == prev;
        var j :| 0 <= j < n - 1 && !Resolvable(es[j], ids);
        assert 0 <= j < n;
      }
    }
  }

  /** One iteration fails exactly on a reference that is not resolvable, and leaves later records alone. */
  lemma VisitEdgeFails(st: EdgeState, k: nat, ids: seq<string>)
    requires k < |st.edges| && ValidState(st, |st.edges|)
    ensures VisitEdge(st, k, ids).Err? <==> !Resolvable(st.edges[k], ids)
    ensures VisitEdge(st, k, ids).Ok? ==> forall j :: k < j < |st.edges| ==> VisitEdge(st, k, ids).value.edges[j] == st.edges[j]
  {
  }

  /** The loop invariant in terms of the original list, when no id is the floor's. */
  predicate EdgeInv(es: seq<ObjectEdge>, ids: seq<string>, n: nat, st: EdgeState)
    requires n <= |es|
  {
    ValidState(st, |es|) &&
    (forall j :: 0 <= j < |es| ==>
       st.edges[j] == if j < n && es[j].target != MiddleOfRoom then Repaired(es[j], ids) else es[j]) &&
    (forall j :: 0 <= j < |es| ==>
       st.alive[j] == ((exists i :: 0 <= i < n && es[i].target == MiddleOfRoom) ==> es[j].target != MiddleOfRoom))
  }

  lemma RepairedKeepsFloor(e: ObjectEdge, ids: seq<string>)
    requires MiddleOfRoom !in ids && e.target != MiddleOfRoom
    ensures Repaired(e, ids).target != MiddleOfRoom
  {
  }

  lemma VisitEdgeInv(es: seq<ObjectEdge>, ids: seq<string>, k: nat, st: EdgeState)
    requires k < |es| && MiddleOfRoom !in ids && EdgeInv(es, ids, k, st) && VisitEdge(st, k, ids).Ok?
    ensures EdgeInv(es, ids, k + 1, VisitEdge(st, k, ids).value)
  {
    assert st.edges[k] == es[k];
    if es[k].target == MiddleOfRoom {
      forall j | 0 <= j < |es| ensures st.edges[j].target == MiddleOfRoom <==> es[j].target == MiddleOfRoom {
        if j < k && es[j].target != MiddleOfRoom {
          RepairedKeepsFloor(es[j], ids);
        }
      }
    }
  }

  lemma {:induction false} FixEdgesInv(es: seq<ObjectEdge>, ids: seq<string>, n: nat)
    requires n <= |es| && MiddleOfRoom !in ids && FixEdgesUpTo(es, ids, n).Ok?
    ensures EdgeInv(es, ids, n, FixEdgesUpTo(es, ids, n).value)
    decreases n
  {
    if n > 0 {
      FixEdgesInv(es, ids, n - 1);
      VisitEdgeInv(es, ids, n - 1, FixEdgesUpTo(es, ids, n - 1).value);
    }
  }

  lemma {:induction false} CurrentIsKept(es: seq<ObjectEdge>, fixed: seq<ObjectEdge>, st: EdgeState, n: nat)
    requires n <= |es| && |es| == |fixed| && ValidState(st, |es|)
    requires forall j :: 0 <= j < |es| ==> st.alive[j] == (es[j].target != MiddleOfRoom)
    requires forall j :: 0 <= j < |es| && es[j].target != MiddleOfRoom ==> st.edges[j] == fixed[j]
    ensures Current(st, n) == KeptUpTo(es, fixed, n)
    decreases n
  {
    if n > 0 {
      CurrentIsKept(es, fixed, st, n - 1);
    }
  }

  /**
   * When no scene graph id is the floor's (the scene graph holds objects only), the loop over
   * `objects_in_room` fails exactly when some reference cannot be resolved, and otherwise yields
   * the references in their order with those to the floor dropped and the rest repaired.
   */
  lemma FixObjectEdgesIsClean(es: seq<ObjectEdge>, ids: seq<string>)
    requires MiddleOfRoom !in ids
    ensures FixObjectEdges(es, ids).Err? <==> exists j :: 0 <= j < |es| && !Resolvable(es[j], ids)
    ensures FixObjectEdges(es, ids).Ok? ==> FixObjectEdges(es, ids).value == CleanEdges(es, ids)
  {
    FixEdgesFails(es, ids, |es|);
    if FixEdgesUpTo(es, ids, |es|).Ok? {
      FixEdgesInv(es, ids, |es|);
      var st := FixEdgesUpTo(es, ids, |es|).value;
      CurrentIsKept(es, RepairAll(es, ids), st, |es|);
    }
  }

  /** After repair every reference names a known id, none names the floor, and relations are kept. */
  lemma {:induction false} KeptFrom(es: seq<ObjectEdge>, fixed: seq<ObjectEdge>, n: nat)
    requires n <= |es| == |fixed|
    ensures forall e :: e in KeptUpTo(es, fixed, n) ==>
              exists j :: 0 <= j < n && es[j].target != MiddleOfRoom && e == fixed[j]
    ensures |KeptUpTo(es, fixed, n)| <= n
    decreases n
  {
    if n > 0 {
      KeptFrom(es, fixed, n - 1);
    }
  }

  /** After repair every reference names a known id, none names the floor, and relations are kept. */
  lemma CleanEdgesResolved(es: seq<ObjectEdge>, ids: seq<string>)
    requires MiddleOfRoom !in ids
    requires forall j :: 0 <= j < |es| ==> Resolvable(es[j], ids)
    ensures forall e :: e in CleanEdges(es, ids) ==> e.target in ids && e.target != MiddleOfRoom
    ensures forall e :: e in CleanEdges(es, ids) ==>
              exists j :: 0 <= j < |es| && e.prep == es[j].prep && e.adjacent == es[j].adjacent
    ensures |CleanEdges(es, ids)| <= |es|
  {
    KeptFrom(es, RepairAll(es, ids), |es|);
    forall e | e in CleanEdges(es, ids)
      ensures e.target in ids && e.target != MiddleOfRoom
      ensures exists j :: 0 <= j < |es| && e.prep == es[j].prep && e.adjacent == es[j].adjacent
    {
      var j :| 0 <= j < |es| && es[j].target != MiddleOfRoom && e == RepairAll(es, ids)[j];
      assert e == Repaired(es[j], ids);
    }
  }

  /** What one object looks like after preprocessing. */
  lemma PreprocessObjectEffect(o: SceneObject, ids: seq<string>)
    requires MiddleOfRoom !in ids
    ensures PreprocessObjectSpec(o, ids).Err? <==> exists j :: 0 <= j < |o.placement.objects| && !Resolvable(o.placement.objects[j], ids)
    ensures PreprocessObjectSpec(o, ids).Ok? ==>
              var r := PreprocessObjectSpec(o, ids).value;
              r.id == o.id && r.size == o.size && r.onFloor == o.onFloor && r.facing == o.facing &&
              r.rotation == o.rotation && r.position == o.position && r.cluster == o.cluster &&
              r.placement.objects == CleanEdges(o.placement.objects, ids) &&
              (forall l :: l in r.placement.layout ==>
                 !(l.prep == InCorner && (l.element == MiddleOfRoom || l.element == Ceiling)) &&
                 (!o.onFloor ==> l.element != MiddleOfRoom)) &&
              (forall l :: l in o.placement.layout && (o.onFloor || l.element != MiddleOfRoom) ==>
                 CornerToOn(l) in r.placement.layout)
  {
    FixObjectEdgesIsClean(o.placement.objects, ids);
    if PreprocessObjectSpec(o, ids).Ok? {
      var r := PreprocessObjectSpec(o, ids).value;
      assert r.placement.layout == MapCornerToOn(DropFloor(o));
      LayoutEffect(o);
    }
  }

  /** The layout relationships after preprocessing. */
  lemma LayoutEffect(o: SceneObject)
    ensures var ls := MapCornerToOn(DropFloor(o));
            (forall l :: l in ls ==>
               !(l.prep == InCorner && (l.element == MiddleOfRoom || l.element == Ceiling)) &&
               (!o.onFloor ==> l.element != MiddleOfRoom)) &&
            (forall l :: l in o.placement.layout && (o.onFloor || l.element != MiddleOfRoom) ==> CornerToOn(l) in ls)
  {
    var d := DropFloor(o);
    var ls := MapCornerToOn(d);
    MapCornerToOnAt(d);
    WithoutElementMembers(o.placement.layout, MiddleOfRoom);
    forall l | l in ls
      ensures !(l.prep == InCorner && (l.element == MiddleOfRoom || l.element == Ceiling))
      ensures !o.onFloor ==> l.element != MiddleOfRoom
    {
      var i :| 0 <= i < |ls| && ls[i] == l;
      assert l == CornerToOn(d[i]) && d[i] in d;
    }
    forall l | l in o.placement.layout && (o.onFloor || l.element != MiddleOfRoom)
      ensures CornerToOn(l) in ls
    {
      assert l in d;
      var i :| 0 <= i < |d| && d[i] == l;
      assert ls[i] == CornerToOn(l);
    }
  }

  /** The loop over the objects stops at the first failure and otherwise keeps every result in order. */
  lemma {:induction false} CollectEffect(rs: seq<Result<SceneObject, SceneError>>, n: nat)
    requires n <= |rs|
    ensures Collect(rs, n).Err? <==> exists i :: 0 <= i < n && rs[i].Err?
    ensures Collect(rs, n).Ok? ==>
              |Collect(rs, n).value| == n &&
              forall i :: 0 <= i < n ==> rs[i].Ok? && Collect(rs, n).value[i] == rs[i].value
    decreases n
  {
    if n > 0 {
      CollectEffect(rs, n - 1);
    }
  }

  /** Preprocessing fails exactly on an unresolvable reference and otherwise keeps the objects in order. */
  lemma PreprocessEffect(sg: seq<SceneObject>)
    requires MiddleOfRoom !in Ids(sg)
    ensures PreprocessSpec(sg).Err? <==>
              exists i, j :: 0 <= i < |sg| && 0 <= j < |sg[i].placement.objects| && !Resolvable(sg[i].placement.objects[j], Ids(sg))
    ensures PreprocessSpec(sg).Ok? ==>
              var r := PreprocessSpec(sg).value;
              |r| == |sg| && forall i :: 0 <= i < |sg| ==> Outcomes(sg)[i].Ok? && r[i] == Outcomes(sg)[i].value
  {
    var rs := Outcomes(sg);
    CollectEffect(rs, |sg|);
    forall i | 0 <= i < |sg|
      ensures rs[i].Err? <==> exists j :: 0 <= j < |sg[i].placement.objects| && !Resolvable(sg[i].placement.objects[j], Ids(sg))
    {
      PreprocessObjectEffect(sg[i], Ids(sg));
    }
  }

  /** On success every object keeps its id and place, and only references to known ids remain. */
  lemma PreprocessResolvesReferences(sg: seq<SceneObject>)
    requires MiddleOfRoom !in Ids(sg) && PreprocessSpec(sg).Ok?
    ensures var r := PreprocessSpec(sg).value;
            Ids(r) == Ids(sg) &&
            forall i, e :: 0 <= i < |r| && e in r[i].placement.objects ==> e.target in Ids(sg) && e.target != MiddleOfRoom
  {
    PreprocessEffect(sg);
    var r := PreprocessSpec(sg).value;
    forall i | 0 <= i < |r|
      ensures r[i].id == sg[i].id
      ensures forall e :: e in r[i].placement.objects ==> e.target in Ids(sg) && e.target != MiddleOfRoom
    {
      PreprocessObjectEffect(sg[i], Ids(sg));
      CleanEdgesResolved(sg[i].placement.objects, Ids(sg));
    }
  }
}
