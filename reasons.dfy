/**
 * The error dictionary of the placement search (`errors[key] = 1 + errors.get(key, 0)`) and
 * `get_no_overlap_reason` of utils.py, which names the pairs of regions of an object that do
 * not intersect.
 */
module Reasons {
  import opened Wrappers
  import opened Geometry
  import opened Constraints
  import opened Scene
  import opened Positions

  /** The keys of the error dictionary. */
  datatype ErrorKey =
    | NoPositionsFound(id: string)                                        // ("no_positions_found", id)
    | NoOverlapWithCluster(id: string, ref: string, prep: Prep)           // ("no_overlap", id, ref, prep, "cluster")
    | NoOverlapPair(id: string, ref1: string, prep1: Prep, ref2: string, prep2: Prep)

  type Errors = map<ErrorKey, nat>

  /** `errors.get(key, 0)`. */
  function Count(m: Errors, key: ErrorKey): nat {
    if key in m then m[key] else 0
  }

  /** `errors[key] = 1 + errors.get(key, 0)`. */
  function Bump(m: Errors, key: ErrorKey): (r: Errors)
    ensures r.Keys == m.Keys + {key}
    ensures Count(r, key) == Count(m, key) + 1
    ensures forall k :: k != key ==> Count(r, k) == Count(m, k)
  {
    m[key := Count(m, key) + 1]
  }

  /** Adding a child's errors to the parent's: counts of shared keys add up. */
  function Merge(a: Errors, b: Errors): (r: Errors)
    ensures r.Keys == a.Keys + b.Keys
    ensures forall k :: Count(r, k) == Count(a, k) + Count(b, k)
  {
    map k | k in a.Keys + b.Keys :: Count(a, k) + Count(b, k)
  }

  // ---------------------------------------------------------------- the pairs that do not intersect

  /** The pairs `(i, j)` with `i < j < m` that meet `cond`, in loop order. */
  function Pairs(cond: (nat, nat) -> bool, i: nat, m: nat): seq<(nat, nat)>
    decreases m
  {
    if m <= i + 1 then [] else Pairs(cond, i, m - 1) + if cond(i, m - 1) then [(i, m - 1)] else []
  }

  /** The pairs of rows `0 .. n - 1`, each row running up to `size`. */
  function PairRows(cond: (nat, nat) -> bool, n: nat, size: nat): seq<(nat, nat)>
    decreases n
  {
    if n == 0 then [] else PairRows(cond, n - 1, size) + Pairs(cond, n - 1, size)
  }

  lemma InConcat<T>(a: seq<T>, b: seq<T>, x: T)
    ensures x in a + b <==> x in a || x in b
  {
  }

  lemma {:induction false} InPairs(cond: (nat, nat) -> bool, i: nat, m: nat, a: nat, b: nat)
    ensures (a, b) in Pairs(cond, i, m) ==> a == i && i < b < m && cond(i, b)
    ensures a == i && i < b < m && cond(i, b) ==> (a, b) in Pairs(cond, i, m)
    decreases m
  {
    if m > i + 1 {
      InPairs(cond, i, m - 1, a, b);
      var more: seq<(nat, nat)> := if cond(i, m - 1) then [(i, m - 1)] else [];
      InConcat(Pairs(cond, i, m - 1), more, (a, b));
    }
  }

  lemma {:induction false} InPairRows(cond: (nat, nat) -> bool, n: nat, size: nat, a: nat, b: nat)
    ensures (a, b) in PairRows(cond, n, size) ==> a < n && a < b < size && cond(a, b)
    ensures a < n && a < b < size && cond(a, b) ==> (a, b) in PairRows(cond, n, size)
    decreases n
  {
    if n > 0 {
      var rows, row := PairRows(cond, n - 1, size), Pairs(cond, n - 1, size);
      assert PairRows(cond, n, size) == rows + row;
      InPairRows(cond, n - 1, size, a, b);
      InPairs(cond, n - 1, size, a, b);
      InConcat(rows, row, (a, b));
      if a == n - 1 {
        assert (a, b) !in rows;
      } else {
        assert (a, b) !in row;
      }
    }
  }

  /** Two different regions that do not intersect. */
  predicate Disjoint(boxes: seq<Box>, i: nat, j: nat)
    requires i < |boxes| && j < |boxes|
  {
    boxes[i] != boxes[j] && CalculateOverlap(Some(boxes[i]), Some(boxes[j])).None?
  }

  /** `Disjoint` as the test of the nested loops. */
  function DisjointIn(boxes: seq<Box>): (nat, nat) -> bool {
    (i: nat, j: nat) => i < |boxes| && j < |boxes| && Disjoint(boxes, i, j)
  }

  /** The pairs `(i, j)` with `i < j < m` of row `i` of the nested loops, in loop order. */
  function Row(boxes: seq<Box>, i: nat, m: nat): seq<(nat, nat)> {
    Pairs(DisjointIn(boxes), i, m)
  }

  /** `overlaps` after the rows `0 .. n - 1` of the nested loops. */
  function Rows(boxes: seq<Box>, n: nat): seq<(nat, nat)> {
    PairRows(DisjointIn(boxes), n, |boxes|)
  }

  lemma RowMembers(boxes: seq<Box>, i: nat, m: nat)
    requires i < |boxes| && m <= |boxes|
    ensures forall p :: p in Row(boxes, i, m) <==> p.0 == i && i < p.1 < m && Disjoint(boxes, i, p.1)
  {
    forall p: (nat, nat) ensures p in Row(boxes, i, m) <==> p.0 == i && i < p.1 < m && Disjoint(boxes, i, p.1) {
      InPairs(DisjointIn(boxes), i, m, p.0, p.1);
    }
  }

  /** The nested loops list exactly the pairs of different, non-intersecting regions. */
  lemma RowsMembers(boxes: seq<Box>, n: nat)
    requires n <= |boxes|
    ensures forall p :: p in Rows(boxes, n) <==> p.0 < n && p.0 < p.1 < |boxes| && Disjoint(boxes, p.0, p.1)
  {
    forall p: (nat, nat) ensures p in Rows(boxes, n) <==> p.0 < n && p.0 < p.1 < |boxes| && Disjoint(boxes, p.0, p.1) {
      InPairRows(DisjointIn(boxes), n, |boxes|, p.0, p.1);
    }
  }

  /** The nested loops of `get_no_overlap_reason` that fill `overlaps`. */
  method NonOverlappingPairs(boxes: seq<Box>) returns (overlaps: seq<(nat, nat)>)
    ensures overlaps == Rows(boxes, |boxes|)
  {
    overlaps := [];
    for i := 0 to |boxes|
      invariant overlaps == Rows(boxes, i)
    {
      var row: seq<(nat, nat)> := [];
      for j := i + 1 to |boxes|
        invariant row == Row(boxes, i, j)
      {
        if boxes[i] != boxes[j] && CalculateOverlap(Some(boxes[i]), Some(boxes[j])).None? {
          row := row + [(i, j)];
        }
      }
      RowFromStart(boxes, i);
      overlaps := overlaps + row;
    }
  }

  lemma RowFromStart(boxes: seq<Box>, i: nat)
    requires i < |boxes|
    ensures Row(boxes, i, i + 1) == []
  {
  }

  // ---------------------------------------------------------------- keys, as written

  /**
   * The key for pair `(i, j)` when, as in the source, `i` and `j` index the list of all the
   * object's relationships with "cluster" appended. Since `i < j` and "cluster" is last, the
   * branch for `edges[i] == "cluster"` is never taken.
   */
  function KeyAsWritten(id: string, edges: seq<ObjectEdge>, i: nat, j: nat): ErrorKey
    requires i < j <= |edges|
  {
    if j == |edges| then NoOverlapWithCluster(id, edges[i].target, edges[i].prep)
    else NoOverlapPair(id, edges[i].target, edges[i].prep, edges[j].target, edges[j].prep)
  }

  /** The second loop of `get_no_overlap_reason`, as written, over `overlaps`. */
  function BumpAsWritten(id: string, edges: seq<ObjectEdge>, pairs: seq<(nat, nat)>, errs: Errors): Errors
    requires forall p :: p in pairs ==> p.0 < p.1 <= |edges|
    decreases |pairs|
  {
    if |pairs| == 0 then errs
    else
      var p := pairs[|pairs| - 1];
      Bump(BumpAsWritten(id, edges, pairs[..|pairs| - 1], errs), KeyAsWritten(id, edges, p.0, p.1))
  }

  /**
   * `get_no_overlap_reason(obj, positions, cluster_constraint, errors)` as written: the
   * regions (one per positioned reference, then the cluster area) are numbered by their place
   * in that list, but the key is read from the list of all relationships.
   */
  function NoOverlapReasonAsWritten(o: SceneObject, cands: seq<Candidate>, cluster: Box, errs: Errors): Errors
    requires |cands| <= |AllEdges(o)|
  {
    var boxes := Boxes(cands) + [cluster];
    RowsMembers(boxes, |boxes|);
    BumpAsWritten(o.id, AllEdges(o), Rows(boxes, |boxes|), errs)
  }

  /** The regions of the candidates, in order. */
  function Boxes(cands: seq<Candidate>): (r: seq<Box>)
    ensures |r| == |cands| && forall k :: 0 <= k < |cands| ==> r[k] == cands[k].box
  {
    if |cands| == 0 then [] else [cands[0].box] + Boxes(cands[1..])
  }

  /**
   * Where the misnumbering shows: a bed on the floor and left of a wardrobe that has not been
   * placed yet, whose floor region misses its cluster area. The only disjoint pair is the floor
   * region and the cluster area; the key blames the floor and the unplaced wardrobe instead.
   */
  lemma NoOverlapReasonAsWrittenMisnames()
    ensures var o := SceneObject("bed", Size(2.0, 1.0, 0.5), true, None, Some(R0),
                                 Placement([LayoutEdge(MiddleOfRoom, On)], [ObjectEdge("wardrobe", LeftOf, true)]),
                                 None, None);
            var floor := Box(1.0, 2.0, 1.0, 2.0, 0.25, 0.25);
            var cluster := Box(3.0, 4.0, 3.0, 4.0, 0.0, 3.0);
            var got := NoOverlapReasonAsWritten(o, [Candidate(MiddleOfRoom, On, floor)], cluster, map[]);
            got == map[NoOverlapPair("bed", MiddleOfRoom, On, "wardrobe", LeftOf) := 1] &&
            NoOverlapReason(o.id, [Candidate(MiddleOfRoom, On, floor)], cluster, map[]) ==
              map[NoOverlapWithCluster("bed", MiddleOfRoom, On) := 1]
  {
    var o := SceneObject("bed", Size(2.0, 1.0, 0.5), true, None, Some(R0),
                         Placement([LayoutEdge(MiddleOfRoom, On)], [ObjectEdge("wardrobe", LeftOf, true)]),
                         None, None);
    var floor := Box(1.0, 2.0, 1.0, 2.0, 0.25, 0.25);
    var cluster := Box(3.0, 4.0, 3.0, 4.0, 0.0, 3.0);
    var cands := [Candidate(MiddleOfRoom, On, floor)];
    var boxes := Boxes(cands) + [cluster];
    assert boxes == [floor, cluster];
    assert Rows(boxes, 2) == [(0, 1)] by {
      assert Row(boxes, 1, 2) == [];
      assert Rows(boxes, 1) == Row(boxes, 0, 2);
      assert Row(boxes, 0, 1) == [];
    }
    assert AllEdges(o) == [ObjectEdge(MiddleOfRoom, On, true), ObjectEdge("wardrobe", LeftOf, true)];
    assert [(0, 1)][..0] == [];
  }

  // ---------------------------------------------------------------- keys, corrected

  /** The key for pair `(i, j)` of the regions, read from the relationship each region came from. */
  function KeyOf(id: string, cands: seq<Candidate>, i: nat, j: nat): ErrorKey
    requires i < j <= |cands|
  {
    if j == |cands| then NoOverlapWithCluster(id, cands[i].ref, cands[i].prep)
    else NoOverlapPair(id, cands[i].ref, cands[i].prep, cands[j].ref, cands[j].prep)
  }

  /** The second loop over `overlaps`, each pair keyed by its own regions. */
  function BumpPairs(id: string, cands: seq<Candidate>, pairs: seq<(nat, nat)>, errs: Errors): Errors
    requires forall p :: p in pairs ==> p.0 < p.1 <= |cands|
    decreases |pairs|
  {
    if |pairs| == 0 then errs
    else
      var p := pairs[|pairs| - 1];
      Bump(BumpPairs(id, cands, pairs[..|pairs| - 1], errs), KeyOf(id, cands, p.0, p.1))
  }

  /** `get_no_overlap_reason` with every region paired with the relationship that produced it. */
  function NoOverlapReason(id: string, cands: seq<Candidate>, cluster: Box, errs: Errors): Errors {
    var boxes := Boxes(cands) + [cluster];
    RowsMembers(boxes, |boxes|);
    BumpPairs(id, cands, Rows(boxes, |boxes|), errs)
  }

  /** The key a pair stands for, in terms of the two regions and their relationships. */
  predicate Blames(id: string, cands: seq<Candidate>, cluster: Box, key: ErrorKey) {
    (exists i :: 0 <= i < |cands| && cands[i].box != cluster &&
                 CalculateOverlap(Some(cands[i].box), Some(cluster)).None? &&
                 key == NoOverlapWithCluster(id, cands[i].ref, cands[i].prep)) ||
    (exists i, j :: 0 <= i < j < |cands| && cands[i].box != cands[j].box &&
                    CalculateOverlap(Some(cands[i].box), Some(cands[j].box)).None? &&
                    key == NoOverlapPair(id, cands[i].ref, cands[i].prep, cands[j].ref, cands[j].prep))
  }

  lemma {:induction false} BumpPairsKeys(id: string, cands: seq<Candidate>, pairs: seq<(nat, nat)>, errs: Errors)
    requires forall p :: p in pairs ==> p.0 < p.1 <= |cands|
    ensures forall key :: key in BumpPairs(id, cands, pairs, errs) <==>
              key in errs || exists p :: p in pairs && key == KeyOf(id, cands, p.0, p.1)
    ensures forall key :: Count(BumpPairs(id, cands, pairs, errs), key) >= Count(errs, key)
    decreases |pairs|
  {
    if |pairs| > 0 {
      var pre := pairs[..|pairs| - 1];
      assert forall p :: p in pre ==> p in pairs;
      BumpPairsKeys(id, cands, pre, errs);
      forall p | p in pairs ensures p in pre || p == pairs[|pairs| - 1] {
        var k :| 0 <= k < |pairs| && pairs[k] == p;
        if k < |pairs| - 1 {
          assert pre[k] == p;
        }
      }
    }
  }

  /** Every key a disjoint pair stands for comes from one of the listed pairs. */
  lemma BlamedIsListed(id: string, cands: seq<Candidate>, cluster: Box, key: ErrorKey)
    requires Blames(id, cands, cluster, key)
    ensures var boxes := Boxes(cands) + [cluster];
            exists p :: p in Rows(boxes, |boxes|) && p.0 < p.1 <= |cands| && key == KeyOf(id, cands, p.0, p.1)
  {
    if exists i :: 0 <= i < |cands| && cands[i].box != cluster &&
                   CalculateOverlap(Some(cands[i].box), Some(cluster)).None? &&
                   key == NoOverlapWithCluster(id, cands[i].ref, cands[i].prep) {
      var i :| 0 <= i < |cands| && cands[i].box != cluster &&
               CalculateOverlap(Some(cands[i].box), Some(cluster)).None? &&
               key == NoOverlapWithCluster(id, cands[i].ref, cands[i].prep);
      assert RegionAt(cands, cluster, i) == cands[i].box && RegionAt(cands, cluster, |cands|) == cluster;
      PairListed(cands, cluster, i, |cands|);
      var p := (i, |cands|);
      assert key == KeyOf(id, cands, p.0, p.1);
    } else {
      var i, j :| 0 <= i < j < |cands| && cands[i].box != cands[j].box &&
                  CalculateOverlap(Some(cands[i].box), Some(cands[j].box)).None? &&
                  key == NoOverlapPair(id, cands[i].ref, cands[i].prep, cands[j].ref, cands[j].prep);
      assert RegionAt(cands, cluster, i) == cands[i].box && RegionAt(cands, cluster, j) == cands[j].box;
      PairListed(cands, cluster, i, j);
      var p := (i, j);
      assert key == KeyOf(id, cands, p.0, p.1);
    }
  }

  /** The region of index `j`, the cluster area coming after the candidates. */
  function RegionAt(cands: seq<Candidate>, cluster: Box, j: nat): Box
    requires j <= |cands|
  {
    if j == |cands| then cluster else cands[j].box
  }

  lemma PairListed(cands: seq<Candidate>, cluster: Box, i: nat, j: nat)
    requires i < j <= |cands|
    requires RegionAt(cands, cluster, i) != RegionAt(cands, cluster, j)
    requires CalculateOverlap(Some(RegionAt(cands, cluster, i)), Some(RegionAt(cands, cluster, j))).None?
    ensures var boxes := Boxes(cands) + [cluster]; (i, j) in Rows(boxes, |boxes|)
  {
    var boxes := Boxes(cands) + [cluster];
    RowsMembers(boxes, |boxes|);
    assert boxes[i] == RegionAt(cands, cluster, i) && boxes[j] == RegionAt(cands, cluster, j);
  }

  /** Every listed pair stands for a key of two disjoint regions. */
  lemma ListedIsBlamed(id: string, cands: seq<Candidate>, cluster: Box, p: (nat, nat))
    requires var boxes := Boxes(cands) + [cluster]; p in Rows(boxes, |boxes|)
    ensures p.0 < p.1 <= |cands| && Blames(id, cands, cluster, KeyOf(id, cands, p.0, p.1))
  {
    var boxes := Boxes(cands) + [cluster];
    RowsMembers(boxes, |boxes|);
    if p.1 == |cands| {
      assert boxes[p.0] == cands[p.0].box && boxes[p.1] == cluster;
    } else {
      assert boxes[p.0] == cands[p.0].box && boxes[p.1] == cands[p.1].box;
    }
  }

  /**
   * A key is reported exactly when it was reported before or names two different regions of
   * the object (or a region and its cluster area) that do not intersect; no count goes down.
   */
  lemma NoOverlapReasonExact(id: string, cands: seq<Candidate>, cluster: Box, errs: Errors)
    ensures forall key :: key in NoOverlapReason(id, cands, cluster, errs) <==> key in errs || Blames(id, cands, cluster, key)
    ensures forall key :: Count(NoOverlapReason(id, cands, cluster, errs), key) >= Count(errs, key)
  {
    var boxes := Boxes(cands) + [cluster];
    var pairs := Rows(boxes, |boxes|);
    RowsMembers(boxes, |boxes|);
    BumpPairsKeys(id, cands, pairs, errs);
    forall key | Blames(id, cands, cluster, key)
      ensures exists p :: p in pairs && key == KeyOf(id, cands, p.0, p.1)
    {
      BlamedIsListed(id, cands, cluster, key);
    }
    forall p | p in pairs ensures Blames(id, cands, cluster, KeyOf(id, cands, p.0, p.1)) {
      ListedIsBlamed(id, cands, cluster, p);
    }
  }

  /**
   * When every reference is positioned, so that region `k` came from relationship `k`, the
   * source's numbering is right and both versions report the same keys.
   */
  lemma AsWrittenAgreesWhenAligned(o: SceneObject, cands: seq<Candidate>, cluster: Box, errs: Errors)
    requires |cands| == |AllEdges(o)|
    requires forall k :: 0 <= k < |cands| ==> cands[k].ref == AllEdges(o)[k].target && cands[k].prep == AllEdges(o)[k].prep
    ensures NoOverlapReasonAsWritten(o, cands, cluster, errs) == NoOverlapReason(o.id, cands, cluster, errs)
  {
    var boxes := Boxes(cands) + [cluster];
    RowsMembers(boxes, |boxes|);
    BumpAgree(o.id, AllEdges(o), cands, Rows(boxes, |boxes|), errs);
  }

  lemma {:induction false} BumpAgree(id: string, edges: seq<ObjectEdge>, cands: seq<Candidate>, pairs: seq<(nat, nat)>, errs: Errors)
    requires |cands| == |edges|
    requires forall k :: 0 <= k < |cands| ==> cands[k].ref == edges[k].target && cands[k].prep == edges[k].prep
    requires forall p :: p in pairs ==> p.0 < p.1 <= |cands|
    ensures BumpAsWritten(id, edges, pairs, errs) == BumpPairs(id, cands, pairs, errs)
    decreases |pairs|
  {
    if |pairs| > 0 {
      var pre := pairs[..|pairs| - 1];
      assert forall p :: p in pre ==> p in pairs;
      BumpAgree(id, edges, cands, pre, errs);
    }
  }

  /** The second loop over `overlaps` one pair further. */
  lemma BumpPairsNext(id: string, cands: seq<Candidate>, pairs: seq<(nat, nat)>, k: nat, errs: Errors)
    requires forall p :: p in pairs ==> p.0 < p.1 <= |cands|
    requires k < |pairs|
    ensures pairs[k].0 < pairs[k].1 <= |cands|
    ensures BumpPairs(id, cands, pairs[..k + 1], errs) ==
            Bump(BumpPairs(id, cands, pairs[..k], errs), KeyOf(id, cands, pairs[k].0, pairs[k].1))
  {
    assert pairs[k] in pairs;
    assert pairs[..k + 1][..k] == pairs[..k];
  }

  /** `get_no_overlap_reason`, with each region keyed by its own relationship. */
  method GetNoOverlapReason(id: string, cands: seq<Candidate>, cluster: Box, errs: Errors) returns (r: Errors)
    ensures r == NoOverlapReason(id, cands, cluster, errs)
  {
    var boxes := Boxes(cands) + [cluster];
    var overlaps := NonOverlappingPairs(boxes);
    RowsMembers(boxes, |boxes|);
    r := errs;
    for k := 0 to |overlaps|
      invariant r == BumpPairs(id, cands, overlaps[..k], errs)
    {
      BumpPairsNext(id, cands, overlaps, k, errs);
      var p := overlaps[k];
      r := Bump(r, KeyOf(id, cands, p.0, p.1));
    }
    assert overlaps[..|overlaps|] == overlaps;
  }
}
