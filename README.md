# IDesign layout engine in Dafny

IDesign turns a qualitative scene graph into a furnished room. Each object of the graph has a size, a floor flag, an optional facing, and placement relationships. A relationship ties the object either to a room layout element or to another object. Room layout elements are the four walls, the floor ("middle of the room") and the ceiling. Each relationship carries a preposition ("on", "left of", "in the corner", ...) and an adjacency flag.

This project models the part of IDesign that works on that graph:

- **Constraint interval engine** (`constraint_functions.py`, module `Constraints`). One function per preposition computes the box of admissible centre positions of an object relative to a positioned reference: raw bounds, then the swap that orders each pair of bounds, then the clamp into the room.
- **Geometry** (`Geometry`). Rotations, the box intersection `calculate_overlap`, thin objects, and the rotation-aware collision test `is_collision_3d`.
- **Scene graph** (`Scene`). The room priors (`get_room_priors`) and rotation inference (`get_rotation`).
- **Graph** (`Graph`, `Rewrites`, `Preprocess`). The networkx digraph as node and edge sequences, `build_graph`, `preprocess_scene_graph`, `remove_unnecessary_edges` and `handle_under_prepositions`.
- **Conflict checks** (`Conflicts`, `Relations`, `Sides`, `Sizes`). `find_room_layout_conflicts`, `check_corner_relationships`, the wall, corner and sibling impossibility checks, `get_conflicts` and `check_size_conflicts`. A conflict message is modelled as a record of the data it names.
- **Footprints** (`Cluster`). The recursive `get_cluster_size`.
- **Depth** (`Depth`). The DFS of `get_depth`.
- **Placement** (`Positions`, `Reasons`, `Placing`). `get_possible_positions`, the error dictionary with `get_no_overlap_reason`, and the resampling, recursive `place_object`.
- **The `IDesign` class** (`Design`). `create_object_clusters` and `backtrack`, as a class whose methods update `sceneGraph` and the random state.

Loops of the source are methods with loop invariants, each proved equal to a fold function over its inputs. The properties of the source are lemmas about those folds.

Modelling choices:

- Lengths are reals.
- Rotations are the four quarter turns.
- A topological order of the graph, which the source obtains from networkx, is a parameter, with the precondition that it is one.
- An exception of the source is an `Err` value.
- `random.uniform` draws from an explicit linear congruential state, which is threaded through the calls.

## Model

| member | source | states |
|---|---|---|
| Geometry.Degrees | utils.py:48-55 | a rotation is a whole number of quarter turns in [0, 360) |
| Geometry.Quarter | utils.py:298 | `rotation // 90` is below 4 and times 90 gives the angle back |
| Geometry.FromQuarter | utils.py:298-299 | the rotation for a quarter index taken mod 4 has that quarter count |
| Geometry.Oriented | utils.py:829-831 | length and width are exchanged exactly at 90 and 270 degrees; height never changes |
| Geometry.CalculateOverlap | utils.py:794-809 | None if either box is None; otherwise a box exists iff on every axis max-of-mins <= min-of-maxes + 1e-3, and it lies inside both with each bound taken from one of them |
| Geometry.CalculateOverlapCommutes | utils.py:794-809 | intersection is symmetric in its two boxes |
| Geometry.OverlapAllNoneAbsorbs | utils.py:1033-1035 | once the chained intersection is None it stays None |
| Geometry.OverlapAllInside | utils.py:1047-1049 | a chained intersection that exists lies inside the starting box and inside every box intersected |
| Geometry.CollisionSymmetric | utils.py:811-862 | the collision test gives the same answer with its two objects exchanged |
| Geometry.ThinNeverCollides | utils.py:814-821 | an object whose largest dimension is at least 40 times its positive smallest one collides with nothing |
| Geometry.TouchingIsNotCollision | utils.py:842-843 | faces within 1e-3 of touching on any axis are not a collision, in either order |
| Constraints.Margin | constraint_functions.py:125-126 | the lateral term `((adj*w) - (not adj*w))/2` is w/2 when adjacent with w nonzero and -1/2 otherwise |
| Constraints.NormaliseXY | constraint_functions.py:143-146 | after the swap, each x and y pair is (min, max) of the raw pair and z is untouched |
| Constraints.NormaliseXYZ | constraint_functions.py:53-58 | after the swap, every pair, z included, is (min, max) of the raw pair |
| Constraints.ClampXY | constraint_functions.py:148-151 | x_min >= lA/2 and y_min >= wA/2; x_max lies in [lA/2, max(lA/2, L - lA/2)] (likewise y); an in-room x_max or y_max is kept, and min > max stays possible |
| Constraints.ClampXYZ | constraint_functions.py:60-65 | the x/y clamp plus z_min >= hA/2 and z_max clamped into [hA/2, max(hA/2, H - hA/2)] |
| Constraints.OnConstraint | constraint_functions.py:3-67 | clamped into the room, z_min >= hA/2, and a floor object on anything but the ceiling has z exactly hA/2 |
| Constraints.UnderConstraint | constraint_functions.py:69-105 | clamped into the room, z_min >= hA/2, and z is exactly hA/2 for a floor object |
| Constraints.LeftOfConstraint | constraint_functions.py:108-154 | clamped in x/y; z is exactly hA/2 on the floor, and otherwise z_max is H - hA/2 |
| Constraints.RightOfConstraint | constraint_functions.py:157-201 | clamped in x/y; z is exactly hA/2 on the floor, and otherwise z_max is H - hA/2 |
| Constraints.InFrontConstraint | constraint_functions.py:203-248 | clamped in x/y; z is exactly hA/2 on the floor, and otherwise z_max is H - hA/2 |
| Constraints.BehindConstraint | constraint_functions.py:250-294 | clamped in x/y; z is exactly hA/2 on the floor, and otherwise z_max is H - hA/2 |
| Constraints.AboveConstraint | constraint_functions.py:296-343 | clamped in x/y; z_min clamped into [hA/2, max(hA/2, H - hA/2)]; z_max is hA/2 on the floor and H otherwise |
| Constraints.InCornerConstraint | constraint_functions.py:346-380 | a degenerate z pair (hA/2 on the floor); y_1 = y_2 for a reference at 0 or 180 and x_1 = x_2 at 90 or 270; no clamp |
| Constraints.LeftOfAdjacentAtR0 | constraint_functions.py:119-126 | adjacent "left of" a reference at 0 degrees: x = x_B - lB/2 - lA/2 and y in [y_B - wB/2 + wA/2, y_B + wB/2 - wA/2] |
| Constraints.LeftRightMirrorAtR0 | constraint_functions.py:108-201 | adjacent left-of and right-of at 0 degrees mirror each other about x_B, with identical y and z ranges |
| Constraints.LeftOfRelaxedAtR0 | constraint_functions.py:122-126 | not adjacent: the far bound relaxes to lA/2, and the lateral range widens by 0.5 on each side |
| Constraints.InFrontRelaxedAtR0 | constraint_functions.py:203-248 | not adjacent "in front" at 0 degrees: y_max relaxes to W - wA/2, and the x range widens by 0.5 on each side |
| Constraints.LeftOfUsesRotatedA | constraint_functions.py:115-124 | A's length and width are exchanged at 90/270 before use |
| Constraints.OnUsesRotatedB | constraint_functions.py:13-24 | in on/under, a sideways reference contributes its width along x |
| Constraints.ChairLeftOfDesk | constraint_functions.py:108-154 | a 0.5 x 0.5 x 0.9 floor chair left of a 1.2 x 0.6 desk at (2, 2) in a 4 x 4 x 2.5 room gets x = 1.15, y in [1.95, 2.05], z = 0.45 |
| Scene.GetRoomPriors | utils.py:12-26 | six entries with distinct layout ids, each positioned, rotated and without relationships |
| Scene.RoomPriorsAreRoomFaces | utils.py:17-24 | the four walls, the floor and the ceiling span exactly the faces of the room box |
| Scene.SouthNorthFaces | utils.py:18-19 | the south and north walls span the room's length at y = 0 and y = W, over the full height |
| Scene.EastWestFaces | utils.py:20-21 | the east and west walls span the room's width at x = L and x = 0, over the full height |
| Scene.FloorCeilingFaces | utils.py:22-23 | the floor covers the room at z = 0 and the ceiling sits at z = H |
| Scene.FacingAWallIsOpposite | utils.py:48-55 | the rotation given to an object facing a wall is a half turn from that wall's own rotation |
| Scene.Find | utils.py:577-581 | the entry found has the id, and nothing is found iff no entry has it |
| Scene.IndexOf | utils.py:905 | the index of the first entry with the id (the `[...][0]` lookup), or None iff there is none |
| Scene.Ids | utils.py:111 | the ids of the scene graph, in order |
| Scene.FirstMissing | utils.py:65-70 | None iff every parent reference is found; otherwise an unfound reference that is listed |
| Scene.RotationPrecedence | utils.py:57-62 | an explicit rotation wins; then facing a layout element; then the object's own layout id |
| Scene.RotationFallback | utils.py:63-76 | with no own rotation, a missing parent raises, and no parent gives 0 |
| Scene.RotationIsInherited | utils.py:46-77 | a resolved rotation is 0, the object's own, or the own rotation of some entry of the scene graph |
| Scene.RotationFuelMonotone | utils.py:72-74 | more recursion budget never changes a rotation already resolved |
| Graph.AddNode | utils.py:124-125 | `add_node` adds exactly the node and keeps the edges and well-formedness |
| Graph.Reweight | utils.py:130 | re-adding an edge overwrites its weight in place |
| Graph.ReweightMembers | utils.py:130 | after re-adding, the edges are the new one plus every other edge |
| Graph.AddEdge | utils.py:130 | `add_edge` adds both end nodes and replaces any edge of the same pair; the graph stays well-formed |
| Graph.WithoutPair | utils.py:193 | the edges without the (u, v) edge |
| Graph.RemoveEdge | utils.py:193 | `remove_edge` removes exactly that edge and keeps the nodes |
| Graph.WithoutString | utils.py:216 | the node list without the node, still duplicate-free |
| Graph.WithoutTouching | utils.py:216 | the edges that do not touch the node |
| Graph.RemoveNode | utils.py:215-216 | `remove_node` removes the node and every edge touching it |
| Graph.PredsIn | utils.py:144 | the predecessors of v are exactly the sources of edges into v |
| Graph.SuccsIn | utils.py:365 | the successors of u are exactly the targets of edges out of u |
| Graph.WeightIn | utils.py:165 | the weight exists iff the edge does, and belongs to it |
| Graph.WeightOfEdge | utils.py:165 | in a well-formed graph `G[u][v]["weight"]` is the weight of the edge (u, v) |
| Graph.Rank | utils.py:397 | the position of a node in the order, unique when the order is duplicate-free |
| Graph.EdgeGoesForward | utils.py:140 | in a topological order every edge goes from an earlier to a later node |
| Graph.BuildGraph | utils.py:120-135 | the loop builds the graph defined by the fold over the scene graph |
| Graph.AddLayoutLoop | utils.py:127-130 | the loop over the layout relationships equals its fold |
| Graph.AddObjectLoop | utils.py:131-134 | the loop over the object relationships equals its fold |
| Graph.LayoutEdgesSound | utils.py:127-130 | every edge added runs from a listed layout element into the object, with that relationship's weight |
| Graph.ObjectEdgesSound | utils.py:131-134 | every edge added runs from a listed object into the object, with that relationship's weight |
| Graph.BuildGraphSound | utils.py:120-135 | every edge comes from a listed relationship, and every node is an object or something an object lists |
| Graph.LayoutEdgesKeep | utils.py:127-130 | adding layout edges keeps every node and edge, and adds an edge from each listed element |
| Graph.ObjectEdgesKeep | utils.py:131-134 | adding object edges keeps every node and edge, and adds an edge from each listed reference |
| Graph.BuildGraphComplete | utils.py:120-135 | every object is a node, and every relationship of every object is an edge into it |
| Graph.BuildGraphWellFormed | utils.py:120-135 | the graph built has distinct nodes, edge ends that are nodes, and one edge per pair |
| Graph.LayoutWellFormed | utils.py:127-130 | adding layout edges keeps the graph well-formed |
| Graph.ObjectWellFormed | utils.py:131-134 | adding object edges keeps the graph well-formed |
| Preprocess.FirstContaining | utils.py:112 | an id containing the text such that no id before it does, so the first; None iff no id contains it |
| Preprocess.WithoutElementMembers | utils.py:102 | filtering keeps exactly the relationships not to the element |
| Preprocess.MapCornerToOnAt | utils.py:103-105 | entry by entry, "in the corner" of the floor or the ceiling becomes "on" |
| Preprocess.DropFloorRefs | utils.py:109 | the current list loses exactly the references to the floor; records are shared |
| Preprocess.VisitEdge | utils.py:106-117 | an iteration that succeeds keeps the loop state well-formed |
| Preprocess.FixEdgesUpTo | utils.py:106-117 | a loop prefix that succeeds leaves a well-formed state |
| Preprocess.CornersToOn | utils.py:103-105 | the loop rewrites the layout relationships as the map does |
| Preprocess.FixEdges | utils.py:106-117 | the loop over `objects_in_room` equals its fold, raising where the fold does |
| Preprocess.PreprocessObject | utils.py:99-117 | one object's iteration equals its specification |
| Preprocess.PreprocessSceneGraph | utils.py:97-118 | the whole pass equals the fold: the first failure, or every object preprocessed in order |
| Preprocess.PreprocessNext | utils.py:99-117 | one more object of the pass extends the fold by one result |
| Preprocess.FixEdgesFails | utils.py:111-117 | the loop raises iff some reference so far is neither the floor, a known id, nor a substring of one; later records are untouched |
| Preprocess.VisitEdgeFails | utils.py:111-117 | one iteration raises iff its reference is unresolvable, and leaves later records alone |
| Preprocess.RepairedKeepsFloor | utils.py:111-114 | renaming never produces the floor when no id is the floor |
| Preprocess.VisitEdgeInv | utils.py:106-117 | each iteration keeps the loop invariant in terms of the original list |
| Preprocess.FixEdgesInv | utils.py:106-117 | the loop invariant holds after any successful prefix |
| Preprocess.CurrentIsKept | utils.py:106-110 | the live records are the non-floor references in their original order |
| Preprocess.FixObjectEdgesIsClean | utils.py:106-117 | the loop raises iff some reference is unresolvable, and otherwise yields the references with those to the floor dropped and the rest repaired, in order |
| Preprocess.KeptFrom | utils.py:106-110 | every kept reference comes from a non-floor reference of the original list |
| Preprocess.CleanEdgesResolved | utils.py:106-117 | after repair every reference names a known object, none names the floor, prepositions and adjacency are kept, and the list does not grow |
| Preprocess.PreprocessObjectEffect | utils.py:99-117 | an object keeps everything but its relationships; no corner-of-floor/ceiling and, off the floor, no floor relationship remains; every kept layout relationship is present |
| Preprocess.LayoutEffect | utils.py:100-105 | the layout relationships after the floor drop and the corner rewrite |
| Preprocess.CollectEffect | utils.py:99 | the pass fails iff some object fails, and otherwise keeps every result in order |
| Preprocess.PreprocessEffect | utils.py:97-118 | preprocessing raises iff some reference is unresolvable, and otherwise yields each object's preprocessed form |
| Preprocess.PreprocessResolvesReferences | utils.py:97-118 | on success the ids are unchanged and every object reference names a known object other than the floor |
| Rewrites.RemoveUnnecessaryEdges | utils.py:179-194 | the loop over the topological order equals its fold |
| Rewrites.PruneLoop | utils.py:190-193 | the loop over the parents equals its fold |
| Rewrites.WithoutPairKeepsOthers | utils.py:193 | removing an edge into n leaves the parents and weights of every other node |
| Rewrites.PruneParentsKeepsOthers | utils.py:190-193 | pruning the parents of n leaves every other node's parents and weights |
| Rewrites.RemoveUnnecessaryKeepsOthers | utils.py:184-193 | nodes not yet visited keep their parents and weights |
| Rewrites.PruneParentsEffect | utils.py:190-193 | pruning removes exactly the non-corner edges from the listed parents into n |
| Rewrites.RemoveUnnecessaryEffect | utils.py:179-194 | all nodes stay; the removed edges are exactly the non-corner edges into nodes that have a corner edge and more than two parents |
| Rewrites.RemoveUnnecessaryKeepsCorners | utils.py:187-193 | corner edges are never removed, a pruned node keeps only corner edges, and other nodes keep all their edges |
| Rewrites.WithoutId | utils.py:214 | the scene graph without the entries of that id |
| Rewrites.HandleUnderPrepositions | utils.py:196-217 | the two loops equal their specification |
| Rewrites.ToRemoveMembers | utils.py:202-211 | the first loop raises iff a node with an "under" edge has no entry; otherwise it lists exactly the non-thin objects under something and their direct children |
| Rewrites.RemoveAllEffect | utils.py:212-216 | removal drops exactly the listed nodes with their edges and their entries, and keeps the graph well-formed |
| Rewrites.HandleUnderEffect | utils.py:196-217 | `handle_under_prepositions` raises iff a node under something has no entry; otherwise the doomed nodes, their edges and their entries are removed and nothing else |
| Conflicts.FindRoomLayoutConflicts | utils.py:137-177 | the loop over the topological order equals its fold |
| Conflicts.DifferentLayouts | utils.py:146-162 | the flag loop computes exactly "a later parent's entry differs from the first's" |
| Conflicts.RoomLayoutFails | utils.py:143-173 | the check raises exactly at an object node that has no parent (`parents_room_layout[0]`) |
| Conflicts.ScanNodeFails | utils.py:143-173 | one iteration raises iff its node is an object without parents |
| Conflicts.ScanFrame | utils.py:141-176 | only visited nodes get an entry, and every element entry names a layout element |
| Conflicts.ScanKeeps | utils.py:142-176 | later iterations never rewrite an earlier node's entry and only append conflicts |
| Conflicts.ParentsSettled | utils.py:144-145 | in a topological order a node's parents have their final entries when it is visited |
| Conflicts.RoomLayoutLabels | utils.py:163-176 | a layout element is labelled by itself; an object with agreeing parents inherits the first parent's label, and one with disagreeing parents gets the empty entry |
| Conflicts.LabelOfStep | utils.py:163-176 | the label one iteration writes, in terms of the parents' settled labels |
| Conflicts.DisputedMembers | utils.py:163-168 | the disputed list holds exactly one report per node whose parents disagree |
| Conflicts.ConflictsAreDisputed | utils.py:163-168 | the conflicts of each prefix are the disputed nodes of that prefix |
| Conflicts.DisputedStep | utils.py:163-168 | one iteration appends a report exactly when its node is disputed |
| Conflicts.RoomLayoutConflictsExact | utils.py:137-177 | the reports are exactly the objects whose parents' layout entries disagree while not every edge is a corner edge and no parent is the ceiling; each names at least two parents |
| Conflicts.OccupantsMembers | utils.py:233-243 | a corner's occupants are exactly the objects with both its walls as parents |
| Conflicts.OccupantsCrowded | utils.py:248-250 | a corner has more than one occupant iff two distinct positions of the order occupy it |
| Conflicts.CrowdedWitness | utils.py:248-250 | more than one occupant yields two positions that occupy the corner |
| Conflicts.CrowdedFrom | utils.py:248-250 | two positions that occupy the corner give more than one occupant |
| Conflicts.CornerOccupants | utils.py:237-242 | the loop collects the occupants of one corner |
| Conflicts.CornerOccupancy | utils.py:233-243 | `find_corner_occupancy` lists the occupants of each of the four corners |
| Conflicts.FindCornerVacancy | utils.py:220-231 | `find_corner_vacancy` returns the corners no object occupies |
| Conflicts.CheckCornerRelationships | utils.py:219-267 | the loops equal their fold |
| Conflicts.CrowdedMembers | utils.py:248-253 | one report per corner with more than one occupant, naming the occupants and the vacant corners |
| Conflicts.LonelyMembers | utils.py:256-266 | one report per object with a corner edge and a single parent |
| Conflicts.CornerRelationshipsExact | utils.py:219-267 | reports are exactly the crowded corners (with their occupants) and the single-parent corner objects, each with the vacant corners; a crowded corner is never vacant |
| Relations.DirAt | utils.py:269 | the four directional prepositions in the source's order |
| Relations.DirIndex | utils.py:297 | `directional_preps.index`, inverse of the table |
| Relations.Turned | utils.py:297-299 | turning a direction by a rotation gives a direction |
| Relations.Opposite | utils.py:374 | the index two places on gives a direction |
| Relations.WallImpossible | utils.py:274-279 | the blocked side of each wall is a direction |
| Relations.DirIndexOf | utils.py:297 | the table index is the inverse of the table |
| Relations.TurnedLaws | utils.py:297-299 | turning by 0 changes nothing, and turning by a rotation is injective |
| Relations.OppositeLaws | utils.py:374 | the opposite is a half turn, differs from the direction, and is an involution |
| Relations.CornerSidesDiffer | utils.py:294-300 | two different walls of a corner block two different sides after any turn |
| Relations.FilterBy | utils.py:285 | the filter keeps exactly the elements that pass |
| Relations.Rotations | utils.py:286 | the parents' rotations resolve iff each resolves, and are those rotations in order |
| Relations.RotationsFail | utils.py:286 | the rotation list raises iff some parent's rotation raises |
| Relations.ConcatScanMembers | utils.py:328-354 | a scan over the order raises iff some node raises, and otherwise reports exactly the nodes' reports |
| Relations.OnWalls | utils.py:335-337 | only walls are kept as walls the parent stands on |
| Relations.CheckWallImpossibilities | utils.py:317-355 | the loops equal their fold |
| Relations.WallNodeCheck | utils.py:328-353 | one turn of the loop over the topological order gives the node's reports or its exception, and skips layout elements |
| Relations.WallNodeLoop | utils.py:334-353 | the loop over a node's parents equals its fold |
| Relations.WallLoop | utils.py:338-353 | the loop over one parent's walls equals its fold |
| Relations.WallHitsForMembers | utils.py:338-353 | the reports for one parent are exactly the walls whose turned blocked side equals the edge's preposition |
| Relations.WallHitsNodeMembers | utils.py:334-353 | the reports for a node are those of its parents |
| Relations.WallNodeMembers | utils.py:329-353 | a node raises iff some object parent's rotation raises; otherwise its reports are exactly the wall hits of its object parents |
| Relations.WallImpossibilitiesExact | utils.py:317-355 | the check raises iff some object parent's rotation raises, and otherwise reports exactly the (node, object parent, wall) triples where the parent is on a wall and the node's preposition is that wall's blocked side turned by the parent's rotation |
| Relations.ImpossiblePrepsMeaning | utils.py:294-300 | the blocked sides resolve iff every corner parent is a wall, and are each wall's side turned by the rotation |
| Relations.ImpossiblePrepsFails | utils.py:294-300 | the blocked sides raise iff some corner parent is not a wall (`wall_impossible_preps[p_p]`) |
| Relations.ImpossiblePrepsValues | utils.py:294-300 | the blocked sides, one per wall, in order |
| Relations.CheckCornerImpossibilities | utils.py:271-315 | the loops equal their fold |
| Relations.CornerNodeCheck | utils.py:282-314 | one turn of the loop over the topological order gives the node's reports or its exception, and skips layout elements |
| Relations.CornerParentCheck | utils.py:289-314 | one parent's turn: no report without exactly two corner edges, an exception from its blocked sides, otherwise the report when the preposition is one of them |
| Relations.CornerNodeLoop | utils.py:288-314 | the loop over a node's parents equals its fold |
| Relations.ImpossiblePrepsLoop | utils.py:294-300 | the loop over the corner walls equals its fold |
| Relations.CornerHitsForFails | utils.py:289-300 | one parent raises iff it has two corner edges and one is not from a wall |
| Relations.CornerHitsForMembers | utils.py:288-314 | one parent is reported iff it has two corner edges and the node's preposition is one of the turned blocked sides |
| Relations.CornerHitsNodeFails | utils.py:288-314 | a node's parents raise iff one of them does |
| Relations.CornerHitsNodeMembers | utils.py:288-314 | the reports for a node are those of its parents |
| Relations.CornerNodeMembers | utils.py:283-314 | a node raises iff an object parent's rotation or blocked sides raise; otherwise its reports are exactly the corner hits of its object parents |
| Relations.CornerImpossibilitiesExact | utils.py:271-315 | the check raises iff some object parent's rotation or blocked sides raise, and otherwise reports exactly the nodes that stand on a turned blocked side of an object parent in a corner |
| Relations.CornerReportSidesDiffer | utils.py:305-307 | a corner report names two different blocked sides |
| Sides.CheckImpossibleRelationships | utils.py:357-381 | the loops equal their fold |
| Sides.SideNodeLoop | utils.py:368-380 | the loop over a node's parents equals its fold |
| Sides.SideLoop | utils.py:375-380 | the loop over a node's children equals its fold |
| Sides.SideHitsForMembers | utils.py:375-380 | the reports for one parent are exactly the children adjacent on the side that parent takes |
| Sides.SideHitsParent | utils.py:369-380 | the conflicts for one parent are exactly the children blocked on the side that parent takes |
| Sides.SideHitsNodeMembers | utils.py:368-380 | the reports for a node are exactly the blocked (parent, child) pairs |
| Sides.ImpossibleRelationshipsExact | utils.py:357-381 | the check raises iff some object's rotation raises, and otherwise reports exactly the pairs where an object parent stands adjacent to n in a direction and a child of n is adjacent on the side of n, turned by n's rotation, that the parent takes |
| Sides.TakenSideUnrotated | utils.py:371-374 | for an unrotated node the side taken is the opposite of the parent's preposition, never the preposition itself |
| Sides.GetConflicts | utils.py:85-91 | `get_conflicts` equals its specification |
| Sides.AllConflictsExact | utils.py:85-91 | the gathered conflicts are exactly those of the five checks; the graph is conflict-free iff every check passes with nothing to report |
| Cluster.WithSide | utils.py:431-433 | setting one side's extent leaves the other three |
| Cluster.Lookup | utils.py:385 | the entry with the id, or an error iff there is none |
| Cluster.RotDiff | utils.py:412 | the rotation difference is a multiple of 90 below 360 |
| Cluster.HalfTurnApart | utils.py:417 | the difference is a multiple of 180 iff both rotations are sideways or neither is |
| Cluster.DirectionCheckMeaning | utils.py:417-418 | the direction check holds for front/behind always, and for left/right iff the two rotations are equally sideways |
| Cluster.LatestFirstChildren | utils.py:392-397 | the children in reversed topological order are exactly the node's successors |
| Cluster.GetClusterSize | utils.py:383-434 | the loop equals the recursive specification |
| Cluster.AddChild | utils.py:401-433 | one child's iteration, with the recursive call, gives what the step function gives |
| Cluster.ClusterChildren | utils.py:401-433 | the loop over the children, latest in the topological order first, equals its fold |
| Cluster.ClusterSizeNonNegative | utils.py:398-434 | with non-negative sizes all four extents are non-negative |
| Cluster.ClusterFoldNonNegative | utils.py:401-433 | every prefix of the loop keeps the extents non-negative |
| Cluster.ClusterStepNonNegative | utils.py:428-433 | adding a child by max or by sum keeps the extents non-negative |
| Cluster.WithSideNonNegative | utils.py:431-433 | writing a non-negative extent keeps all extents non-negative |
| Cluster.ClusterSizeAfter | utils.py:399-424 | every descendant counted comes after the node in the topological order |
| Cluster.ClusterFoldAfter | utils.py:401-424 | every prefix of the loop counts only later nodes |
| Cluster.ClusterStepAfter | utils.py:410-424 | one child adds only itself and its own descendants, all later than the node |
| Cluster.ClusterSizeLeaf | utils.py:400-407 | a node without directional children has an empty cluster, and fails only on its own rotation |
| Cluster.ClusterFoldLeaf | utils.py:405-407 | non-directional edges are ignored |
| Cluster.StepEntry | utils.py:403-424 | a child is counted only on a directional edge when it is not counted yet |
| Cluster.Entries | utils.py:401-433 | the loop counts at most one child per edge |
| Cluster.StepEntryAgrees | utils.py:428-433 | a step changes only the side of the child it counts, by `max` when adjacent and by `+=` otherwise; a skipped child changes nothing |
| Cluster.ClusterFoldSides | utils.py:398-433 | each side of the result is what the `max`/`+=` adjustments for the counted children give, from 0.0 |
| Cluster.EntriesNonNegative | utils.py:420-428 | with non-negative sizes every `value_to_add` is non-negative |
| Cluster.SideOfCovers | utils.py:429-433 | with non-negative values a side is at least every value added to it |
| Cluster.SideOfAdjacent | utils.py:430-431 | when every child on a side is adjacent, the side is the largest of their values (or 0.0) |
| Cluster.SumOnSnoc | utils.py:432-433 | the sum over one more child adds its value on its side |
| Cluster.SideOfApart | utils.py:432-433 | when no child on a side is adjacent, the side is the sum of their values |
| Cluster.ClusterFoldCombines | utils.py:398-433 | each side of the loop's result is at least every counted child's `value_to_add` on it; it is their maximum when all are adjacent and their sum when none is |
| Sizes.Reversed | utils.py:438 | the order reversed, element by element |
| Sizes.ReversedMembers | utils.py:438 | reversing keeps the same nodes |
| Sizes.WithPrep | utils.py:482 | the children listed for a side are exactly those with that preposition |
| Sizes.CheckSizeConflicts | utils.py:436-554 | the loop equals its fold |
| Sizes.ObjectSizeConflictsOf | utils.py:447-493 | an object's checks equal their specification |
| Sizes.ObjectLoad | utils.py:452-476 | the loop over an object's children equals its fold |
| Sizes.LoadChild | utils.py:453-476 | one child's iteration equals the step function |
| Sizes.CheckSides | utils.py:478-486 | the four side checks equal their specification |
| Sizes.LayoutSizeConflictsOf | utils.py:495-553 | a layout element's checks equal their specification |
| Sizes.SpanChild | utils.py:505-527 | one child's iteration equals the step function |
| Sizes.SpanChildren | utils.py:505-527 | the loop over a layout element's children, latest first, equals its fold |
| Sizes.LoadFails | utils.py:452-454 | the loop raises iff some child has no entry or no rotation |
| Sizes.LoadMeaning | utils.py:452-469 | each side's load is the sum over the adjacent children on that side (non-adjacent ones are not summed) |
| Sizes.LoadTopMeaning | utils.py:470-476 | the load on top is the sum of the adjacent "on" children's footprints along and across |
| Sizes.LoadStepMeaning | utils.py:453-476 | one child adds its extent to its own side if adjacent, and its footprint on top if adjacent "on" |
| Sizes.SideChecksMembers | utils.py:478-486 | a side is reported iff its capacity is strictly less than its load, listing every child with that preposition |
| Sizes.ObjectSizeFails | utils.py:448-454 | an object's checks raise iff it or one of its children cannot be resolved |
| Sizes.ObjectSizeMembers | utils.py:447-493 | an object's reports are exactly its overloaded sides and an overloaded top |
| Sizes.ChecksMembers | utils.py:478-493 | the side and area reports in terms of the loads |
| Sizes.SpanBounds | utils.py:505-527 | the members counted for a layout element come after it, and the spans are non-negative |
| Sizes.SpanStepBounds | utils.py:518-527 | one child keeps both facts |
| Sizes.SpanChecksExact | utils.py:534-553 | a wall is reported iff its length is below the span; the floor also on its width |
| Sizes.SizeConflictsExact | utils.py:436-554 | the check raises iff some node raises, and otherwise reports exactly the nodes' reports |
| Depth.StartNodes | utils.py:883 | the start nodes are exactly the layout elements of the graph |
| Depth.AdjacencyEdges | utils.py:889 | the successor map has exactly the graph's nodes and edges |
| Depth.StaysAtMost | utils.py:892-896 | lowering depths keeps every bound on them |
| Depth.Dfs | utils.py:886-896 | `dfs(node, d)` visits the node, stores a depth of at most d, and leaves every successor with a depth of at most d + 1; depths only go down |
| Depth.VisitAll | utils.py:889-896 | the loop over the successors keeps the search invariant |
| Depth.Entered | utils.py:887-888 | visiting a node and writing its depth establishes the loop invariant |
| Depth.Finished | utils.py:886-896 | after the loop the call's contract holds |
| Depth.Step | utils.py:889-896 | one successor keeps the loop invariant |
| Depth.Visit | utils.py:890-896 | a successor ends up with a depth of at most d + 1: visited afresh, kept when smaller, or overwritten |
| Depth.SearchAll | utils.py:898-899 | the search from every layout element visits them all, and their children get depth at most 1 |
| Depth.SearchStart | utils.py:898-899 | each start keeps the invariant |
| Depth.Reached | utils.py:901 | the depths with the layout elements dropped |
| Depth.ReachedMeaning | utils.py:864-902 | every depth is of an object node and at least 1; a child of a reached node or of a layout element is reached; each reached node has such a parent; children of layout elements have depth 1 |
| Depth.GetDepth | utils.py:864-902 | `get_depth` on the graph of the scene graph returns depths with those four properties |
| Positions.AllEdges | utils.py:922 | the layout relationships (as adjacent) followed by the object relationships |
| Positions.LayoutAsEdges | utils.py:926 | a layout relationship counts as adjacent |
| Positions.WithRotation | utils.py:908 | only the entry's rotation is stored |
| Positions.AfterPossiblePositions | utils.py:905-908 | the scene graph keeps its length |
| Positions.GetPossiblePositions | utils.py:904-934 | the loop equals its fold, and the scene graph is left as the specification says |
| Positions.CandidatesFoldOk | utils.py:924-932 | gathering raises iff some reference has no entry (`[...][0]`) or an unresolvable rotation |
| Positions.CandidatesFoldCount | utils.py:931-932 | at most one region per relationship, and one for each iff every reference is positioned |
| Positions.CandidatesFoldSound | utils.py:924-932 | every region comes from a positioned reference of a relationship and is the constraint function of its preposition |
| Positions.AfterPossiblePositionsStores | utils.py:905-908 | on success the object is found at its index and its rotation is stored there |
| Positions.StoredRotationKept | utils.py:905-908 | a stored rotation leaves the scene graph unchanged |
| Reasons.Bump | utils.py:976 | `errors[key] = 1 + errors.get(key, 0)` adds the key and raises only its count by one |
| Reasons.Merge | utils.py:1109-1113 | merging adds the counts key by key |
| Reasons.RowMembers | utils.py:964-969 | one row of the pair loop lists exactly the later regions disjoint from region i |
| Reasons.RowsMembers | utils.py:963-969 | `overlaps` lists exactly the pairs i < j of distinct regions that do not intersect |
| Reasons.NonOverlappingPairs | utils.py:963-969 | the nested loop equals its fold |
| Reasons.Boxes | utils.py:958 | the regions of the candidates, in order |
| Reasons.NoOverlapReasonAsWrittenMisnames | utils.py:959-985 | as written, a floor region disjoint from the cluster area is blamed on the floor and an unplaced reference instead of on the cluster |
| Reasons.BumpPairsKeys | utils.py:970-985 | the keys after counting are the old ones plus one per listed pair, and no count goes down |
| Reasons.BlamedIsListed | utils.py:963-985 | every blamed pair of relationships is a listed pair |
| Reasons.PairListed | utils.py:963-969 | a pair of distinct disjoint regions is listed |
| Reasons.ListedIsBlamed | utils.py:963-985 | every listed pair blames its two relationships, or one and the cluster |
| Reasons.NoOverlapReasonExact | utils.py:956-986 | the keys are exactly the old ones and those of disjoint pairs of regions (each relationship's region, or the cluster area last), and no count goes down |
| Reasons.AsWrittenAgreesWhenAligned | utils.py:959-962 | when every relationship has a region, the source's keys are the corrected ones |
| Reasons.BumpAgree | utils.py:970-985 | the source's counting agrees with the corrected one on aligned lists |
| Reasons.GetNoOverlapReason | utils.py:956-986 | the loops compute the corrected specification |
| Placing.Next | utils.py:1076-1078 | the random state stays below the modulus |
| Placing.Uniform | utils.py:1076 | `random.uniform(a, b)` lies between a and b and advances the state once |
| Placing.Fraction | utils.py:1076 | the underlying fraction lies in [0, 1] |
| Placing.ScaledBetween | utils.py:1076 | `a + (b - a) * u` lies between a and b |
| Placing.Sample | utils.py:1076-1083 | the point drawn lies in the box |
| Placing.OverlapAllNonEmpty | utils.py:1047-1052 | a chained intersection that exists is non-empty up to the tolerance |
| Placing.DrawnPointSatisfiesAll | utils.py:1047-1083 | a point of the intersection lies (up to the tolerance) in the cluster area and in every candidate region |
| Placing.Turned | utils.py:1004-1005 | the tuple rotation `raw[-shift:] + raw[:-shift]` shifts each entry by the quarter count |
| Placing.ClusterBoxFits | utils.py:996-1014 | a centre in the cluster area leaves room for the object's cluster on all four sides, and z spans the room's height |
| Placing.ClusterBoxSides | utils.py:996-1014 | each side of the cluster area is the cluster's reach on the side the rotation turns to it plus half the turned footprint, measured from the room's walls |
| Placing.CollidesSymmetric | utils.py:1031 | a collision between two entries is symmetric |
| Placing.CollisionsBeforeZero | utils.py:1027-1032 | the count is zero iff the entry collides with no other |
| Placing.CountCollisions | utils.py:1027-1032 | the loop counts the positioned entries the object collides with |
| Placing.AnyCollision | utils.py:1087-1092 | the flag is set iff the object collides with some other positioned entry |
| Placing.ChildrenOf | utils.py:1022 | the children are exactly the entries that list the object as a parent |
| Placing.Matching | utils.py:1098 | the children with a given id |
| Placing.ByOrder | utils.py:1098 | the children sorted by the topological order, from a given rank on |
| Placing.ConcatSorted | utils.py:1098 | concatenating rank by rank stays sorted |
| Placing.SortedChildren | utils.py:1098 | the children sorted by the topological order, keeping exactly those in it |
| Placing.ClearPositions | utils.py:1117-1121 | the result is the scene graph with exactly the children's positions deleted |
| Placing.Unplaced | utils.py:1119-1121 | every child has no position and every other entry is as it was |
| Placing.RankedFromTopo | utils.py:1023 | a topological order ranks every child after the parents it lists |
| Placing.OrphansTrans | utils.py:1100-1103 | placing children leaves entries without parents alone |
| Placing.SteadyCtx | utils.py:1100-1103 | positions changing keeps what placing needs |
| Placing.NoNewTrans | utils.py:1100-1103 | no new collisions composes over steps |
| Placing.DroppingKeeps | utils.py:1065 | deleting positions adds no collision |
| Placing.ClearStays | utils.py:1093-1100 | a collision-free object stays collision-free while others are placed collision-free |
| Placing.PossibleKeeps | utils.py:993 | computing the regions only stores the object's rotation, and keeps a stored one |
| Placing.WithRotationKeeps | utils.py:908 | storing the resolved rotation keeps what placing relies on |
| Placing.PlaceObject | utils.py:993-1127 | an exception of `get_possible_positions` is passed on; otherwise the scene graph, the errors and the way out are forced by the input, in the source's order: a missing cluster raises; no region bumps `no_positions_found`; the skip test keeps the position and the errors; disjoint regions add the no-overlap reasons; otherwise the object is placed inside the intersection, collision-free, with `{}` and every child placed, or the attempts run out with the position deleted and non-empty errors, or a child raised; it raises iff it ends `Failed`; in the retry case the way out is that of the chained attempts (`Retried`, as `Retry` states) |
| Placing.PlaceWith | utils.py:996-1127 | the same, once the rotation and the regions are known, with the attempts of the retry loop recorded as `Retried` states |
| Placing.AlreadyPlacedCheck | utils.py:1026-1042 | the skip holds iff no collision, the current body meets the intersection, and no child collides (or there is none); a skipped object collides with nothing |
| Placing.Put | utils.py:1079-1083 | setting the position changes only that entry |
| Placing.KeepsTrans | utils.py:1059-1126 | what placing keeps composes over steps |
| Placing.DrawKeeps | utils.py:1076-1083 | drawing a position keeps what placing relies on |
| Placing.DrawnClear | utils.py:1086-1094 | a drawn position without collision adds none |
| Placing.ChildrenKeep | utils.py:1100-1114 | placing the children keeps the object where it is and adds no collision |
| Placing.ClearingKeeps | utils.py:1117-1122 | deleting the children's positions keeps what the retry relies on |
| Placing.DropKeeps | utils.py:1065 | deleting the object's own position keeps what placing relies on |
| Placing.Retry | utils.py:1058-1126 | the attempts made are chained, each from the scene graph, errors and random state the one before left (`Tried`); every attempt but the last collided or had a child report errors; the last decides the way out: done gives the scene graph it ended with and `{}`, a child's exception is raised, and otherwise it was attempt 50 (attempt 1 for a point box) and the position is deleted, with `no_positions_found` bumped when there were no errors; adds no collision |
| Placing.RetryTurn | utils.py:1060-1126 | one turn of the loop adds one attempt to the chain; after a collision or a child's errors the loop goes on with the earlier error keys kept; after done or a child's exception the run ends placed or raising |
| Placing.RetryStep | utils.py:1060-1126 | an attempt from where the chain ended extends the chain; a retry keeps the loop going, and done or an exception ends the run |
| Placing.RetryExhausted | utils.py:1061-1073 | when the 50th attempt (the first for a point box) was a retry, the run ends exhausted with the position deleted and the key bumped when there were no errors |
| Placing.RetryFacts | utils.py:1058-1126 | from a finished run: it raises iff it failed; placed means `{}`, a position inside the box and no collision; failed means the last attempt's last child raised; exhausted means non-empty errors and the position deleted |
| Placing.TriedNext | utils.py:1060-1126 | an attempt that starts from where the last one ended extends the chain |
| Placing.PlaceInOverlap | utils.py:1058-1126 | from a region intersection the children are sorted in topological order and the retry loop runs over them as `Retry` states; it ends placed (inside the intersection, collision-free, `{}`, rotation kept), exhausted (position deleted, old error keys kept) or with an exception that only a child can raise |
| Placing.Attempt | utils.py:1074-1122 | one attempt from the drawn position, as `Attempted` states: it collides iff the draw meets a positioned entry, and then nothing else changes; otherwise the children are placed in order, and it ends done (all returned `{}`), with a child's exception, or with a child's non-empty errors merged in and every child's position deleted |
| Placing.AttemptChildren | utils.py:1096-1122 | the attempt after a collision-free draw: the children run from the draw, with the same three endings |
| Placing.PlaceChildren | utils.py:1100-1114 | each child is a call of `place_object` with fresh errors where the one before ended; it stops at the first that raises, passing on the exception, or that reports errors, which are merged in, so `failed` holds iff a child reported errors; otherwise every child returned `{}`; no collision is added |
| Placing.ChildTurn | utils.py:1100-1114 | one child: a `{}` result goes on to the next child with the errors unchanged; otherwise the loop ends as `ChildrenResult` states |
| Placing.PlaceNext | utils.py:1103 | the next child is placed where the run so far ended, extending the run |
| Placing.ChildRunNext | utils.py:1100-1114 | one more call where the run ended extends the run |
| Placing.ChainedWider | utils.py:1100-1114 | a chain over some children is a chain over any list they start |
| Placing.ChildRunWider | IDesign.py:356-362 | a run over some objects is a run over any list they start |
| Design.BuildSpecShape | IDesign.py:284 | graphs built from scene graphs with the same ids and placements are equal |
| Design.FindBlind | IDesign.py:296-298 | lookups ignore the clusters |
| Design.FirstMissingBlind | IDesign.py:296-298 | missing references do not depend on the clusters |
| Design.RotationBlind | IDesign.py:290 | rotation inference does not depend on the clusters stored so far |
| Design.RotationsAgreeAll | IDesign.py:290 | by induction on the recursion allowance, corresponding entries get the same rotation |
| Design.RotationBlindStep | IDesign.py:290 | one step of rotation inference on corresponding entries either stops on both with the same result or follows corresponding parents |
| Design.RotationBlindFollows | IDesign.py:290 | following the first parent preserves the clusters-only difference |
| Design.RotationBlindStops | IDesign.py:290 | the non-recursive cases do not read clusters |
| Design.FollowFirstParent | utils.py:72-74 | without its own rotation an object takes its first parent's |
| Design.ClusterSizeBlind | IDesign.py:290 | footprints do not depend on the clusters stored so far |
| Design.ClusterFoldBlind | IDesign.py:290 | no prefix of the footprint loop depends on stored clusters |
| Design.ClusterStepBlind | IDesign.py:290 | no single footprint step depends on stored clusters |
| Design.RotationsAssigned | IDesign.py:278-280 | the rotation loop changes only rotations: every object gets one, an explicit one is kept, and it raises only where an object's own rotation is unresolvable |
| Design.Area | IDesign.py:297 | `x_neg` = left of, `x_pos` = right of, `y_neg` = behind, `y_pos` = in front |
| Design.SetCluster | IDesign.py:296-298 | only the first entry with the id gets the cluster |
| Design.IndexOfBlind | IDesign.py:296 | indices ignore the clusters |
| Design.ClustersAssigned | IDesign.py:288-298 | every object node visited gets the area of its footprint; other entries are untouched; a failure is a node's footprint failing |
| Design.ClusterStages | IDesign.py:276-298 | the graph is the same before and after the rotations, and clustering changes nothing else |
| Design.ObjectClustersShape | IDesign.py:276-298 | only rotations and clusters change |
| Design.ObjectClustersRotated | IDesign.py:278-280 | without an error every object is rotated, explicit rotations kept |
| Design.ObjectClustersArea | IDesign.py:288-298 | without an error every object gets `constraint_area` from its footprint |
| Design.VisitedFirst | IDesign.py:288 | every object is a pending node of the graph |
| Design.NodeOf | IDesign.py:284-288 | each entry's id is a node of the graph |
| Design.PointOverlap | IDesign.py:312-318 | no regions give None, one region is itself, and an intersection lies inside every region |
| Design.Intersect | IDesign.py:312-318 | the loop computes the intersection |
| Design.CornerFits | IDesign.py:321 | for two or more regions, the corner `(overlap[0], overlap[2], overlap[4])` lies in each of them up to the tolerance |
| Design.AfterStep | IDesign.py:310 | computing the regions keeps what the point pass relies on |
| Design.PointStep | IDesign.py:308-322 | one iteration leaves the number of entries |
| Design.PointsTo | IDesign.py:307-322 | the pass over a prefix leaves the number of entries |
| Design.PointsErrStays | IDesign.py:310 | after an exception later entries change nothing |
| Design.PointStepKeeps | IDesign.py:308-322 | one iteration keeps what the pass so far keeps |
| Design.PointStepFixes | IDesign.py:310-322 | the iteration on an object freezes it iff its regions meet in a single point, and then puts it at the corner; it leaves what earlier iterations decided |
| Design.PointStepDecides | IDesign.py:308-322 | an iteration that raises nothing decides the object it is on |
| Design.PointsFix | IDesign.py:307-322 | every object before n is decided as the iteration on it says |
| Design.PointsFixStep | IDesign.py:307-322 | a pass one longer that raised nothing decides its last object and keeps every decision made before |
| Design.PointPassFixes | IDesign.py:303-322 | after a pass that raised nothing, each object is frozen iff its regions met in a single point, a frozen one sits at that corner, an unfrozen one keeps its position, every frozen id is an object's, and the layout entries are untouched |
| Design.PointsKeep | IDesign.py:307-322 | the point pass changes only positions and unset rotations, keeps the layout entries and later entries, and freezes only objects it has positioned |
| Design.PointPass | IDesign.py:307-322 | the loop computes the pass as `PointsTo` defines it, stopping at the first exception |
| Design.PointTurn | IDesign.py:308-322 | one iteration from any state is that state's `PointStep`: a layout entry is skipped, an exception of `get_possible_positions` is recorded, and a point-box intersection moves the object to its corner and freezes it |
| Design.PointsNext | IDesign.py:307-322 | until it raises, the pass over one more entry is one more iteration |
| Design.WithoutLayout | IDesign.py:324 | the scene graph without the layout elements |
| Design.WithoutLayoutIds | IDesign.py:340 | the order without the layout elements |
| Design.MaxDepth | IDesign.py:328 | `max` of the depths, None iff there are none |
| Design.NodesAt | IDesign.py:351 | the nodes at depth d in order; a node without a depth raises |
| Design.Rollback | IDesign.py:374-379 | without an exception the result is `RolledBack`: every object at depth d or deeper loses its position unless frozen, nothing else changes; it raises iff an object has no depth, and then names the first such object |
| Design.RolledBack | IDesign.py:374-379 | exactly the positioned, unfrozen objects at depth d or deeper lose their position |
| Design.LayoutStep | IDesign.py:362 | placing an object leaves the layout entries |
| Design.RollbackKeeps | IDesign.py:373-379 | the rollback keeps what placing relies on |
| Design.IdsAt | IDesign.py:361 | the ids of the listed entries, in order |
| Design.Unfrozen | IDesign.py:357-358 | the nodes that are not frozen |
| Design.UnfrozenNext | IDesign.py:356-358 | one more node adds it iff it is not frozen |
| Design.IdsAtNext | IDesign.py:361 | one more placed entry adds its id |
| Design.UnfrozenPrefix | IDesign.py:356-381 | the unfrozen nodes of a prefix start the unfrozen nodes of all |
| Design.PassMeets | IDesign.py:356-381 | a pass that raised nothing placed (a prefix of) the unfrozen nodes in order, all of them unless it failed, and failed iff its last object reported errors |
| Design.PassFailsIff | IDesign.py:366-381 | a pass failed iff some object in it reported errors, and only the last can have |
| Design.PassSoFarDone | IDesign.py:356-381 | a pass through every node that reported nothing did not fail |
| Design.Pass | IDesign.py:356-381 | one pass: the unfrozen nodes are placed in order, each with fresh errors where the one before ended; it stops at the first whose errors are non-empty (`failed`) or that raises; one that goes through every node did not fail; a node without an entry raises; no collision is added and the layout entries stay |
| Design.PassTurn | IDesign.py:357-366 | a frozen node is skipped; a node without an entry raises; otherwise its object is placed, and the pass stops iff it raised or reported errors |
| Design.PlacedNext | IDesign.py:362-381 | a node placed with `{}` lets the pass go on; errors or an exception end the pass there, failed iff errors were reported |
| Design.PassFrom | IDesign.py:355-381 | the pass ends as `PassResult` states: one that raised nothing is the pass its specification defines, ending where its steps end; an exception is the last `place_object` call's or that of a node no entry has; ids, sizes, placements and layout entries are kept |
| Design.PlaceNode | IDesign.py:362 | placing the object extends the pass's run, adds no collision and leaves the layout entries |
| Design.DepthLoop | IDesign.py:344-384 | each round is a pass at d from where the one before ended; without a failure d becomes d + 1; after one d becomes d - 1 when d > 1 (else stays) and the rollback clears that depth and deeper; it ends at max_depth + 1 when done; an exception is one the next round raises from where the recorded rounds end (`RoundRaised`); no collision is added |
| Design.DepthTurn | IDesign.py:345-384 | one round at depth d: an exception leaves the recorded rounds and is raised by an object without a depth in the order, by the pass over the objects at d, or by the rollback after a failed pass (`RoundRaised`); otherwise one round more, and the scene graph and d are those the rounds give, within 1 to the largest depth plus one |
| Design.EndRound | IDesign.py:366-384 | without a failure the scene graph stays and nothing is raised; after one, the first object without a depth raises, otherwise the rollback from d' is applied |
| Design.RoundsNext | IDesign.py:345-384 | one more round where the rounds ended extends them, and moves d as the failure says |
| Design.PriorsCoverLayout | IDesign.py:301-302 | every layout element is a room prior |
| Design.LayoutArePriors | IDesign.py:301 | with distinct ids the layout entries are the appended priors |
| Design.SceneReady | IDesign.py:301 | the appended scene graph is rotated and its layout entries are the priors |
| Design.PointsReady | IDesign.py:324-339 | after the point pass placing may start |
| Design.BacktrackKeeps | IDesign.py:300-386 | ids, sizes, placements, clusters, rotations and the priors stay as they were |
| Design.PlaceByDepth | IDesign.py:324-384 | the depths are those `get_depth` gives for the graph without the layout elements; `max` of none raises; otherwise the depth loop runs up to the largest depth as `DepthRun` states, an exception being one a round raises |
| Design.PlaceAtDepths | IDesign.py:328-384 | `max` of no depths raises and leaves the scene graph; otherwise the depth loop runs up to the largest depth as `DepthRun` states, an exception being one a round raises (`RoundRaised`) |
| Design.LayOut | IDesign.py:300-386 | `backtrack` on values: only positions change, the priors are appended unchanged, a point-pass error is passed on; otherwise no collision is added to the point pass's result, and the depth loop runs from it with its frozen objects as `DepthRun` states, an exception included |
| Design.IDesign.constructor | IDesign.py:20-25 | the scene graph, the room and its priors, and the random state |
| Design.IDesign.CreateObjectClusters | IDesign.py:276-298 | the new scene graph and error are those of the rotation and cluster passes |
| Design.IDesign.Backtrack | IDesign.py:300-386 | the scene graph becomes the objects plus the priors with only positions changed; a point-pass error is passed on; otherwise the depth loop ran from the point pass's result as `LayOut` says |

## Left out

- The LLM and agent plumbing of `IDesign` is not part of this model: `create_initial_design`, `correct_design`, `refine_design` and `to_json`. Nor are `get_cluster_objects` and the refinement graph utilities (`flip_edges`, `remove_edges_with_connectivity`, `clean_and_extract_edges`).
- `print`, the `verbose` output and `get_visualization` are not modelled, because they only report.
- Conflict messages are records of the data they name, not strings. The user-preference text they append is not modelled.
- The networkx topological order is a parameter with the precondition that it is a topological order. The library's tie-breaking is not modelled.
- `random.uniform` is modelled by an explicit linear congruential state. The distribution is not modelled, only that each draw lies between its bounds.
- Floating point is modelled by reals. `np.isclose` and the 1e-3 tolerance are explicit constants.
- Scene.GetRotation: recursion is bounded by a fuel of the scene graph's length plus one. A parent cycle, which the source loops on until Python's recursion limit, ends here with an error.
- Design.DepthLoop: a `budget` bounds the number of passes, because the source's `while d <= max_depth` need not terminate. It is not proved that every object ends up placed.
- Design.DepthLoop: a round that raises is not recorded in `rounds`. `RoundRaised` states which step of that round raised, but of the scene graph it leaves behind only that ids, sizes, placements and layout entries are kept.
- Design.IDesign.Backtrack: proves that only positions change and that placing adds no collision. It does not prove that every object ends up placed; the source promises this only as a best effort.
- Placing.PlaceObject: the errors an attempt reports after a child fails are only stated to be non-empty, not their exact counts.
- Placing.Reported: a child placed inside an attempt (`ChildRun`) is stated by its way out and end state, not by the chain of its own attempts, because a predicate about a placement cannot refer to the attempts without recursing into itself; nor is the random state after the children tied to their draws. The attempts are stated for the object `PlaceObject` is called on (`Retried`).
- Placing.PlaceObject: when the regions do not intersect, the keys added are those of the corrected `get_no_overlap_reason` (Reasons.NoOverlapReason), not those of the code as written at utils.py:1055. The two agree whenever every reference is positioned (Reasons.AsWrittenAgreesWhenAligned); the as-written keys are Reasons.NoOverlapReasonAsWritten, and the "## Findings" table gives an input where they differ.
- Placing.PlaceObject: takes the index of an entry of the scene graph, so the early return for an object that is not in it (utils.py:991-992) is not modelled; every caller passes an entry of the scene graph.
- Depth.GetDepth: states bounds on the depths, not their exact values. The exact value depends on the DFS visiting order.
- Depth.Dfs: `dfs` keeps a stored depth only when it is smaller (utils.py:892-896), so a revisit can only lower a depth and the result depends on the visiting order. The model states that rule, not any closed form of the depths.
- Constraints.OnConstraint: the `elif ... == "middle of the room"` branch (constraint_functions.py:32-38) is dead, because the first branch already takes the floor. The model takes the first branch for the floor, as the source does.
- The in-place aliasing of the source is modelled by passing values. That covers `preprocess_scene_graph` renaming records that several lists share, and `place_object` writing into the shared scene graph. The result states the scene graph as the source leaves it.
- Design.IDesign.CreateObjectClusters takes a topological order as a parameter, because the footprints need one. The source obtains it inside `get_cluster_size`.

## Findings

| source | as written | input that shows it | evidently intended | confidence | as-written member | corrected member |
|---|---|---|---|---|---|---|
| utils.py:956-985 | `get_no_overlap_reason` numbers the regions by their place in the list of positioned references plus the cluster area, but reads each key from the list of all relationships plus "cluster". When a reference is not yet positioned, the two lists are misaligned and the wrong relationships are blamed. | A bed on the floor and left of a wardrobe that is not yet placed: its floor region misses its cluster area. The source blames ("middle of the room", on) with ("wardrobe", left of) instead of the floor with the cluster. | each non-overlapping pair is keyed by the relationships its two regions came from | high, not executed | Reasons.NoOverlapReasonAsWrittenMisnames | Reasons.NoOverlapReasonExact |
