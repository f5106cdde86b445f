# ManyBoneIK3D configuration store, solve gate and limit cones

A Dafny model of two parts of the many_bone_ik Godot module.

- **`ManyBoneIK3D`** (`many_bone_ik.dfy`, module `ManyBoneIK`) is the node that holds the IK
  configuration. It keeps parallel, index-aligned tables:
  - pins;
  - the constraint tables: names, twist limits, cone counts and cone lists;
  - bone damping entries.

  Its setters resize, remove from and overwrite these tables in place. Most of them mark the
  node dirty; `set_bone_count`, `set_bone_damp`, `set_bone_damp_bone_name` and
  `set_iterations_per_frame` do not.
  `skeleton_changed` rebuilds the bone list, the segments and the damp cache from the tables.
  `execute` is the per-frame gate: it rebuilds a dirty node and then runs the segment solver
  `iterations_per_frame` times over every non-null segment. The class keeps the source's fields
  as `seq`/`map` fields. `Valid()` states the table invariant: the four constraint tables have
  one length; the constraint, pin and bone counts are each either the size of their table
  (constraint names, pins, damp entries) or negative; and every pin slot holds a template. Each method states the
  whole new state.
- **`LimitCone`** (`limit_cone.dfy`, module `LimitCones`) is one spherical cap of a Kusudama swing
  constraint. It provides the dot- and cross-product tests that decide which cap holds a
  direction, which cap is nearer, and which side of the great circle between two caps a
  direction lies on. It also pushes a direction onto a cap or tangent-circle boundary.
  `inBounds` stays an `array<bool>` out-parameter, and the NaN "no result" vector becomes `None`.

Supporting modules:
- `GodotMath` (`godot_math.dfy`) holds the engine constants and exact-real 3D vectors.
  `cos`, quaternion rotation and `normalized` cannot be computed over the reals. They are
  gathered in an `Engine` value passed as a parameter. `Sound(e)` states the laws they obey in
  exact arithmetic: normalizing gives a unit vector, and a rotation keeps length and turns by
  its angle.
- `IkTables` (`ik_tables.dfy`) holds the table entry types and Godot's `Vector::resize` and
  `remove_at`. It also holds the pure definitions that specify the rebuild and solve loops:
  the segment and bone lists, attaching constraints to bones, the damp cache and the solve
  schedule.
- `Wrappers` (`wrappers.dfy`) holds `Option`.

The host `Skeleton3D` is a value: its parentless bones, its bone name to id map, and the bone
ids the segment grown from each root lists. The visibility test and the "root transform is
ready" test of `execute` are boolean parameters. `execute` reports what it did: whether it
rebuilt, and the root of each `segment_solver` call in order.

## Model

| member | source | states |
|---|---|---|
| ManyBoneIK.ManyBoneIK3D.constructor | src/many_bone_ik_3d.h:116-132 | A new node has empty tables, zero counts, ten iterations per frame, a default damp of five degrees, and is dirty. |
| ManyBoneIK.ManyBoneIK3D.SetDirty | src/many_bone_ik_3d.cpp:952-954 | The node is dirty afterwards and nothing else changes. |
| ManyBoneIK.ManyBoneIK3D.SetPinCount | src/many_bone_ik_3d.cpp:41-50 | The pin count is n. For n >= 0 the table has n slots: slots below the old size keep their pins and every new slot holds a fresh template. A negative n leaves the table as it was. The node is dirty and the table invariant holds. |
| ManyBoneIK.ManyBoneIK3D.RemovePin | src/many_bone_ik_3d.cpp:88-95 | An index outside the table changes nothing, including the dirty flag. Otherwise exactly that slot goes, the others keep their order, the count drops by one and the node is dirty. |
| ManyBoneIK.ManyBoneIK3D.SetPinBone | src/many_bone_ik_3d.cpp:56-65 | Out of range: nothing changes. In range: only that slot changes, to its template (a fresh one if the slot was null) renamed to the bone, and the node is dirty. `get_pin_bone_name` then returns the bone. |
| ManyBoneIK.ManyBoneIK3D.SetPinWeight | src/many_bone_ik_3d.cpp:924-933 | As SetPinBone, for the weight. `get_pin_weight` then returns the weight. |
| ManyBoneIK.ManyBoneIK3D.SetPinDirectionPriorities | src/many_bone_ik_3d.cpp:941-950 | As SetPinBone, for the direction priorities. `get_pin_direction_priorities` then returns them. |
| ManyBoneIK.ManyBoneIK3D.SetPinPassthroughFactor | src/many_bone_ik_3d.cpp:566-572 | A null slot is refused like an out-of-range index: nothing changes. Otherwise only that pin's passthrough factor changes, `get_pin_passthrough_factor` then returns it, and the node is dirty. |
| ManyBoneIK.ManyBoneIK3D.GetPinBoneName | src/many_bone_ik_3d.cpp:692-696 | The pin's bone name; the empty name for an index outside the pin table. |
| ManyBoneIK.ManyBoneIK3D.GetPinWeight | src/many_bone_ik_3d.cpp:918-922 | The pin's weight; 0 for an index outside the pin table. |
| ManyBoneIK.ManyBoneIK3D.GetPinDirectionPriorities | src/many_bone_ik_3d.cpp:935-939 | The pin's direction priorities; (0, 0, 0) for an index outside the pin table. |
| ManyBoneIK.ManyBoneIK3D.GetPinPassthroughFactor | src/many_bone_ik_3d.cpp:560-564 | The pin's passthrough factor; 0 for an index outside the pin table. |
| ManyBoneIK.ManyBoneIK3D.AnyNamedPin | src/many_bone_ik_3d.cpp:826-832 | The scan answers true exactly when some slot holds a pin with a non-empty name. |
| ManyBoneIK.ManyBoneIK3D.SetConstraintCount | src/many_bone_ik_3d.cpp:574-589 | All four constraint tables are resized together and stay aligned. Existing slots are untouched. A new slot gets the empty name, cone count 0, no cones and the twist (PI, TAU - CMP_EPSILON). The count is n and the node is dirty. |
| ManyBoneIK.ManyBoneIK3D.RemoveConstraint | src/many_bone_ik_3d.cpp:1003-1021 | An index outside [0, constraint_count) changes nothing. Otherwise the same slot goes from all four tables, the count drops by one, every table then has exactly `constraint_count` slots, and the node is dirty. |
| ManyBoneIK.ManyBoneIK3D.GetConstraintName | src/many_bone_ik_3d.cpp:595-598 | The stored name in range, the empty name out of range. |
| ManyBoneIK.ManyBoneIK3D.SetConstraintName | src/many_bone_ik_3d.cpp:730-742 | Out of range: nothing changes. In range: only that slot changes, to the name or to the empty name when the skeleton resolves it to a parentless bone. The node is dirty. |
| ManyBoneIK.NonRootName | src/many_bone_ik_3d.cpp:730-742 | The stored name is the given one or empty. Without a skeleton it is the given one. A non-empty stored name never resolves to a parentless bone. A name that does not resolve to one is kept. |
| ManyBoneIK.ManyBoneIK3D.SetKusudamaTwist | src/many_bone_ik_3d.cpp:600-604 | Refused (no change) outside [0, constraint_count). Otherwise only that twist changes, the getter returns it, and the node is dirty. |
| ManyBoneIK.ManyBoneIK3D.GetKusudamaTwist | src/many_bone_ik_3d.cpp:725-728 | The stored twist in range, Vector2() out of range. |
| ManyBoneIK.ManyBoneIK3D.FindConstraint | src/many_bone_ik_3d.cpp:956-963 | The result is the first index below the count whose name matches. It is -1 exactly when no index below the count matches. |
| ManyBoneIK.ManyBoneIK3D.FindEffectorId | src/many_bone_ik_3d.cpp:606-613 | The same first-match-or--1 contract as FindConstraint. |
| ManyBoneIK.ManyBoneIK3D.SetKusudamaLimitCone | src/many_bone_ik_3d.cpp:615-631 | A constraint index outside the cone table changes nothing. Otherwise only that cone changes. It gets the normalized centre, with (0, 1, 0) substituted for a near-zero centre, and the given radius. With sound engine math the stored centre has unit length, and a near-zero centre is stored as (0, 1, 0) itself. The node is dirty. |
| IkTables.ConeCenterOrFallback | src/many_bone_ik_3d.cpp:619-621 | A centre of near-zero squared length becomes (0, 1, 0). Any other centre is kept. The result is never near zero. |
| ManyBoneIK.ManyBoneIK3D.SetKusudamaLimitConeCount | src/many_bone_ik_3d.cpp:665-681 | An index outside either cone table changes nothing. Otherwise the count entry becomes n and the list is resized to n: existing cones are kept and each new cone is (0, 1, 0) with radius deg_to_rad(10). The node is dirty. |
| ManyBoneIK.ManyBoneIK3D.SetKusudamaLimitConeRadius | src/many_bone_ik_3d.cpp:698-706 | Nothing changes unless the cone index is below both the stored count and the list size. Then only that cone's radius changes, its centre is kept, and the node is dirty. |
| ManyBoneIK.ManyBoneIK3D.SetKusudamaLimitConeCenter | src/many_bone_ik_3d.cpp:708-723 | Nothing changes for a cone out of reach. Otherwise only that cone's centre changes. It is stored as given (not normalized), or as (0, 1, 0) when near zero, so it is never near zero. The radius is kept and the node is dirty. |
| ManyBoneIK.ManyBoneIK3D.GetKusudamaLimitConeCenter | src/many_bone_ik_3d.cpp:633-652 | The stored centre for a reachable cone, (0, 1, 0) otherwise. |
| ManyBoneIK.ManyBoneIK3D.GetKusudamaLimitConeRadius | src/many_bone_ik_3d.cpp:654-659 | The stored radius for a reachable cone, TAU otherwise. |
| ManyBoneIK.ManyBoneIK3D.SetBoneCount | src/many_bone_ik_3d.cpp:1078-1082 | The damp table is resized and padded with empty entries, and the count is stored. The node's dirty flag is not touched. |
| ManyBoneIK.ManyBoneIK3D.GetBoneDamp | src/many_bone_ik_3d.cpp:1088-1092 | The entry's damp when it is in range and has one, the default damp otherwise. |
| ManyBoneIK.ManyBoneIK3D.SetBoneDamp | src/many_bone_ik_3d.cpp:1094-1098 | Out of range: nothing changes. In range: only that entry's damp changes, and GetBoneDamp returns it. |
| ManyBoneIK.ManyBoneIK3D.GetBoneDampBoneName | src/many_bone_ik_3d.cpp:1100-1104 | The entry's bone name; the empty name for an index outside the table or an entry without one. |
| ManyBoneIK.ManyBoneIK3D.SetBoneDampBoneName | src/many_bone_ik_3d.cpp:1106-1118 | Out of range: nothing changes. In range: only that entry's bone name changes, with the same root-bone refusal as set_constraint_name. `get_bone_damp_bone_name` then returns the stored name. |
| ManyBoneIK.ManyBoneIK3D.SetDefaultDamp | src/many_bone_ik_3d.cpp:687-690 | The default damp is stored and the node is dirty. |
| ManyBoneIK.ManyBoneIK3D.SetIterationsPerFrame | src/many_bone_ik_3d.cpp:751-753 | The float is stored truncated toward zero, and the node's dirty flag is not touched. |
| IkTables.TruncateToInt | src/many_bone_ik_3d.cpp:751-753 | The integer lies within one of the float, on the side of zero. |
| IkTables.Resize | src/many_bone_ik_3d.cpp:577-580 | A negative size changes nothing. Otherwise the result has the size, keeps the common prefix, and holds the padding in every new slot. |
| IkTables.ResizeToSize | src/many_bone_ik_3d.cpp:1014-1017 | Resizing to the current size is the identity, so remove_constraint's resizes keep what remove_at left. |
| IkTables.RemoveAt | src/many_bone_ik_3d.cpp:1008-1011 | One element fewer. Elements before i are kept and elements after i shift down by one. |
| ManyBoneIK.CollectSegments | src/many_bone_ik_3d.cpp:836-848 | One segment per parentless bone, in root order. The bone list holds each root's segment bones, root after root, without constraints. |
| IkTables.FirstBoneIndex | src/many_bone_ik_3d.cpp:859-862 | The first bone with the id, or -1 exactly when no bone has it. |
| IkTables.FirstBoneIndexByIds | src/many_bone_ik_3d.cpp:859-862 | Two bone lists with the same ids have the same first bone for every id, so attaching does not move later searches. |
| ManyBoneIK.ManyBoneIK3D.BuildKusudama | src/many_bone_ik_3d.cpp:867-889 | The Kusudama takes the stored cones in stored order, up to the smaller of the stored count and the list size. Its twist comes from the twist table, and both limits are enabled. |
| IkTables.ConesTaken | src/many_bone_ik_3d.cpp:870-885 | The number of cones added is between 0 and the list size. It is 0 for a count <= 0, and otherwise the count or the list size, whichever ends the loop first. |
| ManyBoneIK.ManyBoneIK3D.AttachConstraint | src/many_bone_ik_3d.cpp:859-893 | The search gives the constraint to the first bone with the id and to no other bone. |
| IkTables.AttachToFirst | src/many_bone_ik_3d.cpp:859-893 | Only the first bone with the id changes, and it receives the Kusudama. Ids and all other bones are unchanged. |
| ManyBoneIK.ManyBoneIK3D.AttachConstraints | src/many_bone_ik_3d.cpp:853-894 | The constraint loop yields the bone list with every attachment made in order. |
| IkTables.AttachAll | src/many_bone_ik_3d.cpp:853-894 | Attaching keeps the list's length and every bone id. |
| IkTables.LastAttachmentFor | src/many_bone_ik_3d.cpp:853-858 | The last attachment naming the id, or -1 when none does. |
| IkTables.AttachTouchesFirstOnly | src/many_bone_ik_3d.cpp:859-892 | A bone that is not the first with its id never receives a constraint. |
| IkTables.AttachedConstraint | src/many_bone_ik_3d.cpp:853-894 | The first bone with an id ends with the Kusudama of the last constraint naming it, or its old constraint when none does. |
| IkTables.SegmentBoneListUnconstrained | src/many_bone_ik_3d.cpp:836-847 | Every bone of a freshly collected bone list is without a constraint. |
| ManyBoneIK.ManyBoneIK3D.RebuiltConstraintOf | src/many_bone_ik_3d.cpp:836-894 | After a rebuild, the first bone for an id carries the Kusudama of the last constraint below the count whose name `find_bone` resolves to that id, and no constraint when there is none. Any later bone with the same id carries no constraint. |
| ManyBoneIK.ManyBoneIK3D.BuildBoneDampCache | src/many_bone_ik_3d.cpp:898-912 | The corrected damp loop yields exactly the damp cache of the table. |
| IkTables.DampCacheKeys | src/many_bone_ik_3d.cpp:898-912 | The damp cache holds exactly the bones named by some entry that has both a bone name and a damp. |
| IkTables.DampCacheLastWins | src/many_bone_ik_3d.cpp:898-912 | A complete entry not overridden by a later entry for the same bone leaves its damp in the cache. |
| ManyBoneIK.ManyBoneIK3D.BoneDampCacheAsWritten | src/many_bone_ik_3d.cpp:898-912 | The loop as written caches exactly the as-written keys, each with the value 0. Reading the missing damp writes it back into the table: each of those entries ends with a damp of 0, which `get_bone_damp` then returns instead of the default damp. No other entry changes. |
| IkTables.DampSecondPassCachesNothing | src/many_bone_ik_3d.cpp:900-911 | Run again on the table the loop as written left behind, the loop caches nothing. |
| IkTables.DampCacheKeysAsWritten | src/many_bone_ik_3d.cpp:900-911 | Every entry after the first that names a bone and lacks a damp is a key. A bone named by a complete entry is a key only if some damp-less entry after the first also names it. |
| IkTables.DampCacheAsWrittenDropsDamp | src/many_bone_ik_3d.cpp:900-911 | For a table whose only entry names a bone with a damp, the as-written cache is empty. The intended cache maps that bone to its damp. |
| ManyBoneIK.ManyBoneIK3D.SkeletonChanged | src/many_bone_ik_3d.cpp:816-916 | Without a skeleton or parentless bones nothing changes. Without a named pin the bone and segment lists are cleared and the cache is kept. Otherwise the segments, the bone list with its constraints and the damp cache are all rebuilt from the tables. The damp cache is filled by the corrected loop of the Findings row, which leaves the damp table alone. The source's loop writes to that table; see `BoneDampCacheAsWritten`. |
| ManyBoneIK.ManyBoneIK3D.RefreshIfDirty | src/many_bone_ik_3d.cpp:784-791 | An empty segment list makes the node dirty. It rebuilds exactly when it was dirty or had no segments, rebuilds once, and leaves the node clean. |
| ManyBoneIK.ManyBoneIK3D.RunSolver | src/many_bone_ik_3d.cpp:805-812 | The solver is called on the schedule: every non-null segment in order, once per iteration. |
| IkTables.LiveSegmentsMembers | src/many_bone_ik_3d.cpp:806-811 | A root is solved exactly when some segment slot holds it: null slots are skipped and nothing else is. |
| IkTables.LiveSegmentsStep | src/many_bone_ik_3d.cpp:806-811 | Loop helper for RunSolver, not a property of its own: one step of the inner loop adds that slot's root, when it has one, at the end. |
| IkTables.SolveScheduleLength | src/many_bone_ik_3d.cpp:805-812 | segment_solver is called iterations × (non-null segments) times, and never for a non-positive iteration count. |
| IkTables.SolveScheduleIterationMajor | src/many_bone_ik_3d.cpp:805-812 | Call number i·m + j is the j-th non-null segment in iteration i: the order is iteration-major. |
| ManyBoneIK.ManyBoneIK3D.Execute | src/many_bone_ik_3d.cpp:777-814 | Hidden, or no pins: nothing at all happens. Otherwise the node is rebuilt exactly when it was dirty or had no segments, and it ends clean. Then, unless bones exist and the root transform is not ready, the solver runs iterations_per_frame passes over the non-null segments. The table invariant is kept. |
| LimitCones.ClampedRadius | limit_cone.h:107 | MAX(DBL_TRUE_MIN, rad): one of the two, at least both, and strictly positive. |
| LimitCones.LimitCone.constructor | limit_cone.h:102-112 | The axis is the normalized direction. The tangent centres are that axis and its negation. The radius is MAX(DBL_TRUE_MIN, rad) and positive. The cushion radius and cosine equal the hard ones, and the radius cosine is cos(radius). |
| LimitCones.LimitCone.SetControlPoint | limit_cone.h:306-309 | Stores the normalized point. With sound engine math it has unit length, or is zero for the zero point. |
| LimitCones.LimitCone.ClosestCone | limit_cone.h:203-209 | Returns the axis with the larger dot product with the input, this cone's only when strictly larger, so ties go to the next cone. |
| LimitCones.LimitCone.RectifiedToCone | limit_cone.h:243-253 | No result exactly when the cap holds the input. |
| LimitCones.LimitCone.ClosestToCone | limit_cone.h:243-253 | inBounds[0] is set to whether the cap holds the input, and no other element changes. The result is no result inside the cap, otherwise the axis rotated by the radius about axis × input. |
| LimitCones.RectifiedToConeOnBoundary | limit_cone.h:243-253 | With sound engine math, an out-of-cap input is moved to a unit vector exactly on the cap's boundary circle. |
| LimitCones.RotateAwayFromUnit | limit_cone.h:248-250 | With sound engine math, rotating a unit axis about its cross product with p keeps it unit and turns it by the angle. |
| LimitCones.LimitCone.ClosestPointOnClosestConeResult | limit_cone.h:218-235 | No result exactly when either cap holds the input. Otherwise the rectified point with the larger dot product with the input, the second cap's on a tie. |
| LimitCones.LimitCone.ClosestPointOnClosestCone | limit_cone.h:218-235 | The first cap is asked first and the second only when the first does not hold the input. inBounds[0] ends up true exactly when one cap holds the input, and the result is as above. |
| LimitCones.ClosestPointOnABoundary | limit_cone.h:218-235 | With sound engine math, when neither cap holds the input the answer is a unit vector on the boundary of one of the two caps. |
| LimitCones.LimitCone.GetOnGreatTangentTriangle | limit_cone.h:168-201 | The side of c1 × c2 selects tangent circle 1 (strictly negative) or 2. The result is no result exactly when the input is outside that side's triangle. Inside, an input within the tangent circle is rotated onto it by the tangent radius, and any other input is returned unchanged. |
| LimitCones.GreatTangentTriangleResultOutsideCircle | limit_cone.h:174-181 | With sound engine math, every answer lies on or outside the selected tangent circle, and a moved input lands exactly on it as a unit vector. |
| LimitCones.GreatTangentTriangleIdempotent | limit_cone.h:168-201 | An answer that is still in the same triangle is answered unchanged: rectifying twice is rectifying once. |
| LimitCones.LimitCone.SetTangentCircleCenterNext1 | limit_cone.h:260-266 | The CUSHION mode writes only the cushion centre; any other mode writes only the hard-boundary centre. |
| LimitCones.LimitCone.SetTangentCircleCenterNext2 | limit_cone.h:267-273 | The same dispatch for the second tangent centre. |

## Left out

- Floating point: vectors, radii and damps are exact reals. `cos`, the quaternion rotation and `normalized` are parameters (`Engine`), constrained only by the exact-arithmetic laws in `Sound`. No numeric accuracy is claimed.
- 32-bit integers: counts and indices are unbounded integers. `int32_t` wrap-around (for example `pin_count--` at the minimum) is not modelled. Only the truncation of `set_iterations_per_frame` is.
- Reference identity: pins, cone lists, damp Dictionaries and bones are values. Aliasing between `Ref`s, and Godot's copy-on-write of `Vector`, are not modelled. The one exception is the damp loop as written, whose write through a shared Dictionary is modelled in `BoneDampCacheAsWritten`.
- The reflection and editor layer (`_get_property_list`, `_get`, `_set`, `_bind_methods`, `notify_property_list_changed`, `editor/ewbik_skeleton_3d_editor_plugin.cpp`) is not part of this model.
- Engine glue: `_notification` (including its own call of `skeleton_changed`), `get_skeleton`, `update_ik_bones_transform`, `update_skeleton_bones_transform`, `update_gizmos` and the debug-skeleton flag are scene-tree and transform work. The skeleton and the visibility and root-transform tests are parameters instead.
- Segment and bone internals: `IKBoneSegment` construction, `generate_default_segments_from_root`, `create_bone_list`, the heading arrays, the bone direction and constraint transforms, and `segment_solver` itself are not part of this model. A segment is recorded by its root bone id, a segment's bones are given by the skeleton value, and a solver call is recorded by its root.
- `IKKusudama` internals: the model records the cones, twist and enabled limits `skeleton_changed` hands over. `add_constraint` is taken to replace a bone's constraint, and `_update_constraint` is not modelled.
- The getters `get_pin_count`, `get_constraint_count`, `get_bone_count`, `get_default_damp` and `get_iterations_per_frame` return a field, which the model exposes directly. `get_kusudama_limit_cone_count` reads its table without a check, which is a field read under a range precondition, and is not a separate member.
- ManyBoneIK.ManyBoneIK3D.GetPinBoneName: the source dereferences the slot's template without a null check. The model requires an in-range slot to hold a template instead of modelling the crash on a null one.
- ManyBoneIK.ManyBoneIK3D.GetPinWeight: the source dereferences the slot's template without a null check. The model requires an in-range slot to hold a template instead of modelling the crash on a null one.
- ManyBoneIK.ManyBoneIK3D.GetPinDirectionPriorities: the source dereferences the slot's template without a null check. The model requires an in-range slot to hold a template instead of modelling the crash on a null one.
- ManyBoneIK.ManyBoneIK3D.GetPinPassthroughFactor: the source dereferences the slot's template without a null check. The model requires an in-range slot to hold a template instead of modelling the crash on a null one.
- `set_pin_bone_name`, the pin nodepath functions, `set_kusudama_twist_current`, the constraint-mode getters and setters, and `bone_resistance` are not part of the named core.
- ManyBoneIK.ManyBoneIK3D.constructor: the defaults of `IKEffectorTemplate` are not in the available sources. The template a null or new pin slot becomes is therefore a constructor parameter (`freshPin`).
- ManyBoneIK.ManyBoneIK3D.SkeletonChanged: fills the damp cache with the corrected loop of the Findings row (`BuildBoneDampCache`, specified by `DampCacheOf`), not the loop written at src/many_bone_ik_3d.cpp:898-912. It therefore does not write nil damps back into the damp table and does not drop entry 0 or the configured damps.
- ManyBoneIK.ManyBoneIK3D.RefreshIfDirty: its rebuild is `SkeletonChanged`, so it fills the damp cache with the corrected loop of the Findings row, not the loop as written.
- ManyBoneIK.ManyBoneIK3D.Execute: its rebuild is `SkeletonChanged`, so it fills the damp cache with the corrected loop of the Findings row, not the loop as written.
- ManyBoneIK.ManyBoneIK3D.RefreshIfDirty: the source clears `is_dirty` right after `skeleton_changed`. The model clears it just before. `skeleton_changed` neither reads nor writes the flag, so the outcome is the same.
- LimitCones.LimitCone.constructor: the fields the source leaves at their defaults (the tangent radii, the cushion tangent centres) start at zero. `radialPoint`, `currentCushion`, `softness`, the previous-cushion centres and the triangle vectors are never read by the modelled methods and are left out.
- `limit_cone.h` methods that are only declared (`updateTangentHandles`, `getClosestCollision`, `determineIfInBounds`, `getOnPathSequence`, `computeTriangles`, the mode getters, `setRadius`) have no body to model. `getControlPoint`, `getRadius` and `getRadiusCosine` are read as their fields.
- ManyBoneIK.ManyBoneIK3D.SetKusudamaLimitCone: the source writes the cone index without a bounds check. The model requires the index to be in the list instead of modelling the engine's crash.
- LimitCones.LimitCone.ClosestToCone: the source writes `inBounds[0]` without a bounds check. The model requires a non-empty `inBounds` instead of modelling the engine's crash on an empty one.
- LimitCones.LimitCone.ClosestPointOnClosestCone: it hands `inBounds` to `closestToCone`, which writes `inBounds[0]` without a bounds check. The model requires a non-empty `inBounds` instead of modelling the engine's crash on an empty one.
- Quaternion rotation: the rotation law in `Sound` holds for any non-zero axis, as the release-build `Quaternion(axis, angle)` behaves. `closestToCone` and `getOnGreatTangentTriangle` pass the un-normalized cross product as the axis. Builds that check for a normalized axis and keep the identity instead are not modelled.
- LimitCones.RectifiedToConeOnBoundary: requires a non-zero cross product of the axis and the input. An input exactly opposite the cone axis, where the rotation axis vanishes, is not covered.
- LimitCones.ClosestPointOnABoundary: requires non-zero cross products. An input exactly opposite either cone axis is not covered.
- LimitCones.GreatTangentTriangleResultOutsideCircle: requires a non-zero cross product of the selected tangent centre and the input. An input exactly opposite that centre is not covered.

## Findings

| source | as written | input that shows it | evidently intended | confidence | as-written member | corrected member |
|---|---|---|---|---|---|---|
| src/many_bone_ik_3d.cpp:900-911 | The damp loop advances its index before reading, so entry 0 is never read. It skips every entry that has a "damp" key. It inserts `bone["damp"]` only for entries without one. The `Dictionary` copy shares storage with the table entry and its non-const `operator[]` inserts the missing key, holding nil, so the cache gets 0 and the entry now has a damp of 0: `get_bone_damp` returns 0 for it instead of the default, and the next run of the loop skips it. `_notification` and `execute` can rebuild twice in one frame, and the second run caches nothing. | A damp table holding one entry with a bone name and a damp: the cache stays empty. A table whose entry 1 names a bone and has no damp: after two runs the cache is empty and entry 1 has damp 0. | Every entry with both a bone name and a damp maps its bone to its damp, a later entry for the same bone winning. | not executed | ManyBoneIK.ManyBoneIK3D.BoneDampCacheAsWritten, IkTables.DampCacheAsWrittenDropsDamp, IkTables.DampSecondPassCachesNothing | ManyBoneIK.ManyBoneIK3D.BuildBoneDampCache |
