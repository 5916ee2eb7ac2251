# The territory pipeline of RunnerIO, modelled and verified in Dafny

Runners send live GPS points. `processData` turns a runner's points into a polygon once the run closes, lets newer
polygons eat into older ones of other runners, merges the polygons of each runner, and drops the live points that
territory has swallowed. This project models that pipeline with everything below it (ray casting, polygon surgery,
the greedy tour, the shoelace area), the protocol by which clients join a group, and the registry of websocket
clients, and proves what they guarantee.

`dafny verify dfyconfig.toml` checks everything.

## How the model is built

- Loops of the source are methods over sequences and maps, each proved equal to a specification function; the laws are
  lemmas about those functions. Where a method would be too large for one proof, an inner loop of the source is a
  method of its own, and its comment says which loop it is. The group record and the client registry are classes.
- `float64` is an exact real, `time.Time` the integer number of nanoseconds since Go's zero time.
- `GoLibrary.Library` holds what the code takes from elsewhere: the trigonometric `distance`, the sort by a truncating
  comparator (known to permute, and to sort where the comparator is a weak order) and the two sorts by time (known to
  permute and to sort). Each theorem says
  whether it needs those properties (`Lawful`) or distances below the sentinel `1e9+7` (`Bounded`).
  `LawfulLibraryExists` shows that the assumptions can be met.
- Iteration over a Go map is a loop that takes the keys in an arbitrary order. The order reaches the result only in
  `addPolygonsToNewPolygonArray`, whose method returns it as a ghost value, and the theorems hold for every order.
- Go's nil slice is the empty list: `getPointsInPolygon` returns nil exactly when it finds nothing.
- The cycle configuration is a parameter.

| file | content |
|---|---|
| Schema, Sequences, GoLibrary, Runners | records, sequence laws, library assumptions, order of names |
| Paths, RayCasting, Exactness | closed lists, `isPointInPolygon`, its algebra and its geometry |
| Tour, Surgery | `sortPointsByDistance`; `getPointsInPolygon`, `eatPolygon`, `mergePolygons` |
| Cleaning, Times, Nesting | `cleanPolygons`; what it does to times, when it changes nothing; which overlaps its eat pass leaves |
| LiveLines, Pipeline, Guarantees | `removePointsFromLiveLinesData`; `processData`; end-to-end theorems |
| Sums, Area | weighted sums; `getPolygonArea` and the totals of `AreaProcessor` |
| JoinGroup, Registry | joining a group; the websocket client registry |

## Where the code differs from its documentation

- `IsCycle` is documented to ask for more than ten seconds between the first and the last point, but subtracts the later
  time from the earlier one. `Guarantees.CycleRule` gives the exact condition under which code and document agree,
  `Guarantees.CycleMissed` a cycle the code misses;
  `Guarantees.SecondsCheckBlocksClaims` shows that under the production configuration no polygon is ever formed.
- `eatPolygon` is documented to remove the vertices inside the newer polygon. `Surgery.EatRemovesOverlap` gives the exact
  condition: it fails just when the older polygon reaches into the newer one but no newer vertex is inside the older.
  `Surgery.OverlapLeft` is such an input; `Nesting.PassRemovesOverlap` carries the removal over the whole pass, and
  `Nesting.BroughtBack` shows why that needs a condition on the polygons of one runner.
- Eating the same polygon again, as the next message does, takes the vertices inserted before away (`Surgery.EatTwice`).
- `eatPolygon` is documented to insert the points sorted by their distance from the anchor. `Surgery.NearestFirst` says
  exactly when it does, `Surgery.FartherFirst` is an input for which it does not.
- The live-line cutoff is documented as the time of entry, but a line earlier than the cutoff so far is skipped unread.
  `LiveLines.OrderOfLinesMatters` is an input whose result depends on the order of the lines. Two exact conditions on
  times and entry times say when the cutoffs are the latest entries whatever the order (`LiveLines.CutoffsAreLatest`)
  and when the kept lines do not depend on the order (`LiveLines.KeptOrderFree`).
- A polygon that was eaten or merged loses its time, so the sort by time of the next run cannot tell two of them apart
  (`Times.TimesLost`, with `Times.ThreeClaims` as an input). `Times.TimesKept` gives the exact condition on the input
  under which no time is lost.
- A client told that it joined may not be a member (`JoinGroup.LostJoin`); `JoinGroup.MembershipLasts` says exactly when
  a membership lasts.

## Model

| member | source | states |
|---|---|---|
| RayCasting.IsPointInPolygon | internal/services/utils.go:182-203 | the parity loop answers: a vertex of the list, or an odd number of its closed edges meets the ray to the right |
| RayCasting.CrossesByOrientation | internal/services/utils.go:197-198 | the quotient test of one edge means: strictly left of an edge going up, strictly right of an edge going down |
| RayCasting.ChordLaw | internal/services/utils.go:190-202 | for any list cut at any two indices and a point that is no vertex, the answer is the exclusive or of the answers on the two parts |
| RayCasting.RotationLaw | internal/services/utils.go:182-203 | the answer does not depend on the vertex the list starts with, for every point |
| RayCasting.ReversalLaw | internal/services/utils.go:182-203 | the answer does not depend on the direction of the list, for every point |
| RayCasting.SubdivisionLaw | internal/services/utils.go:190-202 | inserting a point of an edge between its ends changes no answer except at that point |
| RayCasting.SamePlaceSameAnswer | internal/services/utils.go:182-203 | the answer looks at coordinates only: the time stamps of the point and of the vertices may all differ |
| Exactness.TriangleExact | internal/services/utils.go:190-202 | on a triangle turning left, for every point, vertices and boundary included: reported by the parity exactly when left of all three sides, points of a side counting on one side of it only |
| Exactness.FanLaw | internal/services/utils.go:190-202 | on any list, self-crossing or not, and for any point that is no vertex, the answer is whether an odd number of the fan triangles at vertex 0 hold the point, by the side rule of TriangleExact in the triangle's own direction |
| Exactness.ConvexExact | internal/services/utils.go:190-202 | the same rule for convex polygons with any number of vertices |
| Exactness.ConvexPolygonLaw | internal/services/utils.go:182-203 | points strictly left of every edge of a convex polygon are reported inside, points right of some edge outside, whichever way round the list runs |
| Exactness.TriangleLaw | internal/services/utils.go:182-203 | every non-degenerate triangle, in either orientation: positive barycentric weights are inside, a negative weight is outside |
| Exactness.BoundingBoxLaw | internal/services/utils.go:182-203 | a point reported inside a list of any shape is within the bounding box of the vertices |
| Tour.SortPointsByDistance | internal/services/utils.go:107-140 | the loop terminates and emits the greedy tour from the first point |
| Tour.GreedyLaw | internal/services/utils.go:117-138 | from each stop the next is no farther than any later one, and on a tie has the lower original index |
| Tour.DroppedLaw | internal/services/utils.go:118-135 | for any distance: the tour starts at point 0, its steps are shorter than 1000000007, and each point left out is at least that far from the last stop |
| Tour.ShortLaw | internal/services/utils.go:108-110 | two points or fewer are returned as they are |
| Tour.EarthLaw | internal/services/utils.go:59-78 | with distances up to 20100 km, which covers the formula, every point is emitted exactly once |
| Tour.PermutationLaw | internal/services/utils.go:107-140 | no point is emitted twice; with distances below the sentinel the result is a permutation of the input |
| Surgery.GetPointsInPolygon | internal/services/utils.go:144-178 | returns the inside vertices and the splice index |
| Surgery.WalkBack | internal/services/utils.go:163-169 | the backwards cyclic walk terminates whenever some but not all vertices were found, at the directly defined splice index |
| Surgery.SpliceLaw | internal/services/utils.go:155-169 | the index is -1 exactly when none or all vertices are inside; otherwise its vertex is outside, its cyclic successor inside, and it is the one before the first run of inside vertices, counted around the end of the list when vertex 0 is inside |
| Surgery.FoundOrder | internal/services/utils.go:151-175 | all vertices come out in their own order; only some of them come out as the sort by distance from the origin leaves them, ascending wherever its truncating comparator is a weak order |
| Surgery.EatPolygon | internal/services/run_processor.go:224-267 | the loops compute the specified polygon |
| Surgery.EatAllOrNothing | internal/services/run_processor.go:224-267 | without vertices inside each other nothing changes; a polygon swallowed whole loses every vertex and its time |
| Surgery.EatShape | internal/services/run_processor.go:236-264 | partial eating leaves the vertices outside the newer polygon in their order, with one block right after the anchor, for the same runner and without a time |
| Surgery.BlockLaw | internal/services/run_processor.go:236-264 | the block is a permutation of the newer vertices inside the older polygon that share a place with no old vertex, cut from the points found, which are reversed exactly when their last is nearer to the anchor than their first |
| Surgery.NearestFirst | internal/services/run_processor.go:219-252 | the inserted points are sorted by distance from the anchor if and only if the points found come nearest first, or farthest first when the last of them is the nearer end |
| Surgery.FartherFirst | internal/services/run_processor.go:219-252 | two triangles for which the farther point is inserted first |
| Surgery.EatAccounts | internal/services/run_processor.go:236-264 | the vertices of the result with multiplicity, and their number |
| Surgery.EatenVertices | internal/services/run_processor.go:224-267 | each vertex of the result is an old one outside the newer polygon or a newer one strictly inside the older |
| Surgery.EatTwice | internal/services/run_processor.go:224-267 | for all polygons: eating twice by the same polygon is eating once if and only if the first eat inserted no vertex |
| Surgery.EatRemovesOverlap | internal/services/run_processor.go:219-230 | the vertices inside the newer polygon are gone if and only if reaching into it implies being reached into |
| Surgery.OverlapLeft | internal/services/run_processor.go:219-230 | a small triangle inside a large newer one comes back unchanged |
| Surgery.MergePolygons | internal/services/run_processor.go:274-315 | the loops compute the specified polygon and flag |
| Surgery.MergeLaw | internal/services/run_processor.go:274-315 | merging applies exactly when each has a vertex inside the other, and keeps exactly the first polygon's vertices outside the second and then the second's outside the first, in tour order |
| Surgery.MergeSymmetric | internal/services/run_processor.go:274-315 | swapping the arguments changes neither the flag nor the multiset of vertices |
| Surgery.SelfMerge | internal/services/run_processor.go:274-315 | a polygon merged with itself loses every vertex |
| Runners.Sort | internal/services/run_processor.go:207 | the same names, each before every later one in the order of strings |
| Runners.LessIsPrecedes | internal/services/run_processor.go:207 | the order compares as strings do: a proper prefix comes first, and otherwise the first differing character decides |
| Runners.AscendingUnique | internal/services/run_processor.go:203-207 | only one list has the names in that order, so the map iteration before the sort does not matter |
| Cleaning.CleanPolygons | internal/services/run_processor.go:162-217 | the whole of the loops computes the specified list |
| Cleaning.EatOlder | internal/services/run_processor.go:168-177 | each polygon, newest first, is eaten by the already cleaned polygons of other runners |
| Cleaning.EatPassAt | internal/services/run_processor.go:168-177 | at every position: the polygon there, eaten by what eating has left of all earlier ones |
| Cleaning.EatenByJoin | internal/services/run_processor.go:169-175 | eating by two lists one after the other is eating by their concatenation |
| Cleaning.EatenByOne | internal/services/run_processor.go:169-175 | one polygon eats exactly when it is another runner's |
| Cleaning.MergeByRunner | internal/services/run_processor.go:179-200 | each polygon goes into its runner's group, merged into the first that takes it |
| Cleaning.MergeIntoAt | internal/services/run_processor.go:188-199 | the first polygon of the group that overlaps is replaced by the merged one; without any the new polygon comes last |
| Cleaning.GroupStep | internal/services/run_processor.go:181-199 | one more polygon changes its own runner's group only |
| Cleaning.GroupLaw | internal/services/run_processor.go:179-200 | the merge pass treats each runner's polygons as if there were no others |
| Cleaning.RunnersKept | internal/services/run_processor.go:162-217 | every runner keeps at least one and at most their number of polygons, and nobody else appears |
| Cleaning.CleanGrouped | internal/services/run_processor.go:202-214 | the result is grouped by runner, in the ascending order of strings |
| Cleaning.CleanVertices | internal/services/run_processor.go:162-217 | every vertex of the result is, time stamp included, a vertex of some input polygon |
| Cleaning.MergeNeverAdds | internal/services/run_processor.go:179-200 | merging never adds to a runner's vertices, counted with multiplicity |
| Cleaning.OrderIndependent | internal/services/run_processor.go:162-217 | with pairwise distinct times every permutation of the input gives the same list |
| Cleaning.NewestUntouched | internal/services/run_processor.go:162-217 | a strictly newest polygon, the only one of its runner, comes out verbatim as that runner's only polygon |
| Nesting.PassRemovesOverlap | internal/services/run_processor.go:168-177 | after the whole pass no vertex of a polygon is strictly inside a newer one of another runner, provided each reach at the moment of its eat was mutual and no vertex is strictly inside a newer polygon of its own runner |
| Nesting.OnePerRunnerRemovesOverlap | internal/services/run_processor.go:168-177 | with one polygon per runner and every reach mutual at its eat, no vertex is left strictly inside any newer polygon |
| Nesting.BroughtBack | internal/services/run_processor.go:168-177 | three triangles, every reach mutual, two of them of one runner: a later eat inserts a vertex strictly inside the newest polygon again |
| Times.CleanTimes | internal/services/run_processor.go:162-217 | every output polygon is an input polygon verbatim or has the zero time |
| Times.TimesKept | internal/services/run_processor.go:162-217 | for every input: all output polygons have a time if and only if all input polygons have one and no two of them reach into each other, whoever runs them |
| Times.NothingToClean | internal/services/run_processor.go:162-217 | without such a pair the polygons come out unchanged, each runner's newest first |
| Times.CleanPermutes | internal/services/run_processor.go:162-217 | when all input polygons have times, the output is a permutation of the input if and only if there is no such pair |
| Times.CleanIdle | internal/services/run_processor.go:162-217 | with distinct times and no such pair, cleaning again changes nothing |
| Times.TimesLost | internal/services/run_processor.go:162-217 | two output polygons that are not input polygons have the same time, so the next pass starts with times that are not distinct |
| Times.ThreeClaims | internal/services/run_processor.go:162-217 | any ground claimed by three runners at distinct times: the newest claim is verbatim, the other two come out without vertices and with the same time |
| LiveLines.RemovePointsFromLiveLinesData | internal/services/run_processor.go:106-156 | the loops compute the specified cutoffs and keep the specified lines |
| LiveLines.HoldsPlace | internal/services/run_processor.go:120-128 | a polygon holds a line exactly when the point with the line's coordinates is inside it, whatever the time stamp |
| LiveLines.EntryTimeLaw | internal/services/run_processor.go:124-136 | the entry time is the maximum of the line's time and the times of the polygons that hold it |
| LiveLines.CutoffsNeverDecrease | internal/services/run_processor.go:109-140 | despite the early skip no cutoff ever falls |
| LiveLines.CutoffWitness | internal/services/run_processor.go:109-140 | a runner has a cutoff exactly when a line of theirs is in territory, and it is the entry time of such a line |
| LiveLines.NoneInTerritory | internal/services/run_processor.go:106-156 | no kept line is inside any of the polygons |
| LiveLines.RemovalWitness | internal/services/run_processor.go:106-156 | each removed line has a line of the same runner inside a polygon that is, or was entered, no earlier |
| LiveLines.RemovalDownward | internal/services/run_processor.go:144-153 | with a line all earlier lines of the runner go |
| LiveLines.RemainingLaw | internal/services/run_processor.go:142-155 | the kept lines are a subsequence; a runner without lines in territory loses none |
| LiveLines.SecondPassIdle | internal/services/run_processor.go:106-156 | a second pass with the same polygons removes nothing |
| LiveLines.ReachableCutoffs | internal/services/run_processor.go:109-140 | the cutoffs a runner can get, over all orders of the lines, are the entry times of the lines in territory such that every later entry of the runner was sent before that entry time |
| LiveLines.CutoffsAreLatest | internal/services/run_processor.go:113-118 | for every order of the lines the cutoff bounds all entry times of the runner, if and only if no line in territory other than the latest entries has all later entries of its runner sent before its own entry time |
| LiveLines.KeptOrderFree | internal/services/run_processor.go:106-156 | every order of the lines keeps the same lines, if and only if no line of a runner falls between two reachable cutoffs |
| LiveLines.LatestOrderFree | internal/services/run_processor.go:106-156 | under that condition for every runner, every order of the lines keeps the same lines |
| LiveLines.OrderOfLinesMatters | internal/services/run_processor.go:113-118 | three lines and two triangles for which two orders of the lines give different results |
| Pipeline.ToPolygonData | internal/dto/schema/runner_live_lines_schema.go:13-32 | the places and times of the lines in order, the first sender, the latest time |
| Pipeline.ToPolygonLaw | internal/dto/schema/runner_live_lines_schema.go:13-32 | the same of the specified polygon, for any list of lines: vertex k is the place and time of line k |
| Pipeline.CycleInNumbers | internal/services/utils.go:85-103 | for all lines: a cycle exactly when there are two lines, the first is later than the last by the threshold less 10000 ns if the check is on, and the ends are within the threshold less 0.00001 m |
| Pipeline.ProductionCycle | internal/services/run_processor.go:39-44 | with the production thresholds: within 0.99999 m and, with the check on, at least 9.99999 s from the last line to the first |
| Pipeline.SegregatePointsByUser | internal/services/run_processor_helper.go:21-33 | every sender is mapped to their lines, oldest first |
| Pipeline.CreateUserPolygonsMap | internal/services/run_processor_helper.go:35-45 | exactly the users whose lines close a cycle, each with their lines |
| Pipeline.AddPolygonsToNewPolygonArray | internal/services/run_processor_helper.go:47-58 | the stored polygons, then one polygon per list of the map, in some order of its keys |
| Pipeline.ProcessData | internal/services/run_processor.go:76-98 | the composition of all steps, for some order of the claimants |
| Guarantees.ClaimLaw | internal/services/run_processor_helper.go:21-58 | a claim has one vertex for each of its runner's lines, in ascending order of time, and is as late as the latest of them |
| Guarantees.NewestClaimWins | internal/services/run_processor.go:76-98 | a strictly newest claim of a runner without stored polygon is that runner's only output polygon, verbatim, and no live line of the runner remains |
| Guarantees.PolygonsOrderIndependent | internal/services/run_processor.go:76-98 | with distinct times the polygons depend on the order neither of the lines, nor of the stored polygons, nor of map iteration |
| Guarantees.KeptLinesOutside | internal/services/run_processor.go:92-97 | every kept line is outside every output polygon, the kept lines are a subsequence, and another pass changes nothing |
| Guarantees.EntryThroughVerbatim | internal/services/run_processor.go:124-136 | against cleaned polygons the entry time of a line is its own time, or that of a polygon that came through cleaning verbatim and holds it, or the zero time for a line sent before it |
| Guarantees.RunnersAccounted | internal/services/run_processor.go:76-98 | the runners of the output are those of stored polygons and the claimants, each with at most that many polygons |
| Guarantees.VerticesAccounted | internal/services/run_processor.go:76-98 | every output vertex is a stored vertex or the place and time of a live line |
| Guarantees.CycleRule | internal/services/utils.go:80-103 | on lines in time order the code agrees with the documented rule if and only if there are fewer than two lines, the seconds check is off, the ends are too far apart, the elapsed time is below the threshold, or its negative reaches it |
| Guarantees.CycleMissed | internal/services/utils.go:80-103 | two lines at one place twenty seconds apart are a cycle by the document and none by the code |
| Guarantees.SecondsCheckBlocksClaims | internal/services/utils.go:94-96 | with the seconds check on for one second or more nobody claims anything and only stored polygons are cleaned |
| Area.GetPolygonArea | internal/services/area.go:35-49 | half the absolute shoelace sum around the greedy tour |
| Area.AreaIsFan | internal/services/area.go:35-49 | for every list: twice the area is the sum over the fan triangles of the greedy tour, taken positively |
| Area.TriangleArea | internal/services/area.go:35-49 | three points have the area of their triangle, whatever the tour |
| Area.ShoelaceFan | internal/services/area.go:39-46 | the loop's sum is the sum over the fan triangles at vertex 0, for every list |
| Area.ShoelaceTurned | internal/services/area.go:39-46 | the sum does not depend on the starting vertex and changes sign with the direction |
| Area.ShoelaceShifted | internal/services/area.go:39-46 | the sum does not change under translation |
| Area.AreaBound | internal/services/area.go:35-49 | n points in a box of width w and height h have an area of at most (n - 2) w h / 2, whatever the reordering does |
| Area.AreaForEachUser | internal/services/area.go:21-31 | exactly the runners of the polygons, each with the total of their areas |
| Area.AreasConserved | internal/services/area.go:21-31 | the runners' areas add up to the area of all polygons |
| JoinGroup.Group.constructor | internal/api/runner_group/create_runner_group_handler.go:65-82 | a new group has its owner as only member |
| JoinGroup.Group.FindOne | internal/api/runner_group/join_runner_group_handler.go:61-67 | the request gets a copy of the stored members |
| JoinGroup.Group.CheckCopy | internal/api/runner_group/join_runner_group_handler.go:69-83 | member, full or appended, decided on the copy: already a member exactly when listed, full exactly when not listed and sixteen are |
| JoinGroup.Group.UpdateOne | internal/api/runner_group/join_runner_group_handler.go:85-98 | the stored members are overwritten with the copy |
| JoinGroup.ReachableProper | internal/api/runner_group/join_runner_group_handler.go:59-98 | for any number of requests interleaved in any way, every stored list and every copy has 1 to 16 distinct members, the owner first |
| JoinGroup.Answers | internal/api/runner_group/join_runner_group_handler.go:69-81 | which answer goes with which copy, for every request |
| JoinGroup.SixteenFit | internal/api/runner_group/join_runner_group_handler.go:76-81 | a client joins a list of fifteen and is refused by a list of sixteen |
| JoinGroup.Refused | internal/api/runner_group/join_runner_group_handler.go:69-94 | after a refusal or a failed call nothing of the request can be written any more |
| JoinGroup.UndisturbedJoin | internal/api/runner_group/join_runner_group_handler.go:59-98 | with no other write between its read and its write a join adds exactly the client, or nothing when already a member or full |
| JoinGroup.MembershipLasts | internal/api/runner_group/join_runner_group_handler.go:59-98 | a membership survives every continuation if and only if no request in flight is about to write a list without it |
| JoinGroup.LostJoin | internal/api/runner_group/join_runner_group_handler.go:59-98 | two interleaved joins, each of which is about to write and so is answered with success, leave only the second client beside the owner |
| Registry.GroupCodeDataClientManagerMap.Add | internal/dto/ws/group_code_data.go:25-29 | the client comes last in the list of the key, every other key is as before |
| Registry.GroupCodeDataClientManagerMap.Remove | internal/dto/ws/group_code_data.go:31-35 | the key is gone with its list, every other key is as before |
| Registry.GroupCodeDataClientManagerMap.Get | internal/dto/ws/group_code_data.go:37-42 | the stored list, and whether there is one |
| Registry.GroupCodeDataClientManagerMap.RemoveClient | internal/dto/ws/group_code_data.go:44-63 | the first occurrence goes, and the key with the last client; every other key is as before |
| Registry.WithoutFirstLaw | internal/dto/ws/group_code_data.go:53-58 | exactly the first occurrence is removed and the others keep their order |
| Registry.RunRefines | internal/dto/ws/group_code_data.go:25-63 | over every run the registry is one independent list per key, and never stores an empty list |
| Registry.ComesAndGoes | internal/dto/ws/group_code_data.go:25-63 | a fresh client added, and removed after any operations on others, leaves the registry as those operations alone would |

## Left out

- The body of `distance` (internal/services/utils.go:59-78): floating-point trigonometry; any real function stands in for it. Rounding and NaN are outside an exact-real model.
- The saturation of Go's time difference at 64 bits: differences of times are exact.
- The result of the sort in `getPointsInPolygon` where its truncating comparator is no weak order: Go promises nothing there, so only the permutation is known.
- The bytes of runner names: names are compared character by character, which for valid UTF-8 is Go's order of bytes.
- Aliasing of slices: sorting, reversing, deleting and shifting in place happen on sequence values. The slice that `mergePolygons` results are written into is the one stored in the map, so writing the map entry is the same; a slice returned by the registry's `Get` may change under its reader, and nothing is claimed about it.
- Registry.GroupCodeDataClientManagerMap.RemoveClient: does not model the shared backing array that the removal shifts in place.
- Mongo, Redis and RabbitMQ: documents read are parameters; the group document is one record with atomic read and overwrite, and a failed call is the step `Abort`.
- Nesting.PassRemovesOverlap: the condition is sufficient, not necessary, because a later claim may happen to take away a vertex that an earlier one left; what one claim leaves is characterised exactly by `Surgery.EatRemovesOverlap`.
- The lookup of a joining request: internal/api/runner_group/join_runner_group_handler.go:61 filters on the field `code`, while the record created (internal/dto/schema/runner_group_schema.go:5) has no tag of that name for the database. The join theorems assume that the lookup finds the group.
- A fixed point of merging: one merge pass does not reach it, and none is claimed.
- Area or shape conservation under eating and merging: the code moves vertices and computes no intersections.
- The single-slot `PersistAuditDataManagerMap`, permissions, HTTP and websocket handlers, routes, environment and logging: only easy members or plumbing.
