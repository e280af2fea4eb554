# Verified model of the ArgyllCMS gamut, CGATS and counter code

A Dafny model of three parts of the repository, with proofs of what they promise.

- **The gamut surface** (`gamut/gamut.c`). The hull triangulator that inserts vertices into a triangle and edge mesh; the
  filter that keeps points in a reference counted quadtree; and the three search structures with the scans they must agree
  with: the radial BSP tree, the vector intersection through it, and the touch-counted nearest triangle search. Also the
  routine that turns raw line hits into in and out pairs.
- **The CGATS files** (`cgats/cgats.c`, `cgats/pars.c`). The line reader and tokenizer, the five-state table reader, the
  writer, quoting, the types of cells and columns, the number formats, and the object that holds the tables.
- **Small algorithms.** The permutation and combination counters (`h/counters.h`), the heapsort (`h/sort.h`), the circular
  lists (`h/llist.h`), compressed domain names (`ccast/ccmdns.c`) and the dither patterns (`ccast/dpat.c`).

`dafny verify dfyconfig.toml` checks everything. One module is one file of the same name.

## How it is modelled

Code that updates objects in place is a class, or works on arrays, with the same fields and loops: the mesh records
(`Mesh`), the filter (`GamutFilter`), the search structure (`Nearest`), the parser and the CGATS object (`Pars`, `CgatsFile`),
the counters, the lists, the hit list of the sanitiser. Each of their methods is specified by functions and predicates on
values, and the properties are proved about those.

The mesh needs most explanation. A surface is a set of directed triangles (`Surface`); what the records say is a wiring of
triangle sides to edge ends (`Wiring`), and `Mesh.Mesh.Valid` ties the records, the wiring, the surface and the vertex flags
together. One insertion is proved to take the surface C to the cone over the boundary of a region R. That region is
determined by C and the vertex alone (`Horizon.HitRegionLeast`), and the mesh stays valid exactly when the boundary of R is
one simple cycle. A run is therefore described by a function of the start and the vertices (`Mesh.SurfaceAfter`). Geometry
enters only through the plane oracle `Planes`; `Mesh.ThroughSymmetric` gives the planes of `plane_equation` as an instance.

Coordinates are reals. Where the program compares with a slack, the constants are the program's.

## Findings

Each is a lemma or method on a concrete input or with an exact condition.

- The nearest triangle search can miss the nearest triangle when the query is below every upper edge on an axis:
  `Nearest.SearchMissesNearest`. `Nearest.Nn.NearestTri` says exactly what it returns there and when that is right, and that
  it is right for every point that fits. `AxisWindow.CornerCovers` is the condition on one axis.
- The radial lookup can fail for a vertex that is off a split plane by no more than 1e-10 but by 1e-12 or more:
  `BspSearch.SliverMissed`. `BspSearch.FoundExactly` is the condition for every tree and point.
- `lu_split` gives the sub-lists room for the triangles counted on each side, but also puts into both those that lie on
  neither side: `Bsp.RoomEnough`, with five triangles on the unit sphere for which the room is too small in
  `BspRoom.CrowdOverflows`.
- `insert_vertex` keeps the mesh valid exactly when the hole has one simple boundary: `Mesh.Mesh.InsertVertex`. Nothing in the
  routine checks that. `MeshHole.BreakMesh` is a tetrahedron round the centre and a vertex that removes it altogether: the
  centre is within 1e-10 of one face, the vertex is as close to the plane through the centre and an edge of that face, and
  the fourth corner is straight opposite to it.
- The simplex counter's initial value is not marked as done when there is no simplex selection. `Combos.SimplexExists` says
  when there is one, and `ComboCounter.Combo.XInit` promises a selection only then.
- A CGATS file that ends before END_DATA is read without error, and its last table counts a set that has no cells:
  `CgatsWhole.BrokenReads`. `CgatsWhole.ReadWhole` says for all inputs, on their tokens, when a table is whole.
- A column of unquoted strings may read back as one of quoted strings: `CgatsColumns.BareBecomesQuot`. It does exactly when
  its field is not a standard one and the writer puts quotes around one of its cells: `CgatsColumns.TypeReadsBack`.
- The result of following a pointer in a domain name is ignored, so a name with a bad pointer is read without error as the
  labels before it: `Dns.SuccessExactly`, `Dns.SelfPointer`, `Dns.FirstName`. A name whose terminator is the last byte of the
  buffer is refused: `Dns.WireReads`.
- Eight surrounders can be given seventeen of the sixteen cells of a dither pattern: `Dither.EightOver`. The routine then reads
  past its table of cells. `DitherPattern.GetCcastDith` has the condition, and at most seven always fit.

Two comments in the program differ from its code, which the model follows: `read_string` promises a null string on error but
leaves the pointer as it was when the length pass fails (the model returns null); and `nearest_tri` leaves its straddler step
unexplained, which `AxisWindow.DoneCorrecting` explains.

## Model

| member | source | states |
|---|---|---|
| Surface.ConeManifold | gamut/gamut.c:2565-2640 | Replacing a region of a closed oriented manifold by the fan of a new vertex over the region's boundary gives a closed oriented manifold again exactly when that boundary is one non-empty simple cycle; every vertex then has a single cycle of triangles round it |
| Surface.ConeVerts | gamut/gamut.c:2375-2382 | The vertices of the new surface are the old ones without those of the removed region, plus the boundary's and the new one: what clearing and setting the TRI flag arrives at |
| SurfaceCount.ConeEuler | gamut/gamut.c:2264-2313 | A step changes V - E + F by exactly what the removed region falls short of a disc |
| HitList.MergeBoundary | gamut/gamut.c:2321-2365 | Merging one face, which cancels with its reverse or is added, keeps the hit list equal to the directed boundary of the faces seen so far |
| HitList.HitStep | gamut/gamut.c:2368-2414 | After a triangle is split and its three faces merged, the hit list is again the directed boundary of the removed region, without duplicates, and the triangle across each listed face is live |
| Horizon.HitRegionLeast | gamut/gamut.c:2529-2562 | The region removed is the least one that holds all visible triangles and, with a face that makes a poor triangle, the triangle across it: it does not depend on the order of the search |
| Horizon.PoorInside | gamut/gamut.c:2529-2562 | When the expansion is stable no boundary face makes a poor triangle with the vertex |
| MeshCount.SidesAreEnds | gamut/gamut.c:2143-2242 | In a sound wiring of sides to edge ends, 3F == 2E |
| MeshCount.TetraChi | gamut/gamut.c:2730-2825 | The base tetrahedron has V - E + F == 2 |
| Tetra.TetraWired | gamut/gamut.c:2730-2825 | The links that are written for four triangles and six edges are mutual, cover every side and form rings |
| OneFace.FaceCycle | gamut/gamut.c:2497-2508 | The boundary of a single visible triangle is a simple cycle, so the condition of the step can be met |
| OneFace.FaceRemoved | gamut/gamut.c:2497-2562 | If the vertex sees one triangle and makes no poor triangle with its edges, that triangle alone is removed |
| Mesh.ThroughSymmetric | gamut/gamut.c:1883-1946 | Planes computed by plane_equation from the three vertices do not depend on which comes first, as the mesh assumes |
| Mesh.Mesh.AddToHitList | gamut/gamut.c:2321-2365 | In place: the list and the records become those of the merge, and an edge whose two faces cancel leaves the edge list |
| Mesh.Mesh.AddTriToHitList | gamut/gamut.c:2368-2414 | In place: the live triangle leaves the triangle list, the hit list is the boundary of the grown region, and exactly the vertices of the region lose TRI and gain INSIDE |
| Mesh.Mesh.RemoveVisible | gamut/gamut.c:2455-2508 | Exactly the triangles visible from the vertex are removed, and hit says whether there are any |
| Mesh.Mesh.ExpandHits | gamut/gamut.c:2527-2562 | The loop ends, and what is removed in all is the hit region |
| Mesh.Mesh.CloseFaces | gamut/gamut.c:2565-2604 | Every face becomes a triangle with the new vertex, and each pair of neighbours shares one new edge with mutual links |
| Mesh.Mesh.InsertVertex | gamut/gamut.c:2424-2641 | From any valid mesh: there is a hit exactly if some face has the vertex more than 1e-10 outside; no such face stays, the region removed is the least one without poor edges on its boundary, and the vertex is at least 1e-10 inside every boundary edge plane; without a hit the mesh is unchanged and the vertex is INSIDE; else the surface is the cone over the hole, the flags follow it, and the mesh is valid again exactly when the hole's boundary is one simple cycle |
| Mesh.Mesh.Base | gamut/gamut.c:2710-2833 | Four vertices give a valid mesh whose surface is the tetrahedron over them |
| Mesh.Mesh.InsertAll | gamut/gamut.c:2838-2857 | Over the whole loop: every vertex is placed, each step that changes the surface leaves no old face with the vertex more than 1e-10 outside and each that does not had none, the surface is the one that the steps determine, and the mesh is valid exactly when all holes were simple |
| Mesh.Mesh.TriangulateCh | gamut/gamut.c:2656-2864 | The same from the base tetrahedron through all vertices in any order |
| Mesh.Mesh.EulerAfter | gamut/gamut.c:2264-2313 | After a valid run whose holes are discs, V - E + F == 2 and 3F == 2E for the lists kept |
| Mesh.Mesh.Counts | gamut/gamut.c:2143-2315 | On any valid mesh 3F == 2E, and the Euler count of the surface is that of the lists |
| Mesh.OneFaceHole | gamut/gamut.c:2424-2641 | A run step whose hole is simple and a disc exists on every manifold that the vertex sees in one triangle only |
| MeshHole.AllRemoved | gamut/gamut.c:2527-2562 | On a tetrahedron of which the vertex sees one face, and makes poor triangles with an edge of that and with two more, all four triangles are removed, and the hole is not simple |
| MeshHole.NothingLeft | gamut/gamut.c:2424-2641 | Five points and the planes of plane_equation for which this happens |
| MeshHole.CentreInside | gamut/gamut.c:2656-2833 | The tetrahedron over the first four has the centre strictly inside |
| MeshHole.BreakMesh | gamut/gamut.c:2656-2864 | After the base triangulation over four of these points and the insertion of the fifth the mesh is not valid |
| Sort.SiftDown | h/sort.h:49-64 | The sift restores the heap from position l on, as a permutation, and touches nothing outside |
| Sort.HeapSort | h/sort.h:25-67 | For every length and every strict weak order the array ends sorted and a permutation of what it was |
| Boxes.GapBound | gamut/gamut.c:4436-4516 | No point of a triangle is nearer than the signed squared gap between the query point and its box on any axis |
| AxisWindow.Search | gamut/gamut.c:4184-4220 | The binary search brackets the query point in a sorted edge list |
| AxisWindow.CountStraddlers | gamut/gamut.c:4229-4231 | The correction is started with the number of boxes that are in neither window |
| AxisWindow.DoneCorrecting | gamut/gamut.c:4233-4277 | After as many rounds as there are straddlers every box is in a window: why the step the author marks as not understood works |
| AxisWindow.AxisStart | gamut/gamut.c:4178-4287 | For a point that fits, the two starting windows of an axis hold every box, with right edge distances; for any point the distances are right or the low side is out of use |
| AxisWindow.CornerCovers | gamut/gamut.c:4178-4287 | For a point below every upper edge, with one straddler at most and some box above it, the windows hold every box exactly when the straddler heads the list by upper edges |
| Nearest.NearestBf | gamut/gamut.c:4111-4138 | The scan returns the least squared distance and a point at it |
| Nearest.Nn.constructor | gamut/gamut.c:4436-4516 | Six lists sorted by box edges, each a permutation of the triangles, nothing touched |
| Nearest.Nn.Touch | gamut/gamut.c:4348-4376 | A box is counted once for every window edge that passes it, up to three times, stale counts from earlier queries counting as none; at the third it is tested |
| Nearest.Nn.Rebase | gamut/gamut.c:4173-4177 | The reset at wrap-round keeps every count at or below the base |
| Nearest.Nn.Finished | gamut/gamut.c:4329-4333 | Stopping when the nearest window edge is beyond the best loses no box that the windows held three times |
| Nearest.Nn.NearestTri | gamut/gamut.c:4145-4408 | For any point in range the least distance over the triangles that the starting windows hold three times is returned; for a point that fits on every axis these are all, as for the scan; from a corner exactly those that head the lists on as many axes as they straddle, and the answer is the nearest of all exactly when none that is left out is nearer; for a point that fits on some axes and is in a corner on the others at least those that do so on the latter; the result is always a triangle of the structure at the distance reported |
| Nearest.Nn.CornerRight | gamut/gamut.c:4145-4408 | From a corner the answer is the scan's exactly if every triangle that straddles more axes than it heads is at least as far as one that does not, or beyond the worst distance |
| Nearest.Nn.SightedOften | gamut/gamut.c:4178-4287 | Where a point fits on an axis the windows hold every triangle at least once, and where it is in a corner once more for the head and once less for a straddler |
| Nearest.SearchMissesNearest | gamut/gamut.c:4145-4408 | Two triangles and a query for which the search returns squared distance 3 and the scan 2; these are the least squared distances of all points of the one and the other triangle |
| Bsp.GoodSplit | gamut/gamut.c:3757-3841 | An accepted split gives two non-empty, strictly shorter lists |
| Bsp.BestPlane | gamut/gamut.c:3757-3850 | The edge plane chosen is the first of best score |
| Bsp.ScoreIs | gamut/gamut.c:3782-3828 | The score of a plane: the smaller of the numbers of triangles with a vertex more than 1e-10 above and below it, less the number of triangles in both lists, by which the lists together are longer than what is split |
| Bsp.LuSplit | gamut/gamut.c:3725-3934 | The recursion ends, and the tree is one whose nodes split by the first best plane, whose sub-trees hold exactly the triangles that reach each side, and whose radius ranges are those of what is below; it gives up exactly when that tree needs a hundred nested calls or more |
| Bsp.RoomEnough | gamut/gamut.c:3889-3913 | Filling the sub-lists stays within the room counted exactly when no triangle lies on neither side of the plane |
| BspRoom.CrowdOverflows | gamut/gamut.c:3889-3913 | Five triangles with vertices on the unit sphere and unit edge planes, whose best split needs more room than was counted on both sides |
| BspSearch.HeldList | gamut/gamut.c:3905-3929 | A tree built for a list holds exactly the list |
| Cone.PassesExactly | gamut/gamut.c:1973-1980 | For a triangle that is not flat seen from the centre, the edge test without slack holds exactly for the points of the cone through it |
| BspSearch.RadialPointTriang | gamut/gamut.c:3939-4006 | The recursive lookup returns what the search function does, so the lemmas about that are about it |
| BspSearch.FoundExactly | gamut/gamut.c:3939-4006 | The lookup succeeds exactly when some triangle of the list passes the edge test with slack 1e-10 and at every node is on a side that is looked at, which is any side that the direction is not more than 1e-12 away from; what it returns is such a triangle, from the positive side if that has one |
| BspSearch.BetweenScans | gamut/gamut.c:3939-4006 | It finds nothing that a scan with the same slack would not, and when every vertex is on or clear of the split planes it finds a triangle whenever the scan without slack does |
| BspSearch.SliverMissed | gamut/gamut.c:3782-3797 | A vertex that is not clear of the split plane: the lookup on the tree finds no triangle for that vertex of a triangle, while the scan does |
| BspSearch.SliverExists | gamut/gamut.c:3782-3797 | Such triangles exist with corners at distance one |
| BspSearch.SliverRun | gamut/gamut.c:3725-4006 | Building and looking up on these two triangles gives no answer |
| BspVector.ComputeVectorIsectBf | gamut/gamut.c:4844-4913 | The scan returns the extreme intersection parameters over all triangles; for hits below 1e68 it finds an intersection exactly if some triangle is hit, and the points and triangles returned are where and which the line hits at those parameters |
| BspVector.NotWorth | gamut/gamut.c:5097-5108 | When the radius ranges do not overlap or the segment cannot improve an extreme, nothing is lost by not searching |
| BspVector.BothSides | gamut/gamut.c:5114-5209 | A hit before the plane is on the first side, one after it on the second |
| BspVector.VectorIsectRec | gamut/gamut.c:4966-5304 | Every hit on a triangle below the node between the segment's ends is within the extremes afterwards |
| BspVector.ComputeVectorIsect | gamut/gamut.c:5391-5511 | For a line that is exact for the tree and hits within the searched range: an intersection is found exactly if some triangle held is hit, the parameters are the extremes over all triangles, and each point is on the line at its parameter, in the plane of its triangle and outside no edge plane of that by more than 1e-8 |
| BspVector.HitPlace | gamut/gamut.c:5224-5268 | A hit is the parameter of a point on the line, in the triangle's plane and within its edge planes with slack 1e-8 |
| BspVector.PlaceHit | gamut/gamut.c:5224-5268 | and every such point of a line that is not flat to the plane is a hit |
| BspVector.SearchIsScan | gamut/gamut.c:4844-5511 | The search and the scan give the same extremes |
| VectorList.CollectRec | gamut/gamut.c:4966-5304 | With all hits wanted: what is collected are hits on triangles below the node, and unless the list is filled every hit between the ends of the segment is among them |
| VectorList.ComputeVectorIsectns | gamut/gamut.c:5614-5868 | The pairs returned are what sanitising makes of the hits of the line, with all that Sanitise promises; for a line that is exact for the tree, with hits in the searched range and a list that is not filled, every triangle that it hits is among the hits that were sanitised |
| VectorList.EntrySide | gamut/gamut.c:5269-5279 | A hit goes in exactly if the line is on the positive side of the triangle's plane after it, and is sure exactly if it is outside no edge plane |
| VectorList.ReevalIs | gamut/gamut.c:5306-5380 | Evaluated again, a hit has the direction and the certainty that the moved line gives it, or is no hit any more |
| Isectns.MovedAside | gamut/gamut.c:5318-5337 | The moved line is parallel, and aside by the offset along the two axes that it follows less |
| HitRange.SolidHit | gamut/gamut.c:1982-2001 | A hit that needs no slack is between the nearest point and the farthest vertex of the triangle, as the pruning relies on |
| HitRange.SolidExact | gamut/gamut.c:1952-2001 | So a tree of triangles with the attributes that comptriattr gives them is exact for every line that runs in no split plane and hits without slack |
| Isectns.Dedupe | gamut/gamut.c:5724-5744 | One hit per triangle is left, in order, and it is on the edge only if all hits on that triangle were |
| Isectns.Sanitise | gamut/gamut.c:5712-5868 | For any raw hits an even number is left, in and out by turns, with parameters that do not fall, each on another triangle and each one of the raw hits; hits that need no sanitising are left as they are; and when the groups of close hits need no second look and go in and out by turns, each to one side, every group gives one of its hits, a last one without partner apart |
| Isectns.MakePairs | gamut/gamut.c:5765-5868 | In place: what is left is the output of the groups one after the other without an odd last entry, the write position never passes the unread part, and the representative used is always one that was set |
| Isectns.TakenTook | gamut/gamut.c:5805-5863 | What a group adds: one of its hits if the sure ones, or without sure ones the glancing ones, all go one way and that way is due; nothing if they go the other way; else, if a way in is due, the two ends of a segment of no length, and otherwise nothing |
| Isectns.OutputTraced | gamut/gamut.c:5765-5868 | The output is the one that the groups give when each is taken in turn: hits whose scaled parameters are less than 0.0001 from the first, evaluated again on a moved line when there are more than two and one of them is glancing |
| Isectns.TurnsOutput | gamut/gamut.c:5765-5868 | Groups that go in and out by turns, each to one side, give one of their hits each |
| QuadTree.InSubBox | gamut/gamut.c:448-472 | A point is in the box of the quadrant chosen for it, and strictly inside no other |
| QuadTree.TakenReach | gamut/gamut.c:781-847 | A slot that is offered a point never loses weighted distance, gains some when its vertex changes, and ends level with the point unless the point is as good as its vertex already |
| QuadTree.UnusedUnheld | gamut/gamut.c:331-363 | A vertex is on the unused list exactly if no slot holds it |
| GamutFilter.Filter.constructor | gamut/gamut.c:629-630 | Two quads that share the sphere between them, all slots empty |
| GamutFilter.Filter.NewVert | gamut/gamut.c:220-306 | The last released vertex or a new one, with one reference and the box of its quadrant |
| GamutFilter.Filter.Dec | gamut/gamut.c:343-363 | One reference is given up; at none the vertex is cleared and put on the unused list |
| GamutFilter.Filter.Place | gamut/gamut.c:1046-1065 | After the six offers each slot holds whichever of its vertex and the new one reaches further |
| GamutFilter.Filter.Deepen | gamut/gamut.c:983-1036 | A full quadrant becomes a quad over which its six vertices are spread, and nothing else changes |
| GamutFilter.Filter.Descend | gamut/gamut.c:950-1041 | The descent ends, since boxes halve, in a quadrant that is small enough, holds the point and is empty or full |
| GamutFilter.Filter.Expand | gamut/gamut.c:854-1071 | In every reachable filter: each quadrant is empty, one quad, or six vertices; every stored vertex lies in its box; reference counts are slot counts; unused are exactly the unheld; after adding a point each of the six slots of its quadrant holds a vertex that is as far from the centre as the point is, measured with L times 1, 0.5, 2, 4, 0 and 0 and in the last two one of a and b times 0.1, or is closer than 1e-4 to it; no vertex there is replaced by one nearer, and no slot elsewhere loses reach |
| QuadTree.ReachIs | gamut/gamut.c:781-847 | The weighted distance compared is the squared distance from the centre after that scaling |
| QuadTree.OutwardTakes | gamut/gamut.c:841-846 | A point further out on the ray of a stored vertex, by 1e-4 or more, takes its slot |
| PermuteCounter.Permut.Inc | h/counters.h:301-313 | One increment visits the next arrangement to come, or is done exactly when none is |
| PermuteCounter.RunAll | h/counters.h:285-317 | A run of the counter visits the arrangements of the recursive description |
| PermuteCounter.AllPermutations | h/counters.h:285-317 | These are every permutation exactly once, factorial in number |
| PermuteCounter.NextPending | h/counters.h:301-313 | The iterative increment refines the recursive description, level by level |
| Permute.EndAt | h/counters.h:301-313 | Which entry a whole run leaves at each position, at odd and even levels |
| Permute.OddCloses | h/counters.h:301-313 | An odd level returns to its start after one more swap |
| Combos.GrownNext | h/counters.h:199-210 | No selection lies between a selection and what the increment makes of it |
| Combos.NoneGreater | h/counters.h:199-210 | When no entry can grow the selection is the last |
| Combos.SimplexExists | h/counters.h:220-247 | There is a simplex selection exactly when the total is at least two to the power of one less than the number chosen |
| Combos.XorAndZero | h/counters.h:268-271 | The rejection test is zero exactly when every bit of the second is a bit of the first |
| ComboCounter.Combo.Inc | h/counters.h:199-210 | In place: the next selection, or done exactly at the last one |
| ComboCounter.Combo.XInc | h/counters.h:250-273 | The next simplex selection, or done when there is none |
| ComboCounter.Combo.XInit | h/counters.h:233-247 | The least simplex selection, when there is one |
| ComboCounter.RunCombos | h/counters.h:169-214 | Every selection is visited exactly once, in lexicographic order from the last index |
| ComboCounter.RunSimplexes | h/counters.h:220-277 | The simplex selections are visited exactly once, in that order |
| LinkList.AddLinkBwd | h/llist.h:45-49 | The new item stands before the old one, and all links are mutual again |
| LinkList.AddLinkFwd | h/llist.h:38-42 | The new item stands after the old one |
| LinkList.MergeLink | h/llist.h:61-65 | Two rings become one that goes through the first and then the second |
| LinkList.List.AddItemToTop | h/llist.h:26-29 | The item comes first, the others follow as before |
| LinkList.List.AddItemToBot | h/llist.h:31-34 | The item comes last |
| LinkList.List.DelLink | h/llist.h:52-57 | The item is gone from its place, the head moves on if it was the head, and the item links to itself |
| LinkList.List.ForAllItems | h/llist.h:70-83 | Every item is visited exactly once in order, whichever of them the body deletes when it gets there, and the others are left in order |
| LinkList.RingTurns | h/llist.h:12-16 | A ring is a ring from whichever item it is entered |
| Pars.Parse.ReadLine | cgats/pars.c:425-499 | The line buffer holds the next line as the function of the remaining characters gives it, for every quote, comment and line end |
| Lexing.LineEnds | cgats/pars.c:438-470 | Whether it ends with a line feed, a carriage return or both, and with a comment or without, a line is read as its words and nothing more, and reading goes on behind the ending |
| Lexing.PastReturn | cgats/pars.c:444-449 | After a carriage return one line feed is passed over, which makes no difference to the tokens |
| Pars.Parse.GetToken | cgats/pars.c:539-600 | The next token, its number on the line, and what is left of the line |
| Pars.Parse.AddDel | cgats/pars.c:512-535 | The character classes grow by just the characters given |
| Pars.Parse.Fetch | cgats/cgats.c:396-414 | The loop over lines and tokens delivers the tokens of the text one by one, each with whether it is the first of its line |
| Lexing.LexText | cgats/pars.c:425-600 | Reading a text of lines, each ended in any of the three ways and the last one perhaps not at all, gives the tokens of the lines |
| Lexing.WordFirst | cgats/pars.c:539-600 | A word without delimiters outside quotes, followed by a blank, is read as one token, exactly as written |
| Quote.QuoteCs | cgats/cgats.c:1840-1862 | The buffer made is exactly as long as the quoted string and its NUL, and holds it |
| Quote.UnquoteCs | cgats/cgats.c:1865-1884 | In place: the buffer holds the unquoted string |
| Quote.UnquotedQuoted | cgats/cgats.c:1840-1884 | Unquoting a quoted string gives the string back, whatever it holds |
| Quote.UnquotedIs | cgats/cgats.c:1865-1884 | Whatever stands between quotes at both ends is left with one quote for every two in a row; any other string stays as it is |
| Quote.QuotedReadsBack | cgats/cgats.c:1839-1884 | Any string without NUL, quotes, comment characters and line ends included, when quoted and followed by a delimiter is read as one token of one line and unquotes to itself |
| CellTypes.GuessType | cgats/cgats.c:1888-1933 | The type that the text of a cell looks like |
| CellTypes.GuessIs | cgats/cgats.c:1888-1933 | An integer is guessed exactly for a sign and digits, either of which may be missing, a real exactly for a number with a point, more digits or an exponent besides, a quoted string exactly for two quotes at the ends, and an unquoted string for all else |
| CellTypes.ColumnType | cgats/cgats.c:677-697 | The loop over a column computes the guess of the column |
| CellTypes.ColumnGuessMax | cgats/cgats.c:677-697 | That is the largest guess of its cells |
| CellTypes.ColumnGuessOrder | cgats/cgats.c:677-697 | It does not depend on the order of the cells or how often one occurs |
| CellTypes.ClashOnly | cgats/cgats.c:699-715 | Only a standard real field can clash with its column, and only with text |
| Decimal.IntLooksInt | cgats/cgats.c:1888-1933 | A printed integer is guessed as an integer |
| Decimal.IntReadsBack | cgats/cgats.c:720-735 | and reads back exactly |
| Decimal.RealFormat | cgats/cgats.c:1940-1983 | The method computes the format that FormatIs describes |
| Decimal.FormatIs | cgats/cgats.c:1940-1983 | A fixed format is chosen exactly for values between 1e-5 and 1e6 in size, with as many decimals as show six digits besides the first, and one format with an exponent for the others, unless they are so large or small that the general one is |
| Decimal.RealLooksReal | cgats/cgats.c:1940-1983 | The text of any real, in whichever of the three formats, is guessed as a real |
| Decimal.RealReadsBack | cgats/cgats.c:1940-1983 | It reads back within a relative error of 5e-6, and zero as zero, the trailing zeros that the general format leaves out included |
| Decimal.NumeralRead | cgats/cgats.c:720-727 | Any text that is guessed as a number, whoever wrote it, is read as what it says: its digits with the point among them, its sign and its power of ten, a missing part counting as zero |
| Decimal.IntegerRead | cgats/cgats.c:728-735 | and as an integer, if it is one, by its sign and digits |
| CgatsColumns.TypeReadsBack | cgats/cgats.c:1559-1601 | A written column with cells reads back with its own type, except that one of unquoted strings becomes one of quoted strings exactly when its field is not a standard one and a cell has a blank, line end, quote or comment character or reads like a number |
| CgatsColumns.BareBecomesQuot | cgats/cgats.c:1573-1590 | A column of unquoted strings with the single cell 1 reads back as one of quoted strings |
| CgatsColumns.AddedFieldOk | cgats/cgats.c:997-1050 | A field that add_field accepts with a type has one that its standard allows |
| CgatsColumns.AddFieldExactly | cgats/cgats.c:997-1050 | A field is accepted exactly if there are no sets yet, its name has no special character, and its type is missing, the one of the standard, or one that the standard leaves open, a quoted string passing for an unquoted one |
| CgatsRecover.OverlayHas | cgats/cgats.c:366-789 | Every keyword written has its value afterwards, on top of what is carried over from the previous table |
| CgatsRecover.OverlayFresh | cgats/cgats.c:366-789 | A table that names its type has exactly its own keywords |
| CgatsRecover.ConvertRecovers | cgats/cgats.c:672-757 | Converting the columns succeeds and recovers the cells, the field names, and for every field the type that its column reads back with |
| CgatsRoundTrip.TableRun | cgats/cgats.c:1306-1616 | The words of one written table take the five-state reader from before the table to after it |
| CgatsRoundTrip.RoundTrip | cgats/cgats.c:1306-1616 | Every readable document can be written, and reading the text recovers the number of tables, their types, field names, set counts, cells and keyword values, and gives every field its own type or, exactly for a non-standard field of unquoted strings some of which had to be quoted, that of quoted strings |
| CgatsRoundTrip.AnyEndings | cgats/pars.c:438-470 | A written file reads as the same tables when each of its lines is ended by a line feed, a carriage return or both |
| CgatsRoundTrip.TypeRecovered | cgats/cgats.c:431-470 | The variable type of a CGATS identifier is recovered as soon as a table has it |
| CgatsComplete.WriteThenRead | cgats/cgats.c:1330-1420 | The same for what the caller built, with the keywords that the writer adds on the way |
| CgatsComplete.CompletedExactly | cgats/cgats.c:1330-1420 | A table that is written has every keyword that its type needs, and only such keywords are added, with the date or without a proper value |
| CgatsLayout.Layout | cgats/cgats.c:1422-1610 | A table is written as its identifier, keywords and declarations, then the number and names of its fields between their marks, then the number of its sets and each set on a line between theirs |
| CgatsLayout.Declared | cgats/cgats.c:1465-1530 | Every keyword and field that no standard knows is declared before, when that is asked for |
| CgatsWhole.ReadWhole | cgats/cgats.c:366-789 | For any tokens whatever: in what is read without error every table is whole, but for the last one, which is not whole exactly when its data begins before some token and neither that nor any later token is END_DATA |
| CgatsWhole.BrokenReads | cgats/cgats.c:765-789 | Such a file is read without error, and its table counts a set that has no cells |
| CgatsErrors.StepExactly | cgats/cgats.c:421-780 | In every state reached a token fails exactly when it is too long, names no table type where there is none yet, has a special character as a keyword or field name, ends data with a wrong number of sets, within a set or with text in a standard real field, or is data without fields; otherwise it opens a table, begins fields or data, becomes a keyword, a value, a field or a cell, as its state and words say |
| CgatsErrors.ReadFails | cgats/cgats.c:366-789 | So reading a file fails exactly when no line of it has a token, or some token is refused after those before it |
| CgatsFile.SameLines | cgats/cgats.c:1306-1616 | The lines of a table depend only on it, the one before it and the identifiers, so completing tables one at a time while writing makes no difference |
| CgatsFile.Cgats.Write | cgats/cgats.c:1306-1616 | The object writes the text of its completed document, or fails exactly when the document cannot be written |
| CgatsFile.Cgats.Read | cgats/cgats.c:366-789 | The object, whatever it held, ends with the tables that the reader function gives, and the call fails exactly when that fails or there is no table |
| CgatsFile.Cgats.OnToken | cgats/cgats.c:421-780 | One round of the read loop is one step of the five-state machine |
| CgatsFile.Cgats.FindKword | cgats/cgats.c:315-335 | The index of the keyword, -1 for none, -2 for no such table |
| CgatsFile.Cgats.AddKwordAt | cgats/cgats.c:928-990 | The keyword is put in its place or at the end, or nothing changes |
| CgatsFile.Cgats.AddField | cgats/cgats.c:997-1050 | The field is added with a type that its standard allows, or nothing changes |
| CgatsFile.Cgats.ClearFields | cgats/cgats.c:1055-1088 | Fields can be cleared exactly while there are no sets |
| CgatsFile.Cgats.AddSet | cgats/cgats.c:1094-1155 | A set is added if it fits the fields, else nothing changes |
| CgatsFile.Cgats.AddDataItem | cgats/cgats.c:1260-1300 | The text of a cell is added to the set being filled |
| CgatsFile.Cgats.SetTableFlags | cgats/cgats.c:883-902 | Keywords and fields can be suppressed only with the identifier |
| CgatsCopy.Copy | cgats/cgats.c:366-1616 | Writing an object and reading the text into a new one that knows the same identifiers gives a copy |
| Dns.ReadStringImp | ccast/ccmdns.c:663-759 | It ends on every buffer, reads only inside it, and gives the offset and the text of the recursive description, whether it counts, copies or both |
| Dns.ReadString | ccast/ccmdns.c:763-795 | When the length pass succeeds the copy pass returns the same offset and fills the string exactly, the last dot replaced by the end of the string |
| Dns.WriteString | ccast/ccmdns.c:202-211 | The label cut to 63 bytes is written after its length, nothing else changes, and the next offset is returned |
| Dns.LabelsRead | ccast/ccmdns.c:663-759 | A name whose labels and pointers are all sound within the nesting limit is read as its labels joined by dots |
| Dns.LabelsExactly | ccast/ccmdns.c:663-759 | The labels found are those that the bytes spell, exactly when ten pointers at most are followed on the way |
| Dns.SuccessExactly | ccast/ccmdns.c:683-707 | Reading succeeds exactly when the labels before the first pointer are sound and that pointer stays in the buffer, whatever it leads to |
| Dns.SelfPointer | ccast/ccmdns.c:696-707 | At any offset of any buffer, a pointer to itself spells no name, yet is read as the empty string |
| Dns.FirstName | ccast/ccmdns.c:696-707 | So is the first name of a message that points to itself, behind the header of twelve bytes |
| Dns.WireReads | ccast/ccmdns.c:202-211 | A written name reads back label by label, exactly when something follows it in the buffer |
| Dns.Expanded | ccast/ccmdns.c:663-795 | A compressed name reads the same as its pointer-free expansion |
| Dither.Normalise | ccast/dpat.c:463-478 | Whatever the optimizer returned, the weights end non-negative with sum one: each is limited to between 0 and 1 and divided by their sum if that is over 1, and the last gets the rest |
| Dither.SortWeights | ccast/dpat.c:515-527 | The order names every surrounder once, by rising weight |
| Dither.RoundWeights | ccast/dpat.c:530-542 | Each surrounder gets the count that the rounding gives to its place in the order |
| Dither.CountsTotal | ccast/dpat.c:530-542 | The counts come to sixteen exactly when each fits what is left, and to more otherwise |
| Dither.CountCells | ccast/dpat.c:511-550 | From the smallest weight up each surrounder gets its nearest count as long as cells are left, and the last the rest; the counts come to sixteen exactly when no nearest count goes past it, as they always do with at most seven surrounders |
| Dither.EightOver | ccast/dpat.c:530-542 | Eight weights whose counts come to seventeen |
| DitherPattern.SetPattern | ccast/dpat.c:553-563 | Each cell of the fill order holds the surrounder whose turn it is, in both patterns |
| DitherPattern.SpreadCount | ccast/dpat.c:553-563 | Each surrounder gets as many cells as its count |
| DitherPattern.BestChange | ccast/dpat.c:641-690 | The change of least cost, and the first of several |
| DitherPattern.Improve | ccast/dpat.c:579-755 | Each change is made to the last pattern, or to the best one once the errors have exceeded its error by more than 2.5 in all, gains nearest to a unit step from the last value towards the one wanted, and the search ends just after 300 changes, with an error below 0.11 or within a sixteenth of the value; of all patterns tried the first of least error is kept, and cells stay paired with what results from them |
| DitherPattern.BestFalls | ccast/dpat.c:717-738 | The best error never rises |
| DitherPattern.GetCcastDith | ccast/dpat.c:356-772 | There is a pattern exactly when no count goes past the cells left for it, as with seven surrounders or fewer; the search starts from the pattern that the counts give, and the best one found is returned with its error |

## Left out

What a member of the model does not promise:

- Mesh.Mesh.InsertAll: supposes that every hole but the last is simple, because the program goes on with a broken mesh and nothing is promised about it from there.
- Mesh.Mesh.TriangulateCh: the base tetrahedron is any four different vertices; that they enclose the others, the sorting by radius and the fake points are not modelled.
- Mesh.Mesh.InsertVertex: planes come from an oracle that does not depend on which corner comes first; the degenerate triangles for which plane_equation keeps the previous plane are not modelled, nor the vertex flags SET and FAKE.
- Nearest.Nn.NearestTri: for points that neither fit nor are in a corner on some axis it promises the least distance over the triangles held three times by the starting windows, but not which those are, because what the correction then leaves out depends on the order of both lists and on all distances compared on the way; the perturbation factor is read as 1.
- AxisWindow.AxisStart: covering is proved for points that fit, one way; the exact condition is given for corners.
- BspSearch.BetweenScans: the slack of the edge test is kept, so between the scan with slack and the scan without it the search may or may not find a triangle; FoundExactly says when it does.
- BspVector.ComputeVectorIsect: the line must run in no split plane, and hits that need the slack of 1e-8 are excluded by HitRange.SolidExact; that all hits are in the searched range is assumed.
- CgatsRoundTrip.RoundTrip: comments are not recovered, identifiers with wildcards are excluded, and keywords must not be reserved words or identifiers.
- Decimal.RealReadsBack: reals are unbounded, so the overflow and underflow of doubles are not modelled, nor values that are not numbers.
- CgatsFile.Cgats.Write: text written before an error is not modelled, and the date of the day is a parameter.
- CgatsFile.Cgats.Read: is for an object that is empty, as the program uses it, or whose last table was read or is empty.
- VectorList.ComputeVectorIsectns: the raw hits are collected in a sequence, as long as the list allows, before the array is sanitised; the scale, an inverse square root, is a parameter.
- LinkList.List.ForAllItems: is for bodies that delete no item but the current one, and decide on that from the items seen.
- Dns.ReadStringImp: the size is that of the buffer, and characters are bytes.
- DitherPattern.GetCcastDith: what the optimizer, the display and the noise do is a parameter, and where eight surrounders get too many cells it stops with no pattern.
- Dither.RoundWeights: the table of eight counts is as long as the surrounders.

What the repository does that the model does not:

- Gamut: smoothing passes, cusps, volumes, gamut intersection, reading and writing of gamut files, VRML output.
- Gamut filter: the unfiltered path and the fake points; the k0 count, which the program does not keep right when it deepens a quadrant; the serial numbers, and that a released vertex is zeroed field by field; the bounding range, and the mapped coordinates of a new vertex. The radial coordinates of a point are an argument.
- Lists in gamut.c are sequences; the links themselves are modelled in LinkList.
- The sort fields that the BSP builder stores in the triangles are local to it.
- CGATS: error codes and messages, the line number, characters beyond seven bits, and memory failure; wildcard identifiers are read but not in the round trip.
- Parser: growth of its buffers.
- The DNS message framing, the sockets and the threads of ChromeCast.
- Finding the eight surrounders and the optimizer of the dither code, and the filter that resamples a pattern.
- The DC, FC and EC box counters, whose claims would be simple.
- Floating point rounding.
