# Radial correction-curve editor of DFTFringe, in Dafny

DFTFringe has a widget, `ArbitraryWavWidget`, for drawing an arbitrary
radial wavefront profile. It plots the mirror radius in mm on x against the
error in waves on y.

The profile is an ordered list of anchors, `CPoint`. Each anchor carries
two Bezier handles. The user edits the curve with the mouse:
- a left press picks an anchor or a handle, or inserts a new anchor;
- a right press deletes an anchor;
- dragging moves an anchor or a handle;
- the wheel zooms the vertical scale.

The widget draws the curve either as a chain of zero-slope cubic S-curves
or as Bezier segments.

Alongside the editor, the surface analysis dock (`surfaceAnalysisTools`)
keeps the list of loaded wavefronts. It shows each name shortened to its
last two path pieces, renames entries, and deletes a multiple selection.

The model has eight files:

- `numerics.dfy` (module `Numerics`):
  - the square root taken as a parameter satisfying `IsSqrt`;
  - C++ truncation of a double to int (`Trunc`) and of an int division by 2 (`HalfTrunc`);
  - `fabs`, `min` and `max`.
- `cpoint.dfy`:
  - module `CPoints`: the anchor as a value, `Anchor`, with its six numbers and the pure edits;
  - module `CPointLemmas`: the geometry of `setLeft`/`setRight`;
  - module `CPointObject`: the class `CPoint`, whose methods change its fields in place exactly like those edits, plus the save/restore snapshot.
- `mapper.dfy` (module `Mapper`):
  - the layout (`View`);
  - the four `transx`/`transy` maps and `transRatio`.
- `anchors.dfy` (module `AnchorList`), the anchor list as a sequence of values:
  - sorting by x;
  - the 8-pixel hit test;
  - insert-on-click, right-click delete, the anchor and handle drags;
  - `fixOverhangs`.
- `widget.dfy` (module `Widget`):
  - the class `ArbitraryWavWidget`, with the fields the handlers update (`pts`, the drag flags, `dragging_point_index`, `wave_height`, the layout) and the handlers as methods;
  - each handler method is proved equal to the pure operation of `AnchorList`.
- `curve.dfy` (module `Curve`):
  - `doCurve` as a method with its two loops;
  - the sequence of `Point`/`Line` commands it emits, proved equal to a specification function.
- `paint.dfy` (module `Paint`), the arithmetic of `paintEvent`:
  - the chain of `doCurve` calls in cubic mode;
  - the Bezier control points in Bezier mode;
  - the grid spacing.
- `wavefronts.dfy`:
  - module `Names`: `QString::split('/')`/`join` and the shortening rule;
  - module `WavefrontList`: `findItems`, and the class holding the item texts and `lastCurrentItem`;
  - module `DeleteOrder`: the descending order of the selected rows and what deleting in that order removes.

Doubles are `real`, with no rounding. Pixel values are `int`, and every
double-to-int conversion truncates toward zero, as C++ does. The library
square root is a parameter `sqrt` with `IsSqrt(sqrt)`, meaning that for every
`v >= 0`, `sqrt(v) >= 0` and `sqrt(v) * sqrt(v) == v`. The widget stores it
in a field.

## Model

| member | source | states |
|---|---|---|
| CPoints.NewAnchor | cpoint.cpp:8-14 | the anchor is at (x, y); its handles lie `bez_dist` to the left and right, at the anchor's height |
| CPoints.NewControlPoint | cpoint.cpp:3-6 | the two-argument constructor is the three-argument one with `bez_dist` 10: handles at x - 10 and x + 10, level |
| CPoints.WriteJson | cpoint.cpp:23-30 | `toJson` sets exactly the six keys x, y, lx, ly, rx, ry, leaves every other key as it was, and reading the object back gives the same anchor |
| CPoints.ReadJson | cpoint.cpp:15-21 | the JSON constructor takes each field from its key (a missing key reads as 0) |
| CPoints.ReadWriteJson | cpoint.cpp:15-30 | an object holding all six keys is unchanged by reading it into an anchor and writing that anchor back into it |
| CPoints.WithX | cpoint.cpp:31-38 | `setX` moves the anchor to the new x; both handles move with it, so lx - x and rx - x stay, and the heights stay |
| CPoints.WithY | cpoint.cpp:39-46 | `setY` moves the anchor to the new y; both handles move with it, so ly - y and ry - y stay |
| CPoints.Dist2Negated | cpoint.cpp:78-81 | the ratio-corrected squared distance is the same measured from either end |
| CPoints.TangentOffsetFacts | cpoint.cpp:84-86 | the re-aimed handle offset (dist·cos, dist·cos·slope·ratio) points right, has the given slope in ratio-corrected units and the given ratio-corrected length |
| CPoints.HandleDist | cpoint.cpp:78-81 | the distance to the opposite handle is never negative |
| CPoints.HandleDistSquared | cpoint.cpp:78-81 | that distance squared is (dx² + (dy/ratio)²) |
| CPoints.WithLeft | cpoint.cpp:58-87 | after `setLeft(_x, _y, r)`: lx == min(_x, x - 0.1), ly == _y, and the anchor does not move |
| CPoints.WithRight | cpoint.cpp:88-115 | after `setRight(_x, _y, r)`: rx == max(_x, x + 0.1), ry == _y, and the anchor does not move |
| CPointLemmas.WithLeftOffset | cpoint.cpp:71-86 | the new right handle is the anchor plus an offset pointing right, with the slope of the left handle and the ratio-corrected length of the old right handle |
| CPointLemmas.WithLeftCollinear | cpoint.cpp:71-86 | after `setLeft` the right handle, the anchor and the left handle are on one line: (ry - y)(x - lx) == (y - ly)(rx - x); and rx >= x |
| CPointLemmas.WithLeftKeepsRightDistance | cpoint.cpp:78-86 | `setLeft` keeps the ratio-corrected distance from the anchor to the right handle |
| CPointLemmas.WithRightOffset | cpoint.cpp:101-114 | the new left handle is the anchor minus an offset pointing right, with the slope of the right handle and the ratio-corrected length of the old left handle |
| CPointLemmas.WithRightCollinear | cpoint.cpp:101-114 | after `setRight` the left handle is on the line through the right handle and the anchor, and lx <= x |
| CPointLemmas.WithRightKeepsLeftDistance | cpoint.cpp:108-114 | `setRight` keeps the ratio-corrected distance from the anchor to the left handle |
| CPointLemmas.WithLeftIdempotent | cpoint.cpp:58-87 | calling `setLeft` twice with the same arguments gives what calling it once gives |
| CPointLemmas.WithRightIdempotent | cpoint.cpp:88-115 | calling `setRight` twice with the same arguments gives what calling it once gives |
| CPointObject.CPoint.Make | cpoint.cpp:8-14 | the constructed point holds `NewAnchor(x, y, bez_dist)` |
| CPointObject.CPoint.Control | cpoint.cpp:3-6 | the constructed point holds `NewControlPoint(x, y)` |
| CPointObject.CPoint.FromJson | cpoint.cpp:15-21 | the constructed point holds `ReadJson(obj)` |
| CPointObject.CPoint.ToJson | cpoint.cpp:23-30 | the object written is `WriteJson` of the point's six fields |
| CPointObject.CPoint.GetLeft | cpoint.cpp:49-52 | returns (lx, ly) |
| CPointObject.CPoint.GetRight | cpoint.cpp:54-57 | returns (rx, ry) |
| CPointObject.CPoint.SetX | cpoint.cpp:31-38 | the six fields become `WithX` of the old ones; the snapshot is untouched |
| CPointObject.CPoint.SetY | cpoint.cpp:39-46 | the six fields become `WithY` of the old ones; the snapshot is untouched |
| CPointObject.CPoint.SetLeft | cpoint.cpp:58-87 | the six fields become `WithLeft` of the old ones; the snapshot is untouched |
| CPointObject.CPoint.SetRight | cpoint.cpp:88-115 | the six fields become `WithRight` of the old ones; the snapshot is untouched |
| CPointObject.CPoint.Save | cpoint.cpp:116-124 | the snapshot becomes the current six fields, which do not change |
| CPointObject.CPoint.Restore | cpoint.cpp:126-134 | the six fields become the snapshot (the `setX`/`setY` calls inside are overwritten by the handle assignments) |
| CPointObject.SaveEditRestore | cpoint.cpp:116-134 | `save`, then any sequence of `setX`, `setY`, `setLeft` and `setRight` calls, then `restore` returns all six fields to their saved values |
| Mapper.TransRatio | arbitrarywavwidget.cpp:72-74 | `transRatio()` is positive on a non-degenerate layout |
| Mapper.MapEnds | arbitrarywavwidget.cpp:58-70 | mm→pixel sends 0 to `graph_left` and the mirror radius to `pos_edge`; wave→pixel sends 0 to `pos_y0`; the pixel→mm and pixel→wave maps send those pixels back |
| Mapper.PixelXOfMmX | arbitrarywavwidget.cpp:58-67 | the pixel of the mm value of pixel column ix is ix again |
| Mapper.PixelYOfWaveY | arbitrarywavwidget.cpp:61-70 | the pixel of the wave value of pixel row iy is iy again |
| Mapper.MmXOfPixelX | arbitrarywavwidget.cpp:58-67 | mapping an mm value to its truncated pixel column and back is off by less than one pixel's worth of mm |
| Mapper.MmXStep | arbitrarywavwidget.cpp:65-67 | one pixel column is a fixed mm step, radius / (pos_edge - graph_left) |
| Mapper.WaveYStep | arbitrarywavwidget.cpp:68-70 | one pixel row down is a fixed step of -wave_height / (graph_height - pos_y0) waves |
| Mapper.TransRatioIsPixelAspect | arbitrarywavwidget.cpp:72-74 | `transRatio()` is waves per pixel row divided by mm per pixel column |
| AnchorList.SortByX | arbitrarywavwidget.cpp:29-35 | the result has the input's length and is ordered by x |
| AnchorList.SortByXPermutes | arbitrarywavwidget.cpp:33-35 | the sorted list is a permutation of the input |
| AnchorList.SortByXSpots | arbitrarywavwidget.cpp:33-35 | sorting keeps the multiset of anchor positions |
| AnchorList.SortByXOfSorted | arbitrarywavwidget.cpp:33-35 | an already sorted list is returned as it is |
| AnchorList.InsertByXSorted | arbitrarywavwidget.cpp:33-35 | inserting into a sorted list keeps it sorted |
| AnchorList.InsertByXPermutes | arbitrarywavwidget.cpp:33-35 | insertion adds exactly the one anchor |
| AnchorList.FirstHit | arbitrarywavwidget.cpp:76-85 | `findPoint` is -1 exactly when no anchor's pixel is within 8 of the pointer on both axes; otherwise it is such an index and no smaller index is one |
| AnchorList.FirstHandle | arbitrarywavwidget.cpp:97-119 | the Bezier-mode handle search finds nothing exactly when every handle is missed; otherwise the first anchor with a hit handle, the left handle winning over the right |
| AnchorList.RightClickDelete | arbitrarywavwidget.cpp:155-160 | a miss (-1) or index 0 changes nothing; a hit i > 0 removes exactly item i and keeps the rest in order |
| AnchorList.RightClickDeleteSorted | arbitrarywavwidget.cpp:155-160 | a right-click delete keeps the list sorted and keeps anchor 0 |
| AnchorList.RightClickDeleteSpots | arbitrarywavwidget.cpp:155-160 | exactly the deleted anchor's position leaves the multiset of positions |
| AnchorList.RightClickDeleteLast | arbitrarywavwidget.cpp:155-159 | deleting the last anchor leaves its old index equal to the new length |
| AnchorList.ClickedAnchor | arbitrarywavwidget.cpp:123-124 | the new anchor sits at the inverse-mapped pointer with handles `bez_dist` out, level |
| AnchorList.ClickedAnchorNear | arbitrarywavwidget.cpp:123-127 | the new anchor is under the pointer in the hit test |
| AnchorList.SeedLeft | arbitrarywavwidget.cpp:129-137 | seeding the left side changes only handles: no anchor moves and the length stays |
| AnchorList.SeedRight | arbitrarywavwidget.cpp:138-149 | seeding the right side changes only handles: no anchor moves and the length stays |
| AnchorList.SeedFacts | arbitrarywavwidget.cpp:128-149 | the new anchor's lx is half the gap to its left neighbour, whose rx is re-aimed to max(half the gap, 0.1) out; its rx is 10 mm out when it is last, else half the gap to its right neighbour, whose lx is re-aimed half the gap in; its heights stay |
| AnchorList.ClickInsert | arbitrarywavwidget.cpp:122-152 | insert-on-click always yields a valid dragged index |
| AnchorList.ClickFindsNewAnchor | arbitrarywavwidget.cpp:125-127 | after appending and sorting, `findPoint` finds exactly the new anchor, never -1 |
| AnchorList.ClickInsertPlaces | arbitrarywavwidget.cpp:122-149 | the list grows by one, is sorted, gains exactly the clicked position, and the dragged index holds the new anchor with level handles |
| AnchorList.ClickInsertSeeds | arbitrarywavwidget.cpp:128-149 | the handle seeding around the inserted anchor, stated on the result of insert-on-click (10 mm right when last) |
| AnchorList.Dragged | arbitrarywavwidget.cpp:175-183 | the dragged anchor takes the clamped inverse-mapped x and the inverse-mapped y, and its handles keep their offsets |
| AnchorList.ScaleBack | arbitrarywavwidget.cpp:219-224 | the factor by which an overhanging pair's inward handles are scaled lies in [0, 1) |
| AnchorList.ScaledHandlesFill | arbitrarywavwidget.cpp:219-226 | after scaling, the two inward handle lengths add up to exactly twice the x gap |
| AnchorList.ShrunkRight | arbitrarywavwidget.cpp:241 | the scaled right handle is max(scaled length, 0.1) out, at the same height, and the anchor does not move |
| AnchorList.ShrunkLeft | arbitrarywavwidget.cpp:242 | the scaled left handle is max(scaled length, 0.1) in, at the same height, and the anchor does not move |
| AnchorList.FixPair | arbitrarywavwidget.cpp:233-243 | an overhanging pair gets both inward handles scaled by the one factor `ScaleBack`, a pair within twice its gap is left as it is; no anchor position, no length and no entry outside the pair changes |
| AnchorList.OverhangsFixed | arbitrarywavwidget.cpp:209-244 | `fixOverhangs` does nothing when disabled or when the index is outside [0, size); otherwise it changes only entries index-1 to index+1 and never an anchor position or the length |
| AnchorList.OverhangsFixedLast | arbitrarywavwidget.cpp:229-230 | for the last index only the pair to its left is limited |
| AnchorList.DragAnchor | arbitrarywavwidget.cpp:174-193 | an anchor drag always leaves a valid dragged index |
| AnchorList.DragAnchorFacts | arbitrarywavwidget.cpp:174-193 | an anchor drag keeps the length and the order by x and replaces exactly one position; inside the graph, an anchor other than 0 ends up under the pointer, where `findPoint` finds an anchor |
| AnchorList.DragHandle | arbitrarywavwidget.cpp:194-204 | a handle drag moves no anchor and keeps the length |
| AnchorList.WithLeftLevel | cpoint.cpp:58-87 | `setLeft` at the anchor's own height leaves both handles level |
| AnchorList.WithRightLevel | cpoint.cpp:88-115 | `setRight` at the anchor's own height leaves both handles level |
| AnchorList.FixAtZeroKeepsLevel | arbitrarywavwidget.cpp:209-244 | limiting around anchor 0 keeps its handles level when they were |
| AnchorList.DragHandleLevelsAnchorZero | arbitrarywavwidget.cpp:197-203 | dragging either handle of anchor 0 leaves both its handles level with it |
| Widget.LayoutFor | arbitrarywavwidget.cpp:45-54 | `graph_left` is 45, `graph_height` is height - 22, `pos_y0` is half of it, and `pos_edge` is `graph_left` plus 95% of the graph width, truncated: 5% is kept beyond the mirror edge |
| Widget.MinimumSizeLayout | arbitrarywavwidget.cpp:40-54 | at the minimum size 200 × 100 or larger, the layout is non-degenerate and `graph_left < pos_edge <= width` |
| Widget.Zoomed | arbitrarywavwidget.cpp:257-266 | a positive wheel delta shrinks the scale, a negative one grows it, zero changes nothing, and the scale stays positive |
| Widget.ZoomRoundTrip | arbitrarywavwidget.cpp:259-266 | one turn down undoes one turn up, and the other way round |
| Widget.Moved | arbitrarywavwidget.cpp:164-204 | a move keeps a valid dragged index whenever a drag is active and the left button is held |
| Widget.MovedKeepsOrder | arbitrarywavwidget.cpp:164-204 | a move keeps the list's length and its order by x |
| Widget.DragSteps | arbitrarywavwidget.cpp:175-183 | the `setX`/`setY` calls and the three clamps give `Dragged` |
| Widget.LimitPair | arbitrarywavwidget.cpp:233-243 | the pair edit through references gives `FixPair` |
| Widget.SeedHandles | arbitrarywavwidget.cpp:128-149 | the seeding edits through references give `SeedRight(SeedLeft(...))` |
| Widget.ArbitraryWavWidget.constructor | arbitrarywavwidget.cpp:5-17 | radius 300 mm, scale 0.3 waves, two anchors (0, 0) and (25.4, 0.125) with handles radius / `bez_distance_ratio` out, no drag in progress |
| Widget.ArbitraryWavWidget.SetMode | arbitrarywavwidget.cpp:19-22 | sets the mode and nothing else |
| Widget.ArbitraryWavWidget.Resize | arbitrarywavwidget.cpp:45-54 | the layout becomes `LayoutFor(w, h)`; anchors and drag state stay |
| Widget.ArbitraryWavWidget.FindPoint | arbitrarywavwidget.cpp:76-85 | the loop returns `FirstHit` |
| Widget.ArbitraryWavWidget.FindHandle | arbitrarywavwidget.cpp:97-119 | the loop returns `FirstHandle` |
| Widget.ArbitraryWavWidget.SortPoints | arbitrarywavwidget.cpp:33-35 | `pts` becomes a sorted permutation of itself |
| Widget.ArbitraryWavWidget.FixOverhangs | arbitrarywavwidget.cpp:209-248 | `pts` becomes `OverhangsFixed` of the old list |
| Widget.ArbitraryWavWidget.InsertAt | arbitrarywavwidget.cpp:122-153 | `pts` and the dragged index become `ClickInsert`, and an anchor drag starts |
| Widget.ArbitraryWavWidget.MousePress | arbitrarywavwidget.cpp:87-163 | a right press deletes as `RightClickDelete`. A left press on an anchor starts an anchor drag on it. Otherwise, in Bezier mode, a left press on a handle starts a handle drag on the first one. Otherwise a left press inserts as `ClickInsert`. Any other button changes nothing |
| Widget.ArbitraryWavWidget.MouseMove | arbitrarywavwidget.cpp:164-207 | the list and dragged index become `Moved` of the old ones; the drag flags stay |
| Widget.ArbitraryWavWidget.MoveAnchor | arbitrarywavwidget.cpp:174-193 | the list and dragged index become `DragAnchor` |
| Widget.ArbitraryWavWidget.MoveHandle | arbitrarywavwidget.cpp:194-204 | the list becomes `DragHandle` |
| Widget.ArbitraryWavWidget.MouseRelease | arbitrarywavwidget.cpp:250-255 | both drag flags are cleared, then overhangs around the anchor under the pointer are limited |
| Widget.ArbitraryWavWidget.Wheel | arbitrarywavwidget.cpp:257-269 | `wave_height` becomes `Zoomed`; anchors, layout and drag state stay |
| Widget.RightPressOnDraggedLast | arbitrarywavwidget.cpp:154-160 | a right press on the dragged last anchor deletes it and leaves `bDragging` set with `dragging_point_index == pts.size()` |
| Curve.Samples | arbitrarywavwidget.cpp:285-312 | one sample per integer x from the left end to the right end, in increasing order |
| Curve.SampleAt | arbitrarywavwidget.cpp:285-312 | the sample at column ix has the curve's row at ix |
| Curve.Polyline | arbitrarywavwidget.cpp:289-294 | the first command is a `Point`; every later one is a `Line` from the previous sample to its own |
| Curve.DoCurve | arbitrarywavwidget.cpp:271-314 | the two loops emit exactly `Polyline(Samples(...))` |
| Curve.TermFacts | arbitrarywavwidget.cpp:277-288 | the cubic term is 0 at the left end and half the height at the middle; the jerk has the sign of the rise |
| Curve.CurveMidpoint | arbitrarywavwidget.cpp:285-288 | the middle column sits at the left height plus half the height, rounded |
| Curve.CurveExample | arbitrarywavwidget.cpp:277-302 | from (0, 100) to (200, 0) the sample at x = 100 is y = 50 |
| Curve.CurveEnds | arbitrarywavwidget.cpp:277-302 | with at least two columns, the end samples are the end points when their heights are not negative |
| Curve.CurveFlat | arbitrarywavwidget.cpp:277-302 | a level curve stays at its height |
| Curve.CurveStep | arbitrarywavwidget.cpp:285-312 | consecutive samples move monotonically from the left height toward the right height |
| Curve.CurveFromStart | arbitrarywavwidget.cpp:285-312 | a rising curve with non-negative ends never goes below its left end |
| Curve.CurveToEnd | arbitrarywavwidget.cpp:285-312 | a rising curve with non-negative ends never goes above its right end |
| Paint.AnchorPixels | arbitrarywavwidget.cpp:460-467 | each anchor's pixel is (`transx(x)`, `transy(y)`) |
| Paint.SpansChain | arbitrarywavwidget.cpp:458-477 | cubic mode draws one curve per pair of neighbours, plus possibly the tail; it starts at anchor 0, each curve starts where the previous ended, and the inner curves end at the anchors |
| Paint.TailIsLevel | arbitrarywavwidget.cpp:475-477 | the tail runs level from the last anchor to the widget's right border |
| Paint.TraceStep | arbitrarywavwidget.cpp:464-477 | drawing one more curve appends its polyline to the trace |
| Paint.CubicChain | arbitrarywavwidget.cpp:458-477 | the loop's commands are the trace of `Spans` |
| Paint.SegmentControls | arbitrarywavwidget.cpp:482-490 | a segment's four control points are anchor i-1, its right handle, the left handle of anchor i, and anchor i |
| Paint.BezierSegments | arbitrarywavwidget.cpp:481-490 | there is one segment per pair of neighbours |
| Paint.BezierJoins | arbitrarywavwidget.cpp:481-490 | consecutive segments share an end point, and segment i runs from anchor i to anchor i + 1 |
| Paint.BezierSmooth | arbitrarywavwidget.cpp:481-490 | at an anchor whose handles are collinear, the incoming and outgoing control points are on one line through it, so the curve joins smoothly |
| Paint.BezierChain | arbitrarywavwidget.cpp:481-490 | the loop collects `BezierSegments` |
| Paint.VerticalSpacingBounds | arbitrarywavwidget.cpp:339-343 | the horizontal spacing never shrinks as the scale grows; it lies between 1/8 and 1 wave, and up to 1.5 waves there are at most six lines on each side of the axis |
| Paint.UnitSpacing | arbitrarywavwidget.cpp:372-382 | the base spacing is positive, and it is 25.4 mm exactly when the unit is inches |
| Paint.GridBound | arbitrarywavwidget.cpp:384-390 | a multiple of the spacing, at least 1, from which on the grid line is 150 pixels or more right of radius 0 |
| Paint.BeyondGridBound | arbitrarywavwidget.cpp:384-390 | beyond that bound the column is at least 150 pixels right of `graph_left`, so the spacing loop terminates |
| Paint.GridCountAsWritten | arbitrarywavwidget.cpp:384-391 | the loop as written stops at the first multiple whose absolute pixel column reaches 150 |
| Paint.GridCount | arbitrarywavwidget.cpp:384-391 | the corrected loop stops at the first multiple lying 150 pixels or more right of radius 0 |
| Paint.LinesApart | arbitrarywavwidget.cpp:400-407 | when one spacing is 150 pixels wide, every two consecutive grid lines are at least 150 pixels apart |
| Paint.GridLinesApart | arbitrarywavwidget.cpp:384-407 | with the corrected count, consecutive vertical grid lines are at least 150 pixels apart |
| Paint.GridAsWrittenTooDense | arbitrarywavwidget.cpp:384-391 | in a 1414-pixel widget showing 300 mm in inches, the loop as written keeps one line per inch, and those lines are only 110 pixels apart |
| Paint.GridAtGapExample | arbitrarywavwidget.cpp:384-391 | in the same widget the corrected loop spaces the lines two inches apart |
| Names.LastSlash | surfaceanalysistools.cpp:70 | the position of the last slash of a name that has one; nothing after it is a slash |
| Names.Split | surfaceanalysistools.cpp:70 | `split('/')` gives at least one piece, and more than one exactly when the name holds a slash |
| Names.SplitPieces | surfaceanalysistools.cpp:70 | no piece of a split holds a slash |
| Names.JoinSplit | surfaceanalysistools.cpp:70-73 | joining the pieces with '/' gives back the name |
| Names.SplitJoin | surfaceanalysistools.cpp:70-73 | splitting slash-free pieces joined with '/' gives back the pieces |
| Names.SplitAround | surfaceanalysistools.cpp:70-73 | splitting `j + "/" + last` for a slash-free `last` appends `last` to the pieces of `j` |
| Names.ShortenPlain | surfaceanalysistools.cpp:70-73 | a name without a slash is shown unchanged |
| Names.ShortenOfPath | surfaceanalysistools.cpp:70-73 | otherwise it is the last piece before the last slash, a slash, and the piece after it |
| Names.ShortenIsTail | surfaceanalysistools.cpp:70-73 | the shortened name is the name from `ShortStart` on |
| Names.ShortenSuffix | surfaceanalysistools.cpp:70-73 | the shortened name is a suffix of the name |
| Names.ShortenPieces | surfaceanalysistools.cpp:70-73 | a shortened path splits into exactly the last two pieces of the path |
| Names.ShortenIdempotent | surfaceanalysistools.cpp:70-73 | shortening a shortened name changes nothing |
| WavefrontList.FindItems | surfaceanalysistools.cpp:207 | `findItems` returns exactly the matching rows, in increasing order, and nothing when no row matches |
| WavefrontList.FirstMatch | surfaceanalysistools.cpp:219-227 | the first row `findItems` returns is the first matching row of the list |
| WavefrontList.ExactSearch | surfaceanalysistools.cpp:207-208 | the exact search has one hit exactly when one row holds the name, and then that row |
| WavefrontList.RenameUnique | surfaceanalysistools.cpp:207-211 | when exactly one item equals the old name, that item becomes the new name and nothing else changes |
| WavefrontList.RenameByEnding | surfaceanalysistools.cpp:213-228 | otherwise the first item ending with the shortened old name becomes the shortened new name, and nothing else changes |
| WavefrontList.RenameNoMatch | surfaceanalysistools.cpp:213-228 | with no item ending with the shortened old name, nothing equals the old name and the list is unchanged |
| WavefrontList.RemoveAt | surfaceanalysistools.cpp:127-130 | removing row i drops exactly item i and keeps the rest in order (an out-of-range row removes nothing) |
| WavefrontList.WavefrontList.constructor | surfaceanalysistools.cpp:36-38 | the list starts empty with `lastCurrentItem` -1 |
| WavefrontList.WavefrontList.AddWaveFront | surfaceanalysistools.cpp:68-77 | exactly one item, the shortened name, is appended at the end, and `lastCurrentItem` becomes count - 1 |
| WavefrontList.WavefrontList.DeleteWaveFront | surfaceanalysistools.cpp:127-131 | the items become `RemoveAt(items, i)` |
| WavefrontList.WavefrontList.NameChangedAt | surfaceanalysistools.cpp:200-202 | only item `ndx` is replaced |
| WavefrontList.WavefrontList.NameChanged | surfaceanalysistools.cpp:204-229 | the items become `Renamed(items, old, new)` |
| DeleteOrder.Insert | surfaceanalysistools.cpp:169 | inserting into a descending list keeps it descending and adds exactly the element |
| DeleteOrder.InsertStrict | surfaceanalysistools.cpp:169 | inserting a new element into a strictly descending list keeps it strict |
| DeleteOrder.SortDescending | surfaceanalysistools.cpp:169 | `qSort(..., qGreater<int>())` yields a permutation of the selection in descending order |
| DeleteOrder.SortStrict | surfaceanalysistools.cpp:166-169 | distinct selected rows come out strictly descending |
| DeleteOrder.DescendingDelete | surfaceanalysistools.cpp:127-130 | deleting strictly descending rows one at a time removes exactly those rows and keeps the rest in order |
| DeleteOrder.SelectionDelete | surfaceanalysistools.cpp:164-170 | deleting the selected rows in the order the click handler hands them over removes exactly the selected rows |

## Left out

- Painting itself: pens, brushes, fonts, the border, the anchor and handle markers, axis labels and their text, and the horizontal grid lines drawn at `VerticalSpacing`. Only the `doCurve` trace, the curve chaining, the Bezier control points and the grid spacing are modelled.
- Bezier evaluation: `Bezier::valueAt` lives in bezier.h, which is not part of this model. The `t += 0.01` sampling loop with its grey-pen switch is not modelled; only the control points handed to it are.
- Floating point: doubles are exact reals. There is no rounding, NaN or infinity. `Trunc` is C++'s double-to-int truncation over the reals, and integers never overflow.
- Square root: `sqrt` is a parameter that satisfies `IsSqrt`, not a computed function.
- The `dx == 0` fallbacks in `setLeft`/`setRight` are kept as branches of `ReAimedRight`/`ReAimedLeft`. With exact reals they are dead once the 0.1 mm clamp has run, so no contract speaks of them.
- Curve.DoCurve: requires a half width other than 0, because `jerk` divides by its cube. A curve one column wide or less is not modelled. Paint.CubicChain: requires every curve of the chain to be drawable in that sense.
- Widget.ArbitraryWavWidget.Valid: assumes a non-degenerate layout and a positive vertical scale. A widget smaller than the 200 × 100 minimum size is not modelled.
- Widget.ArbitraryWavWidget.MouseMove: requires a valid dragged index while a drag is on and the left button is held. The source never checks the index there, and it can reach a bad one itself, because a right press (lines 155-159) deletes an anchor without touching the drag state. While the last anchor k is dragged (anchor or handle), a right press that deletes any anchor from 1 to k leaves `dragging_point_index` equal to `pts.size()`. The next move then reads `pts[dragging_point_index]` outside the list: at line 175 for an anchor drag, at lines 197-201 for a handle drag. When the dragged anchor is not last, deleting an anchor below it silently moves the drag to the anchor that followed it. `Widget.RightPressOnDraggedLast` exhibits the out-of-range state for the case where anchor k itself is deleted. The move from an out-of-range index is not modelled.
- WavefrontList.WavefrontList.NameChangedAt: requires the index to be in range. The source dereferences the row's item, which is null outside it.
- Fields and values the header declares: `bez_distance_ratio`, `bDissuadeOverhangs`, `mode` and the length unit `ww_unit` are constructor arguments or parameters. The unit's default is inches, and `Paint.UnitSpacing` takes it as an argument.
- `sortPoints` uses `std::sort`, which is not stable. The model sorts with a fixed stable insertion sort, so anchors with equal x keep their relative order. `SortPoints`, `InsertAt`, `MoveAnchor` and `SortByXOfSorted` are stated of this stable order. When anchors share an x, the source may order them otherwise. Two clicks in one pixel column, or an anchor dragged left of `graph_left` to x = 0 beside anchor 0, give such a tie. The seeded half-gap handles and the re-found dragged index can then differ from the model's.
- Qt's `MatchEndsWith` compares without regard to case. `Matches` compares exactly, because the model has no case folding.
- Qt plumbing: `update()`, the event objects (button, position, held buttons and wheel delta become parameters), `sizeHint`, the destructor, signals and slots, the singleton, `QSettings`, the defocus timer and dialog, text colours, the selection model, editor delegates, and `currentNdxChanged`.
- The list widget's selection: which rows are selected is an input to `DeleteOrder.SelectionDelete`. The widget's deletion of the rows happens in a slot that is not part of this model.
- JSON: `QJsonObject` is a `map<string, real>`. Qt's conversion of non-numbers is not modelled.

## Findings

| source | as written | input that shows it | evidently intended | confidence | as-written member | corrected member |
|---|---|---|---|---|---|---|
| arbitrarywavwidget.cpp:384-391 | The loop thinning the vertical grid compares the absolute pixel column `transx(spacing*count)` with 150. That column includes the 45-pixel `graph_left` margin. | A 1414 × 400 widget (`pos_edge` 1345), mirror radius 300 mm, unit inches. One inch maps to column 155, so the loop stops at count 1. The inch lines are then only 110 pixels apart. | The loop's comment asks for at least 150 pixels between lines, measured from radius 0. That is `transx(spacing*count) - graph_left >= 150`. The same widget then gets count 2: lines two inches apart, 220 pixels apart. | not executed | Paint.GridCountAsWritten, Paint.GridAsWrittenTooDense | Paint.GridCount, Paint.GridLinesApart, Paint.GridAtGapExample |
