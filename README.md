# Gene-Location-Plot layout, in Dafny

This project models the part of Gene-Location-Plot that decides where the
triangle markers of a chromosome diagram go. Each gene or pseudogene is a
right triangle on a chromosome's axis. Its flat edge is at the gene's
position in Mb, and it points LEFT or RIGHT by strand. Markers that would
overlap are lifted into lanes above the axis.

The model has three parts.

* `Layout` (`layout.dfy`) holds the `Triangle` record, the tuning constants
  (a `Config` value) and the clearance rule `Output._required_clearance`.
  The rule is a pure function of the marker being placed and one marker
  already placed. It returns how much higher the new marker must go.
* `Placement` (`placement.dfy`) holds `Output.add_graph`:
  * the zone buckets of width `MarkerHeight`;
  * the candidate window of zones `max(0, z-2) .. z`;
  * the `while had_conflict` loop that raises a marker until a whole pass
    finds no conflict;
  * the running top edge (`this_offset`) that `_draw_triangle` keeps;
  * the move of `graph_offset` past the graph and its label.

  `Output` and `Graph` are classes. The triangles of a graph live in an
  array whose elements `AddGraph` rewrites in place.
* `Features`, `Text` and `ChartOrder` (`features.dfy`, `text.dfy`,
  `chartorder.dfy`) cover the driver `example.py`:
  * reading each GFF3 line (Generic Feature Format version 3: column 1
    seqid, 3 type, 4 start, 7 strand, 9 attributes) into at most one
    triangle;
  * counting GR and IR receptors and grouping triangles per chromosome;
  * handing the charts to the plotter in descending chromosome-name order,
    each chart sorted by position in place.

`Outcomes` (`outcomes.dfy`) has the `Option`/`Result` types.

The main results are these:
* the clearance is never negative;
* a non-zero clearance lifts the marker exactly to a height fixed by the
  reference marker, and after that the same reference asks for nothing more;
* the zero-clearance exits are exact. A marker within reach of a reference
  and strictly between its below height and clearance height is always
  lifted to the clearance height. A RIGHT marker closer than SmallGap to a
  LEFT reference and within one marker height of it ends exactly one marker
  height above it. Every other marker is left alone;
* the fixed-point loop terminates. The measure is the number of candidates
  whose target height is still above the marker;
* when the loop ends, every candidate in the window demands zero clearance;
* offsets never decrease, and a layout that is already settled is left as it
  is;
* the candidate window is exactly the earlier markers in zones
  `max(0, z-2) .. z`;
* for markers sorted by position, the window misses nothing whenever every
  rule's reach fits in two zones (`MarkerHeight / MarkerSlope + SmallGap <=
  2 * MarkerHeight`, which the defaults meet). The driver sorts each chart
  first, so each marker ends up clear of every marker placed before it.

Positions and offsets are exact `real`s. Python's float `//` and `round` on
whole-number floats become `.Floor`.

Three facts about the code shape the contracts:
* The zone window ends at zone `z`. The slice at `plotter.py:139` excludes
  its end, so zone `z+1` is never among the candidates.
* The no-overlap guarantee is one-sided. Each marker is clear of the markers
  placed *before* it. An earlier marker need not be clear of a later one:
  `Layout.NotSymmetric` shows two RIGHT markers at one position where the
  earlier marker, placed against the later one, would have to rise twice
  the marker height.
* Two RIGHT markers 0.05 Mb apart with the default settings give the second
  an offset of 2.95, which is less than one marker height (3).
  `Layout.ExampleRightRight` shows this.

## Model

| member | source | states |
|---|---|---|
| `Layout.DefaultConfig` | plotter.py:69-77 | The class defaults are valid (positive marker height and slope), with SmallGap a tenth and LargeGap three times the marker height |
| `Layout.Config.ApexOffset` | plotter.py:245 | The apex sits MarkerHeight/(2·slope) from the flat edge, a positive distance. This is the marker's whole horizontal extent |
| `Layout.NewTriangle` | plotter.py:19-33 | A new triangle keeps its position, fill, direction and colour and starts at height offset 0 |
| `Layout.Reach` | plotter.py:169-195 | The horizontal reach is two apex offsets plus SmallGap for a LEFT marker after a RIGHT reference. It is one apex offset plus SmallGap in the two other cases that can raise a marker this way |
| `Layout.RequiredClearance` | plotter.py:159-211 | The clearance is never negative. A non-zero clearance is positive and lifts the marker exactly to the raise target: reference offset + MarkerHeight when nesting, the clearance height otherwise |
| `Layout.RaiseTargetIgnoresOffset` | plotter.py:163-201 | The height a clearance lifts to depends on the reference and the placing marker's position and direction, not on its current offset |
| `Layout.NestingZeroBeyondSmallGap` | plotter.py:160-166 | A RIGHT marker at least SmallGap after a LEFT reference needs no clearance |
| `Layout.NestingZeroOutsideBand` | plotter.py:160-166 | A RIGHT marker more than one marker height above or below a LEFT reference does not nest |
| `Layout.NestsWithinBand` | plotter.py:160-164 | Conversely, a RIGHT marker closer than SmallGap to a LEFT reference and within one marker height of it is lifted exactly to the reference's offset + MarkerHeight |
| `Layout.RaisedWithinReach` | plotter.py:169-211 | Conversely, in the three other direction cases, a marker within reach and strictly between the below height and the clearance height gets the positive clearance that lifts it exactly to the clearance height |
| `Layout.ZeroBeyondReach` | plotter.py:169-195 | In the other three direction cases the clearance is 0 beyond the horizontal reach |
| `Layout.ZeroOutsideConflictBand` | plotter.py:172-209 | A marker at or above the clearance height, or at or below the below height, needs no clearance |
| `Layout.ClearanceSettles` | plotter.py:159-211 | After one application of the clearance, the same reference demands nothing more |
| `Layout.NoTinyGapAtSamePosition` | plotter.py:198-201 | Markers at the same position never get TinyGap, and the clearance height is then reference offset + MarkerHeight |
| `Layout.HeadOnWindow` | plotter.py:199-201 | TinyGap applies exactly when the reference points RIGHT, the placing marker points LEFT, and it lies strictly between 0.7 and 1.3 apex offsets to the right of the reference |
| `Layout.ExampleRightRight` | plotter.py:193-211 | Default settings, two RIGHT markers 0.05 apart: the second is lifted by 2.95 and is then settled |
| `Layout.ExampleNesting` | plotter.py:160-164 | Default settings, a RIGHT marker 0.05 after a LEFT one: it nests one marker height up |
| `Layout.ExampleFarApart` | plotter.py:169-195 | Default settings, markers 50 Mb apart: no clearance in any direction combination |
| `Layout.NotSymmetric` | plotter.py:198-211 | The rule is one-sided: a lifted marker is clear of its reference, but the reference, placed against the lifted marker, would have to rise twice the marker height |
| `Placement.Ceil` | plotter.py:136 | `math.ceil`: the least integer at or above its argument |
| `Placement.Pending` | plotter.py:141-147 | The termination measure is a count bounded by the number of candidates |
| `Placement.PendingAntitone` | plotter.py:141-147 | Raising the marker never increases the number of pending candidates |
| `Placement.PendingDrops` | plotter.py:141-147 | Raising the marker to or past a pending target strictly lowers the count |
| `Placement.Settle` | plotter.py:140-147 | The `while had_conflict` loop terminates. The offset never decreases. On exit every candidate demands zero clearance. The final offset is the starting one or some candidate's raise target, and it is unchanged when no candidate demands anything |
| `Placement.ZoneOf` | plotter.py:138 | `position // MarkerHeight`: the zone is non-negative exactly when the position is |
| `Placement.ZoneBounds` | plotter.py:138 | A marker's zone brackets its position: `z·MH <= position < (z+1)·MH` |
| `Placement.ZoneCount` | plotter.py:136 | The number of zones is the least count whose total width covers the graph's length |
| `Placement.Bucket` | plotter.py:148 | A zone bucket has no more markers than were placed, and all of them lie in that zone |
| `Placement.BucketMember` | plotter.py:148 | A zone bucket holds exactly the placed markers filed under that zone |
| `Placement.FlattenMember` | plotter.py:139 | `sum(lists, start=[])` holds exactly the markers of its parts |
| `Placement.WindowMember` | plotter.py:139 | A marker filed in only one zone is among the gathered candidates exactly when that zone lies in the slice |
| `Placement.CandidatesAreWindow` | plotter.py:139 | The concatenated slice of zones `lo..hi-1` holds exactly the placed markers whose zone lies in that range |
| `Placement.ZoneMonotone` | plotter.py:138 | A marker further along is never in an earlier zone |
| `Placement.OnChromosomeIsPlaceable` | plotter.py:136-148 | A marker with `0 <= position < length` has a zone index inside the bucket list |
| `Placement.DefaultWindowCoversReach` | plotter.py:69-77 | With the defaults, the widest reach (3.3) fits in two zones (6) |
| `Placement.FarZoneNoConflict` | plotter.py:139 | When the reach fits in two zones, a reference three or more zones back demands nothing |
| `Placement.WindowSuffices` | plotter.py:137-148 | For markers in position order, clearing the window means clearing every earlier marker |
| `Placement.TopAfter` | plotter.py:247-248 | Drawing one marker leaves the top edge at the larger of the old edge and the marker's top, `base + offset + MarkerHeight` |
| `Placement.ExtentIsMax` | plotter.py:247-248 | The running top edge is the maximum of its start and every drawn marker's top, `base + offset + MarkerHeight`, and equals one of them |
| `Placement.PlaceOne` | plotter.py:137-148 | One loop iteration: the placed marker is the old one raised, clears its window, and is justified by an earlier marker in its window. The buckets stay in step, and an already settled marker is unchanged |
| `Placement.Graph.constructor` | plotter.py:41-55 | A graph keeps its triangles, length and name, with `plength` the centromere and `qlength` the rest |
| `Placement.Output.constructor` | plotter.py:79-86 | A new plot has both offsets 0 and no graphs |
| `Placement.Output.DrawTriangle` | plotter.py:241-248 | The top edge rises to `graph_offset + offset + MarkerHeight` when the marker reaches above it |
| `Placement.Output.PlaceNext` | plotter.py:138-149 | One pass of the `for triangle` loop settles the next marker in the array, files it in its zone and draws it. Everything proved so far about the laid-out prefix is kept for one more marker |
| `Placement.Output.LayOut` | plotter.py:136-149 | After the loop, the whole array is laid out: raised, justified, window-settled, unchanged if already settled, with the buckets in step and the top edge the extent of the array |
| `Placement.Output.AddGraph` | plotter.py:131-156 | Every marker is raised, never lowered, and clears the earlier markers in its window. Each raise is justified by such a marker. A settled graph is unchanged. `graph_offset` becomes the extent plus LabelSize (exactly LabelSize more for an empty graph), `this_offset` equals it, and the graph is recorded |
| `Text.Split` | example.py:13 | `str.split` with a separator: at least one piece, none containing the separator |
| `Text.JoinSplit` | example.py:13 | Joining the pieces of a split gives the line back |
| `Text.SplitJoin` | example.py:17 | Splitting the join of separator-free pieces gives the pieces back |
| `Text.LowerChar` | example.py:33 | ASCII upper-case letters move to lower case and other characters stay |
| `Text.Lower` | example.py:33 | `str.lower` lower-cases every character and keeps the length |
| `Text.Numeral` | example.py:45 | A number's decimal numeral is a non-empty string of digits |
| `Text.ParseNat` | example.py:45 | `int()` on ASCII digit strings: it succeeds exactly on non-empty strings of the digits 0-9 |
| `Text.ParseNumeral` | example.py:45 | Parsing a number's numeral gives the number back |
| `Features.NameAttributes` | example.py:22 | The filter keeps no more attributes than there are, and every kept one starts with `Name=` |
| `Features.NameAttributesMember` | example.py:22 | The kept attributes are exactly those starting with `Name=` |
| `Features.NameAttributesAppend` | example.py:22 | Filtering a concatenation filters each part and concatenates, so the file order is kept |
| `Features.NameAttributesFirst` | example.py:22-29 | The first kept attribute is the first `Name=` setting, and more than one is kept exactly when another `Name=` setting follows it |
| `Features.NameAttributesMultiple` | example.py:22-25 | More than one attribute is kept exactly when two different settings start with `Name=` |
| `Features.ClassifyLine` | example.py:13-53 | A line that is not skipped has at least 9 columns and type gene or pseudogene, and an accepted feature starts at offset 0 |
| `Features.ReadBack` | example.py:13-17 | Splitting a formatted record on tabs and its ninth column on semicolons gives back its columns and attributes |
| `Features.AcceptFormatted` | example.py:13-56 | A line with one Name= attribute, a gr/ir name, a numeric start and a +/- strand is accepted. The feature has the record's chromosome, position start/1000000, `filled` = type is gene, the strand's direction and the family's colour |
| `Features.MultipleNamesFail` | example.py:22-25 | More than one Name= attribute on a gene or pseudogene line is an error |
| `Features.BadStrandFails` | example.py:47-53 | A strand other than + or - on an otherwise accepted line is an error |
| `Features.SkipsFormatted` | example.py:19-41 | Other types, lines without Name=, and names that start with neither gr nor ir are skipped |
| `Features.ShortLineSkipped` | example.py:13-16 | A line with fewer than 9 tab-separated fields is skipped |
| `Features.KindOf` | example.py:33-41 | The family is gr exactly when the name's first two letters are g, r (any case), and ir exactly when they are i, r |
| `Features.DirectionOf` | example.py:47-53 | `+` gives RIGHT and `-` gives LEFT, and every other strand is rejected |
| `Features.Megabases` | example.py:45 | The position in Mb is non-negative and is exactly a millionth of the start |
| `Features.CountsAddUp` | example.py:33-37 | Every accepted feature is counted once: `gr + ir` is the number of features |
| `Features.TrianglesOnEmpty` | example.py:55-58 | A chromosome's list is empty exactly when no feature is on it |
| `Features.AppendLine` | example.py:11-58 | A new line adds its feature, if it has one, to the end of the accepted features |
| `Features.AppendFeature` | example.py:55-58 | A new feature extends only its own chromosome's list and its own family's count |
| `Features.AddTriangle` | example.py:55-58 | Appending to a chromosome's list creates the list if missing and changes no other key |
| `Features.CollectCharts` | example.py:11-58 | The first failing line stops the run with its error. Otherwise each chromosome with a feature maps to its triangles in file order, no other key is present, and `gr`/`ir` count the two families. They add up to the number of accepted features, which is the total length of the stored lists |
| `Features.ChartSizeRemove` | example.py:55-58 | The triangles stored under a set of chromosomes are one chromosome's list plus those stored under the rest, for any chromosome in the set |
| `Features.AddTriangleSize` | example.py:55-58 | Appending or creating a list stores exactly one more triangle in total |
| `ChartOrder.LexFirstDifference` | example.py:76 | Python's string order: one string is smaller exactly when it is a proper prefix of the other or has the smaller character at the first place they differ |
| `ChartOrder.LexTransitive` | example.py:76 | Python's string order is transitive |
| `ChartOrder.LexTotal` | example.py:76 | Python's string order relates any two different strings |
| `ChartOrder.InsertName` | example.py:76 | Inserting a new name into an ascending list keeps it ascending and adds exactly that name |
| `ChartOrder.Reverse` | example.py:77 | `[::-1]` reverses the list and keeps its elements |
| `ChartOrder.OrderCharts` | example.py:76-77 | Every chart appears once, with its own triangles, in strictly descending name order |
| `ChartOrder.DescendingUnique` | example.py:76-77 | Two strictly descending lists of the same names are equal, so the dictionary's iteration order does not matter |
| `ChartOrder.InsertByPosition` | example.py:79 | A sort step adds one marker to the list |
| `ChartOrder.InsertAt` | example.py:79 | A sort step puts the marker after every marker at or before its position and before every marker beyond it |
| `ChartOrder.InsertPermutes` | example.py:79 | A sort step adds exactly the inserted marker |
| `ChartOrder.InsertSorted` | example.py:79 | A sort step keeps a sorted list sorted |
| `ChartOrder.InsertStable` | example.py:79 | A sort step puts the marker after the earlier markers at its position and leaves other positions alone |
| `ChartOrder.StableSort` | example.py:79 | The sort keeps the length and is a permutation of the chart |
| `ChartOrder.StableSortSorted` | example.py:79 | The sort orders the chart by position |
| `ChartOrder.StableSortStable` | example.py:79 | Markers sharing a position keep their file order |
| `ChartOrder.StableSortOfSorted` | example.py:79 | An already sorted chart is left unchanged |
| `ChartOrder.ShiftLarger` | example.py:79 | The markers before `a[i]` that lie beyond it each move one slot up, leaving a hole where it belongs |
| `ChartOrder.InsertInPlace` | example.py:79 | One in-place step turns the array into the sorted prefix with `a[i]` inserted, followed by the untouched rest |
| `ChartOrder.SortChart` | example.py:79 | `chart.sort(key=position)` in place gives the stable sort of the old contents: sorted and a permutation |
| `ChartOrder.PlaceablePermuted` | example.py:79 | Sorting keeps every marker inside the graph's zones |
| `ChartOrder.RaisedPlaceable` | example.py:79-80 | Raising a marker keeps it placeable: its zone stays inside the graph's zone list |
| `ChartOrder.PlotChart` | example.py:79-80 | Sorting a chart in place and adding it records one graph over that array. The array ends sorted by position and holds the stable sort of the old chart, each marker raised, never lowered, only to the raise target of an earlier marker in its window, and clear of every marker before it. `graph_offset` moves to the top of the graph plus LabelSize |
| `ChartOrder.PlotEntry` | example.py:79-80 | One pass of the driver loop: a new array holding the chart is sorted and added, with the graph's length and centromere as given, laid out as `PlotChart` states |
| `ChartOrder.ChartsPlottedExtend` | example.py:78-80 | A graph made from the next ordered chart, with that chromosome's table values in Mb and its markers arranged, extends the record of plotted charts |
| `ChartOrder.PlotCharts` | example.py:76-80 | Each ordered chart becomes a graph, in order. Its length and centromere are the table values in Mb, and its markers are the chart sorted and laid out. Each graph starts where the previous one ends: `graph_offset` is the stacked height of all graphs |
| `Placement.StackedSnoc` | example.py:78-80 | Adding one more graph puts it on top of the graphs below, followed by LabelSize |
| `Placement.StackedClears` | example.py:78-80 | The next graph starts above every marker of the graph before it, and its label |

## Left out

- All drawing: polygons, text paths, `add_patch`, the chromosome label, `_draw_bars`, `finalize` and `visualize`. These are rendering calls into matplotlib. Only the `this_offset` arithmetic of `_draw_triangle` is kept.
- `_draw_bars` sorts `graph.triangles` in place after layout. That sort is not modelled. `AddGraph`'s contracts speak of the list in the order it was laid out. The driver passes charts that are already sorted, and sorting them again changes nothing (`ChartOrder.StableSortOfSorted`).
- Floating-point rounding. Positions, offsets and constants are exact reals.
- Positions before the chromosome start or past its length. Python's negative list indices would wrap around the zone list, and a zone past the end raises `IndexError`. `AddGraph`, `PlotChart` and `PlotCharts` require every marker to be `Placeable`: its zone lies in `0 .. ceil(length/MarkerHeight)-1`. `Placement.OnChromosomeIsPlaceable` shows that every position in `0 <= position < length` meets this.
- `Placement.Output.AddGraph`: Python objects are shared by reference, so the same `Triangle` could sit in a list twice. The model stores triangles by value in an array, one slot per entry, and does not capture that aliasing.
- Settings changed after construction. The `Config` is fixed when the `Output` is made.
- `Text.ParseNat`: `int()` is modelled on ASCII digit strings only. Python's `int()` also accepts surrounding whitespace, a leading sign and underscores between digits, and other Unicode digits. The model rejects those strings.
- `Features.ClassifyLine`: `int(cols[3])` is modelled on plain ASCII digits. Python also accepts surrounding blanks, a sign and underscores; the model treats those as an error.
- `Text.Lower`: `str.lower` is modelled on ASCII letters only. No other Unicode case mapping is modelled.
- Opening and iterating the file and the final `print`. The lines arrive as a sequence of strings.
- The chromosome tables `total` and `first` are parameters of `ChartOrder.PlotCharts`, which requires every chart name to be a key. The `"Chr. {3-i}"` label is not modelled (the name passed is `None`).
- `ChartOrder.SortChart` uses an insertion sort where Python uses Timsort. Both are stable sorts by the same key, so they give the same result.
