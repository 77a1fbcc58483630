# Chart.Graph.js — a verified model of the graph chart's core

Chart.Graph.js adds a "Graph" chart type, an x/y line chart with a legend, to
the Chart.js 1.x library. This project models the logic underneath the canvas
calls and proves it correct:

- **Legend geometry** (`ChartLegend`). The panel is sized and placed by
  `initialize`. `getLineHeight` gives the pixel row of the title and of each
  dataset, and `getReverseLineHeight` maps a pixel row back to a dataset
  index. `containsPoint` is the panel's closed bounding box. `Chart.Legend`
  is a class whose `Initialize` method assigns `height`, `width` and `x`.
  The geometry functions work on a `Layout` value read from it.
- **Datasets and points** (`ChartData`). These are datatypes. They cover
  dataset construction, the enable/disable toggle as a two-state machine,
  the restore-and-highlight colour bookkeeping of the hover handler, the
  x-value collection behind `xmin`/`xmax`, and the `hasValue` filter used
  by `draw`. It also holds the reference definition of "the nearest
  point": an argmin with ties going to the first point in dataset order.
  A point's identity is its position, `PointRef(dataset, index)`.
- **X axis** (`ChartScale`): `xmin`/`xmax` over all points, the horizontal
  pixel range left by `calculateXLabelRotation`, and `calculateX`.
- **The chart object** (`GraphChart.Graph`). This is a class with the
  dataset array, the scale numbers, the legend and `activeElements`. Its
  methods are `enableDisableDataset` (a loop over the points),
  `getPointsAtEvent` (the nested argmin loop) and `showTooltip` with its
  change test (a loop with a `changed` flag). It also models the hover and
  click handlers.

Measured text widths, the chart's width and height, the legend style options
and the host scale's `startPoint`/`endPoint` are inputs to the model. The
event type is a boolean: is it a mouse-out? The pointer position is a pair of
reals. Reals stand in for JavaScript numbers.

In these places the code is easy to misread; the model follows the code:
- The early `return -1` of `getReverseLineHeight` covers heights on or above
  the title's centre. From there down to the first dataset band the floor
  gives −1 or less (`ChartLegend.ReverseLineHeightNegative` states exactly
  when the result is negative).
- When the pointer is over the legend's title band, `activePoints` is left
  undefined and `showTooltip(undefined)` raises a TypeError. This happens
  after every point has been restored.
- When no enabled point lies within the starting bound of 1e10,
  `getPointsAtEvent` returns `[undefined]`. The highlight loop then raises.
- The datasets' `xmin`/`xmax` include the points of disabled datasets.

The model writes a handler run that raises as `Outcome.Raised` and keeps the
state the exception leaves behind.

## Model

| member | source | states |
|---|---|---|
| ChartLegend.Legend.Initialize | Chart.Graph.js:67-84 | height is n·fontSize + (n−1)·fontSize/2 + 2·yPadding + 1.5·titleFontSize; width is max(longest label + fontSize + 3, title width) + 2·xPadding; x moves left by the width, so the right edge stays at the old x; y is unchanged |
| ChartLegend.Legend.constructor | Chart.Graph.js:269-296 | the panel keeps the given font sizes and paddings, is sized as above, has its right edge at the chart's width and its centre at half the chart's height |
| ChartLegend.LineHeight | Chart.Graph.js:85-96 | dataset row k+1's centre lies titleFontSize + fontSize/2 + 1.5·fontSize·k below the title's centre |
| ChartLegend.ReverseLineHeight | Chart.Graph.js:97-104 | below the title's centre, the result r is the number of whole row pitches from the first dataset row's top: r·1.5·fontSize ≤ height − (content top + 1.5·titleFontSize) < (r+1)·1.5·fontSize |
| ChartLegend.ContainsPoint | Chart.Graph.js:105-112 | the two nested tests hold exactly when x ≤ px ≤ x+width and y−height/2 ≤ py ≤ y+height/2, bounds included |
| ChartLegend.ContainsPointCorners | Chart.Graph.js:105-112 | a panel of non-negative size contains all four of its corners |
| ChartLegend.RowInverse | Chart.Graph.js:85-104 | with fontSize > 0 and titleFontSize ≥ 0, the reverse lookup of dataset row k+1's pixel row is k, for every k |
| ChartLegend.ReverseLineHeightBand | Chart.Graph.js:97-104 | the lookup gives k ≥ 0 exactly when the height is below the title's centre and inside the band [centre of row k+1 − fontSize/2, that + 1.5·fontSize) |
| ChartLegend.ReverseLineHeightNegative | Chart.Graph.js:97-104 | the lookup is negative exactly on or above the title's centre, or above the first dataset band |
| ChartLegend.TitleBand | Chart.Graph.js:100-102 | any height on or above the title's centre gives −1, so the bounded lookup names no dataset row whatever the dataset count |
| ChartLegend.LegendRow | Chart.Graph.js:97-104 | the bounded lookup names a row only if it is a dataset index below the dataset count and equals the reverse lookup; it names none exactly when the reverse lookup is negative or at least the count |
| ChartLegend.SizedPanelHoldsRows | Chart.Graph.js:72-96 | in a panel sized for n labels, the title and every dataset row's swatch position are inside the box, and the bounded lookup at row k+1's centre is dataset k |
| ChartLegend.BottomPaddingNamesMissingRow | Chart.Graph.js:72-104 | with yPadding ≥ fontSize/2 and n ≥ 1 datasets, the panel's bottom edge is inside the box but looks up index n or more, a dataset that does not exist |
| ChartLegend.BottomPaddingExample | Chart.Graph.js:97-104 | for a panel sized for 1 label with font size 2 and vertical padding 1, the bottom edge (y = 2) is inside the box and looks up dataset 1 |
| ChartData.NewPoint | Chart.Graph.js:227-236 | a new point carries sample j's value, x value and label and the dataset's label; it has the given stroke and fill as its current and saved colours; a given non-empty highlight fill or stroke is used, and a missing or empty one falls back to the point colour or point stroke colour |
| ChartData.NewDataset | Chart.Graph.js:208-252 | one point per sample; enabled unless the input says false; a non-empty label is kept and an empty or missing one becomes no label; the dataset keeps the input's line and point colours |
| ChartData.NewDatasetSettled | Chart.Graph.js:208-264 | a dataset is enabled unless it says otherwise; it has one point per sample with that sample's value, x value and label, placed at the given start position; every point's current and saved colours are the dataset's point colours when enabled and disabledColor otherwise |
| ChartData.Toggled | Chart.Graph.js:312-333 | the toggled dataset has the opposite flag, as many points, and no other dataset field changed |
| ChartData.ToggledSettles | Chart.Graph.js:312-333 | the toggle negates enabled; it leaves every point's current and saved stroke and fill at disabledColor (when disabling) or at the dataset's pointStrokeColor/pointColor (when enabling); no other field of the dataset or its points changes |
| ChartData.ToggleTwice | Chart.Graph.js:312-333 | from construction colours, toggling twice gives back exactly the same dataset |
| ChartData.ToggleKeepsXValues | Chart.Graph.js:438-445 | toggling a dataset leaves the x values of all points, in order, unchanged |
| ChartData.RowRefs | Chart.Graph.js:189-191 | hovering legend row k selects the points of dataset k in point order (entry j is point j), so exactly those points, each once |
| ChartData.RestoreAll | Chart.Graph.js:196-198 | restoring keeps the number of datasets, each one's points count and every dataset field other than its points |
| ChartData.RestoreAllAt | Chart.Graph.js:196-198 | after restoring, every point has its saved fill and stroke as its current ones; the datasets' shapes and flags are unchanged |
| ChartData.HighlightAll | Chart.Graph.js:199-202 | highlighting keeps the number of datasets and each one's points count; its effect on each point is stated by HighlightAllAt |
| ChartData.HighlightAllAt | Chart.Graph.js:199-202 | after highlighting a list, exactly the listed points carry their highlight fill and stroke; every other point and every dataset field is unchanged |
| ChartData.HighlightAllSnoc | Chart.Graph.js:199-202 | highlighting a list and then one more point is highlighting the extended list |
| ChartData.PointsWithValues | Chart.Graph.js:541-556 | the polyline's points are exactly the dataset's points whose value is not null, and there are no more of them |
| ChartData.PointsWithValuesAppend | Chart.Graph.js:556 | the filter keeps order: filtering a concatenation concatenates the filtered parts |
| ChartData.PointsWithValuesAll | Chart.Graph.js:556 | a dataset without null values is drawn through all its points |
| ChartData.PointsWithValuesBridges | Chart.Graph.js:579-586 | a null between two values is skipped, so the line joins its neighbours |
| ChartData.AllXValues | Chart.Graph.js:438-445 | the collection starts with the first dataset's x values in point order, and every point's x value, enabled or not, is collected |
| ChartData.AllXValuesMembers | Chart.Graph.js:438-445 | a number is among the collected x values exactly when some point of some dataset, enabled or not, has it |
| ChartData.AllXValuesDependOnX | Chart.Graph.js:438-445 | the collected x values depend only on the points' x values |
| ChartData.NearestIsUnique | Chart.Graph.js:403-426 | at most one point is the nearest one, ties included |
| ChartData.PointDistance | Chart.Graph.js:176-178 | the squared distance is never negative and is zero when the pointer is on the point |
| ChartData.NearestExample | Chart.Graph.js:176-178 | for points (0,0), (10,0) and (10,10) and the pointer at (9,1), the nearest point is the second one |
| ChartScale.Min | Chart.Graph.js:488 | the minimum is one of the values and no value is smaller |
| ChartScale.Max | Chart.Graph.js:489 | the maximum is one of the values and no value is larger |
| ChartScale.XRangeOf | Chart.Graph.js:488-489 | there is a range exactly when some x value was collected; both ends are collected values and xmin ≤ xmax |
| ChartScale.XRangeSpansAllPoints | Chart.Graph.js:488-489 | xmin and xmax bound every point's x value, enabled or not, and each is some point's x value; there is no range only when there are no points |
| ChartScale.XPixelBounds | Chart.Graph.js:481-487 | xstartPoint is padding plus the larger of half the first label's width and the Y label width; xendPoint lies half the last label's width + 3 + legendWidth + padding left of the width |
| ChartScale.BuildScale | Chart.Graph.js:427-526 | the scale's x range is the min and max of all points' x values (so XRangeSpansAllPoints applies to it), present exactly when the chart has a point; its pixel range is the one calculateXLabelRotation leaves; its top and bottom rows are the host fit's |
| ChartScale.ScaleIgnoresToggle | Chart.Graph.js:488-489 | switching a dataset on or off does not change the scale |
| ChartScale.CalculateX | Chart.Graph.js:471-474 | the map is the line through (xmin, xstartPoint) and (xmax, xendPoint): (x − xstartPoint)·(xmax − xmin) = (xendPoint − xstartPoint)·(value − xmin) |
| ChartScale.CalculateXEnds | Chart.Graph.js:471-474 | with xmin < xmax, xmin maps to xstartPoint and xmax maps to xendPoint |
| ChartScale.CalculateXMonotone | Chart.Graph.js:471-474 | with xstartPoint ≤ xendPoint, a larger value never maps further left |
| ChartScale.PointsMapIntoPlot | Chart.Graph.js:561-566 | every point's x value maps into [xstartPoint, xendPoint] |
| GraphChart.ActiveSetChanged | Chart.Graph.js:338-352 | the change test is true exactly when the new list differs from the old one (in length or at some index) |
| GraphChart.Graph.constructor | Chart.Graph.js:207-296 | one dataset per input, built as above; every point starts at (xendPoint, endPoint); the scale is built from all points, and there is none without datasets; the legend is sized for the dataset count; nothing is active yet |
| GraphChart.Graph.EnableDisableDataset | Chart.Graph.js:312-333 | dataset index becomes its toggled form and every other dataset is unchanged |
| GraphChart.Graph.GetPointsAtEvent | Chart.Graph.js:403-426 | outside the plot rectangle the result is []; inside, a one-element list: the nearest point of an enabled dataset (first on a tie), or undefined exactly when no enabled point is nearer than 1e10 |
| GraphChart.Graph.ShowTooltip | Chart.Graph.js:334-386 | it redraws exactly when forced or when the list changed; only then does activeElements take the new list; a tooltip is shown exactly when it redraws with one element |
| GraphChart.Graph.RestorePoints | Chart.Graph.js:196-198 | every point of every dataset is restored |
| GraphChart.Graph.HighlightPoint | Chart.Graph.js:199-202 | the one point named takes its highlight colours and nothing else changes |
| GraphChart.Graph.HighlightPoints | Chart.Graph.js:199-202 | the list is highlighted in order up to its first undefined entry; the method raises exactly when it reaches one |
| GraphChart.Graph.OnTooltipEvent | Chart.Graph.js:186-204 | over a legend row the active set is that dataset's points; over the panel where the lookup is negative the handler raises after restoring; where the lookup is past the last dataset it raises before restoring, with every point as it was; on mouse-out nothing is active; otherwise the nearest point is active, or nothing outside the plot, and the handler raises when there is no nearest point; when it completes, the points are restored and then exactly the active ones highlighted, and it redrew exactly when the active set changed |
| GraphChart.Graph.OnClick | Chart.Graph.js:298-307 | a click inside the legend on a dataset row toggles exactly that dataset; a click inside the legend whose lookup is past the last dataset raises; every click off a dataset row changes nothing |

## Left out

- Canvas drawing is left out: the legend's and the chart's `draw`, `clear`, `render`, `measureText` and the stroke style chosen in `draw`. Text widths are inputs.
- The host `Chart.Scale` is not part of this model. That covers `calculateY`, the Y range fit, `update`, `draw`, `helpers.calculateScaleRange` and `scaleOverride`. The plot's top and bottom rows (`startPoint`, `endPoint`) are inputs.
- `Chart.Point` is not part of this model. Its `transition` animation and easing are left out, so a point's on-screen position after `draw` is not modelled. Its `save`/`restore` are modelled only for the fill and stroke colours, the only fields the handlers restore.
- `Chart.Tooltip`, `customTooltips` and the templating calls (`helpers.template`, `fontString`) are left out. `ShowTooltip` only reports which point gets a tooltip.
- `update` and `reflow` are left out, because both call foreign scale code. `update` calls `this.scale.update()`, restores the active points and re-saves every point; `reflow` only calls `this.scale.update(...)`.
- Event binding and `getRelativePosition` are left out. Handlers take the pointer position directly. The `showTooltips` option is taken as set.
- `inRange` is left out. Nothing in the file calls it.
- IEEE floating point is left out. Arithmetic is over reals, so rounding, NaN and infinities are not modelled. In particular, a font size of 0 (a division by zero in `getReverseLineHeight`) is excluded by a precondition.
- `ChartScale.CalculateXEnds` and the other `CalculateX` lemmas require xmin < xmax. The code has no guard for equal ends, where JavaScript divides by zero.
- `ChartData.PointsWithValues`: a point's value is a number or null. The code's test `value !== null` would also keep an `undefined` value, which is not modelled.
- `ChartData.WellFormed`, required by `GraphChart.Graph.constructor`: every sample must have an x value and a label. The code also accepts shorter `xdata` or `labels` and then gives those points undefined x values and labels, which the model cannot represent.
- `GraphChart.Graph.EnableDisableDataset` requires an existing dataset index. Called with a bad index, the code raises a TypeError at `dataset.enabled`. The click handler, the only caller in the file, models that raise itself.
- `GraphChart.Graph.GetPointsAtEvent` requires a built scale. On a chart without datasets the code raises when it reads `this.scale.xstartPoint`. The hover handler models that raise itself.
- `GraphChart.Graph.constructor`: the scale is built once from all datasets, where the code rebuilds it after each one. The final scale and the saved point positions are the same, because xendPoint does not depend on the data; and `endPoint` is taken as one input for the whole construction.
- The code's `datasets` and `points` are arrays of objects shared by reference. In the model, datasets are values in an array and a point is named by its position. The active list holds these names, and the change test compares them.

## Findings

| source | as written | input that shows it | evidently intended | confidence | as-written member | corrected member |
|---|---|---|---|---|---|---|
| Chart.Graph.js:97-104 | the row lookup has no upper bound, and the panel reserves yPadding below the last dataset row; the click and hover handlers only check `index >= 0` | one dataset, fontSize 2, yPadding 1, titleFontSize 0: the panel's bottom edge is inside the box and looks up index 1, so a click calls `enableDisableDataset(1)` and a hover reads `datasets[1].points` on an undefined dataset, both raising a TypeError | a position below the last dataset row names no dataset; the handlers should also check `index < datasets.length` | high for the lookup, not executed | ChartLegend.BottomPaddingNamesMissingRow | ChartLegend.LegendRow |

The handlers `GraphChart.Graph.OnClick` and `GraphChart.Graph.OnTooltipEvent`
model the code as written: inside the panel, a lookup at or past the dataset
count raises (the click reports it as `raised`, the hover as `Outcome.Raised`
before any point is restored). They select rows through the corrected lookup
`ChartLegend.LegendRow`, which names a dataset only when it exists; with it
the bottom strip selects no row, and `ChartLegend.SizedPanelHoldsRows` shows
that every existing row is still selected at its centre.
