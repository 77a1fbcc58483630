/** The graph chart's datasets and points: how they are built, how a
    dataset is switched on and off, how points are highlighted and restored,
    which points the polyline passes through, and the nearest-point relation
    that hit-testing computes. */
module ChartData {

  import opened Optional

  type Color = string

  /** One (x, y) sample (`caption` is the source's `label`). `value` is None for a null sample; `x` and `y` are
      the pixel position the animation last gave it; `savedStroke` and
      `savedFill` are the colours its last save() recorded, which restore()
      puts back. */
  datatype Point = Point(
    value: Option<real>, xvalue: real, caption: string, datasetLabel: Option<string>,
    strokeColor: Color, fillColor: Color,
    highlightFill: Color, highlightStroke: Color,
    savedStroke: Color, savedFill: Color,
    x: real, y: real)

  datatype Dataset = Dataset(
    name: Option<string>, enabled: bool,
    fillColor: Color, strokeColor: Color,
    pointColor: Color, pointStrokeColor: Color,
    points: seq<Point>)

  /** The identity of a point: its dataset's index and its index there. */
  datatype PointRef = PointRef(dataset: nat, index: nat)

  /** One dataset as the chart's caller supplies it (`name` is its `label`). Absent keys are None. */
  datatype DatasetInput = DatasetInput(
    name: Option<string>, enabled: Option<bool>,
    fillColor: Color, strokeColor: Color,
    pointColor: Color, pointStrokeColor: Color,
    pointHighlightFill: Option<Color>, pointHighlightStroke: Option<Color>,
    data: seq<Option<real>>, xdata: seq<real>, labels: seq<string>)

  /** Every sample has an x value and a label. */
  predicate WellFormed(input: DatasetInput) {
    |input.xdata| >= |input.data| && |input.labels| >= |input.data|
  }

  /** JavaScript's `a || b` on an optional string. */
  function OrElse(a: Option<string>, b: string): string {
    if a.Some? && a.value != "" then a.value else b
  }

  // ----- Colours a dataset's points have in each state -----

  function StateStroke(d: Dataset, disabledColor: Color): Color {
    if d.enabled then d.pointStrokeColor else disabledColor
  }

  function StateFill(d: Dataset, disabledColor: Color): Color {
    if d.enabled then d.pointColor else disabledColor
  }

  /** Every point of `d` shows, and has saved, the colours of d's state. */
  ghost predicate Settled(d: Dataset, disabledColor: Color) {
    forall j :: 0 <= j < |d.points| ==>
      && d.points[j].strokeColor == StateStroke(d, disabledColor)
      && d.points[j].fillColor == StateFill(d, disabledColor)
      && d.points[j].savedStroke == StateStroke(d, disabledColor)
      && d.points[j].savedFill == StateFill(d, disabledColor)
  }

  // ----- Construction -----

  /** Point j of a new dataset, saved as soon as it is made; the highlight
      colours fall back to the point colours when not given. */
  function NewPoint(input: DatasetInput, j: nat, stroke: Color, fill: Color, x0: real, y0: real): (p: Point)
    requires WellFormed(input) && j < |input.data|
    ensures p.savedStroke == p.strokeColor == stroke && p.savedFill == p.fillColor == fill
    ensures p.value == input.data[j] && p.xvalue == input.xdata[j] && p.caption == input.labels[j]
    ensures p.datasetLabel == input.name
    ensures input.pointHighlightFill.None? || input.pointHighlightFill.value == "" ==>
      p.highlightFill == input.pointColor
    ensures input.pointHighlightStroke.None? || input.pointHighlightStroke.value == "" ==>
      p.highlightStroke == input.pointStrokeColor
    ensures input.pointHighlightFill.Some? && input.pointHighlightFill.value != "" ==>
      p.highlightFill == input.pointHighlightFill.value
    ensures input.pointHighlightStroke.Some? && input.pointHighlightStroke.value != "" ==>
      p.highlightStroke == input.pointHighlightStroke.value
  {
    Point(input.data[j], input.xdata[j], input.labels[j], input.name,
          stroke, fill,
          OrElse(input.pointHighlightFill, input.pointColor),
          OrElse(input.pointHighlightStroke, input.pointStrokeColor),
          stroke, fill, x0, y0)
  }

  /** The dataset built from `input`: a disabled one gets `disabledColor`
      points; every point starts at (x0, y0) and is saved there. */
  function NewDataset(input: DatasetInput, disabledColor: Color, x0: real, y0: real): (d: Dataset)
    requires WellFormed(input)
    ensures |d.points| == |input.data|
    ensures d.enabled <==> input.enabled != Some(false)
    ensures d.name.Some? ==> d.name.value != ""
    ensures input.name.Some? && input.name.value != "" ==> d.name == input.name
    ensures input.name.None? || input.name.value == "" ==> d.name.None?
    ensures d.fillColor == input.fillColor && d.strokeColor == input.strokeColor
    ensures d.pointColor == input.pointColor && d.pointStrokeColor == input.pointStrokeColor
  {
    var enabled := if input.enabled.Some? then input.enabled.value else true;
    var stroke := if enabled then input.pointStrokeColor else disabledColor;
    var fill := if enabled then input.pointColor else disabledColor;
    Dataset(
      if input.name.Some? && input.name.value != "" then input.name else None,
      enabled, input.fillColor, input.strokeColor, input.pointColor, input.pointStrokeColor,
      seq(|input.data|, j requires 0 <= j < |input.data| => NewPoint(input, j, stroke, fill, x0, y0)))
  }

  /** A freshly built dataset is settled, one point per sample, samples in order. */
  lemma NewDatasetSettled(input: DatasetInput, disabledColor: Color, x0: real, y0: real)
    requires WellFormed(input)
    ensures var d := NewDataset(input, disabledColor, x0, y0);
      && Settled(d, disabledColor)
      && d.enabled == (input.enabled != Some(false))
      && |d.points| == |input.data|
      && forall j :: 0 <= j < |d.points| ==>
           && d.points[j].value == input.data[j] && d.points[j].xvalue == input.xdata[j]
           && d.points[j].caption == input.labels[j]
           && d.points[j].x == x0 && d.points[j].y == y0
  {
    var d := NewDataset(input, disabledColor, x0, y0);
    forall j | 0 <= j < |d.points|
      ensures d.points[j] == NewPoint(input, j, StateStroke(d, disabledColor), StateFill(d, disabledColor), x0, y0)
    {
    }
  }

  // ----- Switching a dataset on and off -----

  /** Sets a point's stroke and fill and saves them. */
  function Recolor(p: Point, stroke: Color, fill: Color): Point {
    p.(strokeColor := stroke, fillColor := fill, savedStroke := stroke, savedFill := fill)
  }

  function RecolorAll(ps: seq<Point>, stroke: Color, fill: Color): seq<Point> {
    seq(|ps|, j requires 0 <= j < |ps| => Recolor(ps[j], stroke, fill))
  }

  /** The dataset after enableDisableDataset has flipped it. */
  function Toggled(d: Dataset, disabledColor: Color): (t: Dataset)
    ensures t.enabled == !d.enabled && |t.points| == |d.points|
    ensures t == d.(enabled := t.enabled, points := t.points)
  {
    if d.enabled then
      d.(enabled := false, points := RecolorAll(d.points, disabledColor, disabledColor))
    else
      d.(enabled := true, points := RecolorAll(d.points, d.pointStrokeColor, d.pointColor))
  }

  /** Flipping negates `enabled`, leaves every point settled in the new
      state, and changes no field of the dataset or its points other than
      the flag and the four colour fields. */
  lemma ToggledSettles(d: Dataset, disabledColor: Color)
    ensures var t := Toggled(d, disabledColor);
      && t.enabled == !d.enabled
      && Settled(t, disabledColor)
      && t == d.(enabled := t.enabled, points := t.points)
      && |t.points| == |d.points|
      && forall j :: 0 <= j < |d.points| ==>
           t.points[j] == d.points[j].(strokeColor := t.points[j].strokeColor, fillColor := t.points[j].fillColor,
                                       savedStroke := t.points[j].savedStroke, savedFill := t.points[j].savedFill)
  {
  }

  /** Two flips return a settled dataset (one as built) to exactly itself. */
  lemma {:induction false} ToggleTwice(d: Dataset, disabledColor: Color)
    requires Settled(d, disabledColor)
    ensures Toggled(Toggled(d, disabledColor), disabledColor) == d
  {
    var t := Toggled(Toggled(d, disabledColor), disabledColor);
    assert t.enabled == d.enabled;
    assert |t.points| == |d.points|;
    forall j | 0 <= j < |d.points|
      ensures t.points[j] == d.points[j]
    {
      var p := d.points[j];
      assert p.strokeColor == StateStroke(d, disabledColor) && p.savedStroke == p.strokeColor;
      assert p.fillColor == StateFill(d, disabledColor) && p.savedFill == p.fillColor;
      assert t.points[j] == Recolor(Recolor(p, StateStroke(Toggled(d, disabledColor), disabledColor),
                                              StateFill(Toggled(d, disabledColor), disabledColor)),
                                    StateStroke(d, disabledColor), StateFill(d, disabledColor));
    }
  }

  // ----- Shape, references, highlighting and restoring -----

  /** Same number of datasets, and the same number of points in each. */
  ghost predicate SameShape(a: seq<Dataset>, b: seq<Dataset>) {
    |a| == |b| && forall i :: 0 <= i < |a| ==> |a[i].points| == |b[i].points|
  }

  predicate ValidRef(ds: seq<Dataset>, r: PointRef) {
    r.dataset < |ds| && r.index < |ds[r.dataset].points|
  }

  function PointAt(ds: seq<Dataset>, r: PointRef): Point
    requires ValidRef(ds, r)
  {
    ds[r.dataset].points[r.index]
  }

  /** Every point of dataset k, in order (what hovering legend row k selects). */
  function RowRefs(ds: seq<Dataset>, k: nat): (refs: seq<PointRef>)
    requires k < |ds|
    ensures |refs| == |ds[k].points|
    ensures forall j :: 0 <= j < |refs| ==> refs[j] == PointRef(k, j)
    ensures forall q :: q in refs <==> q.dataset == k && ValidRef(ds, q)
  {
    var refs := seq(|ds[k].points|, j requires 0 <= j => PointRef(k, j));
    assert forall q: PointRef :: q.dataset == k && ValidRef(ds, q) ==> refs[q.index] == q;
    refs
  }

  function Restored(p: Point): Point {
    p.(fillColor := p.savedFill, strokeColor := p.savedStroke)
  }

  function Highlighted(p: Point): Point {
    p.(fillColor := p.highlightFill, strokeColor := p.highlightStroke)
  }

  function RestoredDataset(d: Dataset): Dataset {
    d.(points := seq(|d.points|, j requires 0 <= j < |d.points| => Restored(d.points[j])))
  }

  /** Every point of every dataset restored to its saved colours. */
  function RestoreAll(ds: seq<Dataset>): (r: seq<Dataset>)
    ensures SameShape(ds, r)
    ensures forall i :: 0 <= i < |ds| ==> r[i] == ds[i].(points := r[i].points)
  {
    seq(|ds|, i requires 0 <= i < |ds| => RestoredDataset(ds[i]))
  }

  lemma RestoreAllAt(ds: seq<Dataset>, q: PointRef)
    requires ValidRef(ds, q)
    ensures ValidRef(RestoreAll(ds), q) && PointAt(RestoreAll(ds), q) == Restored(PointAt(ds, q))
    ensures RestoreAll(ds)[q.dataset].enabled == ds[q.dataset].enabled
  {
  }

  function HighlightAt(ds: seq<Dataset>, r: PointRef): (h: seq<Dataset>)
    requires ValidRef(ds, r)
    ensures SameShape(ds, h)
  {
    var d := ds[r.dataset];
    ds[r.dataset := d.(points := d.points[r.index := Highlighted(d.points[r.index])])]
  }

  predicate AllValid(ds: seq<Dataset>, refs: seq<PointRef>) {
    forall r :: r in refs ==> ValidRef(ds, r)
  }

  /** Highlights the points named by `refs`, one after another. */
  function HighlightAll(ds: seq<Dataset>, refs: seq<PointRef>): (h: seq<Dataset>)
    requires AllValid(ds, refs)
    ensures SameShape(ds, h)
    decreases |refs|
  {
    if refs == [] then ds
    else
      var next := HighlightAt(ds, refs[0]);
      assert AllValid(next, refs[1..]) by {
        forall r | r in refs[1..] ensures ValidRef(next, r) {
          assert r in refs && ValidRef(ds, r);
          assert |next[r.dataset].points| == |ds[r.dataset].points|;
        }
      }
      HighlightAll(next, refs[1..])
  }

  /** Exactly the named points take their highlight colours; every other
      point, and every dataset's flag and colours, are as before. */
  lemma {:induction false} HighlightAllAt(ds: seq<Dataset>, refs: seq<PointRef>, q: PointRef)
    requires AllValid(ds, refs) && ValidRef(ds, q)
    ensures ValidRef(HighlightAll(ds, refs), q)
    ensures PointAt(HighlightAll(ds, refs), q)
         == if q in refs then Highlighted(PointAt(ds, q)) else PointAt(ds, q)
    ensures HighlightAll(ds, refs)[q.dataset] == ds[q.dataset].(points := HighlightAll(ds, refs)[q.dataset].points)
    decreases |refs|
  {
    if refs != [] {
      var next := HighlightAt(ds, refs[0]);
      assert forall r :: r in refs[1..] ==> r in refs;
      assert AllValid(next, refs[1..]) && ValidRef(next, q) by {
        forall r | r in refs[1..] || r == q ensures ValidRef(next, r) {
          assert ValidRef(ds, r);
          assert |next[r.dataset].points| == |ds[r.dataset].points|;
        }
      }
      HighlightAllAt(next, refs[1..], q);
      assert q in refs <==> q == refs[0] || q in refs[1..];
    }
  }

  /** Highlighting one more point extends the previous highlighting. */
  lemma {:induction false} HighlightAllSnoc(ds: seq<Dataset>, refs: seq<PointRef>, r: PointRef)
    requires AllValid(ds, refs) && ValidRef(ds, r)
    ensures AllValid(ds, refs + [r])
    ensures ValidRef(HighlightAll(ds, refs), r)
    ensures HighlightAll(ds, refs + [r]) == HighlightAt(HighlightAll(ds, refs), r)
    decreases |refs|
  {
    var all := refs + [r];
    assert forall q :: q in all ==> q in refs || q == r;
    if refs == [] {
      assert all[1..] == [];
    } else {
      var next := HighlightAt(ds, refs[0]);
      assert all[0] == refs[0] && all[1..] == refs[1..] + [r];
      assert forall q :: q in refs[1..] ==> q in refs;
      assert AllValid(next, refs[1..]) && ValidRef(next, r) by {
        forall q | q in refs[1..] || q == r ensures ValidRef(next, q) {
          assert ValidRef(ds, q);
          assert |next[q.dataset].points| == |ds[q.dataset].points|;
        }
      }
      HighlightAllSnoc(next, refs[1..], r);
    }
  }

  // ----- The polyline of draw -----

  predicate HasValue(p: Point) { p.value.Some? }

  /** The points with a value, in dataset order (draw's `pointsWithValues`). */
  function PointsWithValues(ps: seq<Point>): (r: seq<Point>)
    ensures |r| <= |ps|
    ensures forall p :: p in r <==> p in ps && HasValue(p)
  {
    if ps == [] then []
    else (if HasValue(ps[0]) then [ps[0]] else []) + PointsWithValues(ps[1..])
  }

  /** The filter works piecewise: it keeps the points' order and bridges a
      null sample by dropping it. */
  lemma {:induction false} PointsWithValuesAppend(a: seq<Point>, b: seq<Point>)
    ensures PointsWithValues(a + b) == PointsWithValues(a) + PointsWithValues(b)
    decreases |a|
  {
    if a == [] {
      assert a + b == b;
    } else {
      assert (a + b)[1..] == a[1..] + b;
      PointsWithValuesAppend(a[1..], b);
    }
  }

  /** With no null sample the line passes through every point, in order. */
  lemma {:induction false} PointsWithValuesAll(ps: seq<Point>)
    requires forall j :: 0 <= j < |ps| ==> HasValue(ps[j])
    ensures PointsWithValues(ps) == ps
    decreases |ps|
  {
    if ps != [] {
      PointsWithValuesAll(ps[1..]);
    }
  }

  /** A null sample between two valued ones is skipped, not drawn. */
  lemma PointsWithValuesBridges(a: Point, gap: Point, b: Point)
    requires HasValue(a) && !HasValue(gap) && HasValue(b)
    ensures PointsWithValues([a, gap, b]) == [a, b]
  {
    assert [a, gap, b][1..] == [gap, b];
    assert [gap, b][1..] == [b];
    assert [b][1..] == [];
  }

  // ----- The x values the scale is built from -----

  function XValues(ps: seq<Point>): (xs: seq<real>)
    ensures |xs| == |ps|
  {
    seq(|ps|, j requires 0 <= j < |ps| => ps[j].xvalue)
  }

  /** The x values of every point of every dataset, enabled or not, in
      dataset order and then point order. */
  function AllXValues(ds: seq<Dataset>): (xs: seq<real>)
    ensures ds != [] ==> |ds[0].points| <= |xs| && xs[..|ds[0].points|] == XValues(ds[0].points)
    ensures forall i, j :: 0 <= i < |ds| && 0 <= j < |ds[i].points| ==> ds[i].points[j].xvalue in xs
  {
    if ds == [] then []
    else
      var rest := AllXValues(ds[1..]);
      var xs := XValues(ds[0].points) + rest;
      assert forall i, j :: 0 < i < |ds| && 0 <= j < |ds[i].points| ==> ds[i].points[j] == ds[1..][i - 1].points[j];
      assert forall j :: 0 <= j < |ds[0].points| ==> xs[j] == ds[0].points[j].xvalue;
      xs
  }

  /** Every point's x value, whatever its dataset's state, is among them,
      and nothing else is. */
  lemma {:induction false} AllXValuesMembers(ds: seq<Dataset>, v: real)
    ensures v in AllXValues(ds) <==> exists q :: ValidRef(ds, q) && PointAt(ds, q).xvalue == v
    decreases |ds|
  {
    if ds != [] {
      AllXValuesMembers(ds[1..], v);
      if v in XValues(ds[0].points) {
        var j :| 0 <= j < |ds[0].points| && XValues(ds[0].points)[j] == v;
        assert ValidRef(ds, PointRef(0, j)) && PointAt(ds, PointRef(0, j)).xvalue == v;
      }
      if v in AllXValues(ds[1..]) {
        var q :| ValidRef(ds[1..], q) && PointAt(ds[1..], q).xvalue == v;
        assert ValidRef(ds, PointRef(q.dataset + 1, q.index));
        assert PointAt(ds, PointRef(q.dataset + 1, q.index)).xvalue == v;
      }
      if exists q :: ValidRef(ds, q) && PointAt(ds, q).xvalue == v {
        var q :| ValidRef(ds, q) && PointAt(ds, q).xvalue == v;
        if q.dataset == 0 {
          assert XValues(ds[0].points)[q.index] == v;
        } else {
          assert ValidRef(ds[1..], PointRef(q.dataset - 1, q.index));
          assert PointAt(ds[1..], PointRef(q.dataset - 1, q.index)).xvalue == v;
        }
      }
    }
  }

  /** Only the points' x values matter. */
  lemma {:induction false} AllXValuesDependOnX(a: seq<Dataset>, b: seq<Dataset>)
    requires |a| == |b|
    requires forall i :: 0 <= i < |a| ==> XValues(a[i].points) == XValues(b[i].points)
    ensures AllXValues(a) == AllXValues(b)
    decreases |a|
  {
    if a != [] {
      AllXValuesDependOnX(a[1..], b[1..]);
    }
  }

  /** Switching dataset i on or off leaves the x values unchanged. */
  lemma ToggleKeepsXValues(ds: seq<Dataset>, i: nat, disabledColor: Color)
    requires i < |ds|
    ensures AllXValues(ds[i := Toggled(ds[i], disabledColor)]) == AllXValues(ds)
  {
    var t := ds[i := Toggled(ds[i], disabledColor)];
    assert XValues(t[i].points) == XValues(ds[i].points);
    AllXValuesDependOnX(t, ds);
  }

  // ----- Nearest point -----

  /** getPointsAtEvent's starting bound on the squared distance. */
  const Unreached: real := 10000000000.0

  /** Squared distance from the pointer (pointDistance): never negative,
      and zero when the pointer is on the point. */
  function PointDistance(p: Point, mx: real, my: real): (r: real)
    ensures r >= 0.0
    ensures mx == p.x && my == p.y ==> r == 0.0
  {
    SquareSign(mx - p.x);
    SquareSign(my - p.y);
    (mx - p.x) * (mx - p.x) + (my - p.y) * (my - p.y)
  }

  lemma SquareSign(d: real)
    ensures d * d >= 0.0
  {
    if d < 0.0 {
      assert d * d == (-d) * (-d);
    }
  }

  /** A point the search considers: one of an enabled dataset. */
  predicate IsCandidate(ds: seq<Dataset>, r: PointRef) {
    ValidRef(ds, r) && ds[r.dataset].enabled
  }

  /** Dataset order, then point order. */
  predicate Precedes(a: PointRef, b: PointRef) {
    a.dataset < b.dataset || (a.dataset == b.dataset && a.index < b.index)
  }

  function Distance(ds: seq<Dataset>, r: PointRef, mx: real, my: real): real
    requires ValidRef(ds, r)
  {
    PointDistance(PointAt(ds, r), mx, my)
  }

  /** r is a candidate closer than Unreached, no candidate is closer, and
      every candidate before it is strictly farther. */
  ghost predicate IsNearest(ds: seq<Dataset>, r: PointRef, mx: real, my: real) {
    && IsCandidate(ds, r)
    && Distance(ds, r, mx, my) < Unreached
    && (forall q :: IsCandidate(ds, q) ==> Distance(ds, r, mx, my) <= Distance(ds, q, mx, my))
    && (forall q :: IsCandidate(ds, q) && Precedes(q, r) ==> Distance(ds, r, mx, my) < Distance(ds, q, mx, my))
  }

  /** The tie-break makes the nearest point unique. */
  lemma NearestIsUnique(ds: seq<Dataset>, r: PointRef, s: PointRef, mx: real, my: real)
    requires IsNearest(ds, r, mx, my) && IsNearest(ds, s, mx, my)
    ensures r == s
  {
  }

  function SamplePoint(x: real, y: real): Point {
    Point(Some(0.0), 0.0, "", None, "", "", "", "", "", "", x, y)
  }

  /** Points at (0,0), (10,0) and (10,10); the pointer at (9,1) finds the
      one at (10,0). */
  lemma NearestExample()
    ensures var ds := [Dataset(None, true, "", "", "", "",
                               [SamplePoint(0.0, 0.0), SamplePoint(10.0, 0.0), SamplePoint(10.0, 10.0)])];
      IsNearest(ds, PointRef(0, 1), 9.0, 1.0)
  {
    var ds := [Dataset(None, true, "", "", "", "",
                       [SamplePoint(0.0, 0.0), SamplePoint(10.0, 0.0), SamplePoint(10.0, 10.0)])];
    assert Distance(ds, PointRef(0, 0), 9.0, 1.0) == 82.0;
    assert Distance(ds, PointRef(0, 1), 9.0, 1.0) == 2.0;
    assert Distance(ds, PointRef(0, 2), 9.0, 1.0) == 82.0;
    forall q | IsCandidate(ds, q)
      ensures Distance(ds, PointRef(0, 1), 9.0, 1.0) <= Distance(ds, q, 9.0, 1.0)
      ensures Precedes(q, PointRef(0, 1)) ==> Distance(ds, PointRef(0, 1), 9.0, 1.0) < Distance(ds, q, 9.0, 1.0)
    {
      assert q.dataset == 0 && (q.index == 0 || q.index == 1 || q.index == 2);
    }
  }
}
