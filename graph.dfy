/** The graph chart object: its datasets, the scale numbers it reads, its
    legend, and the handlers the source binds to pointer events: the
    dataset toggle, the nearest-point search, the active-set change test and
    the hover and click dispatch. */
module GraphChart {

  import opened Optional
  import opened ChartData
  import opened ChartScale
  import opened ChartLegend

  /** The tooltip font and padding options the legend is built with. */
  datatype LegendStyle = LegendStyle(fontSize: real, titleFontSize: real, xPadding: real, yPadding: real)

  /** How a handler run ends: normally, saying whether it redrew, or by a
      TypeError that the source raises part-way through. */
  datatype Outcome = Handled(redrawn: bool) | Raised

  /** The pointer lies outside the plot rectangle. */
  predicate Outside(s: Scale, mx: real, my: real) {
    mx < s.xstartPoint || mx > s.xendPoint || my < s.startPoint || my > s.endPoint
  }

  /** showTooltip's change test: lengths first, then identity at every index. */
  method ActiveSetChanged(elements: seq<PointRef>, active: seq<PointRef>) returns (changed: bool)
    ensures changed <==> elements != active
  {
    changed := false;
    if |elements| != |active| {
      changed := true;
      return changed;
    }
    var index := 0;
    while index < |elements|
      invariant 0 <= index <= |elements|
      invariant changed <==> elements[..index] != active[..index]
    {
      assert elements[..index + 1] == elements[..index] + [elements[index]];
      assert active[..index + 1] == active[..index] + [active[index]];
      if elements[index] != active[index] {
        changed := true;
      }
      index := index + 1;
    }
    assert elements[..index] == elements && active[..index] == active;
  }

  /** The invariant of getPointsAtEvent's scan once every point before
      (i, j) in dataset order has been looked at. */
  ghost predicate ScannedUpTo(ds: seq<Dataset>, pt: Option<PointRef>, dist: real,
                              mx: real, my: real, i: nat, j: nat)
  {
    && (forall q :: IsCandidate(ds, q) && Before(q, i, j) ==> dist <= Distance(ds, q, mx, my))
    && (pt.None? ==> dist == Unreached)
    && (pt.Some? ==>
          && IsCandidate(ds, pt.value) && Before(pt.value, i, j)
          && dist == Distance(ds, pt.value, mx, my) && dist < Unreached
          && forall q :: IsCandidate(ds, q) && Precedes(q, pt.value) ==> dist < Distance(ds, q, mx, my))
  }

  predicate Before(q: PointRef, i: nat, j: nat) {
    q.dataset < i || (q.dataset == i && q.index < j)
  }

  class Graph {
    const datasets: array<Dataset>
    const disabledColor: Color
    /** None until the first dataset has been added (buildScale runs per dataset). */
    const scale: Option<Scale>
    const legend: Legend
    var activeElements: seq<PointRef>

    /** Builds the datasets, the scale and the legend (initialize). Every
        point starts at the plot's bottom-right corner and is saved there;
        the legend is right-aligned to the chart's width and vertically
        centred. */
    constructor (inputs: seq<DatasetInput>, disabledColor: Color, scaleInput: ScaleInput,
                 chartWidth: real, chartHeight: real, style: LegendStyle,
                 longestLabel: real, titleWidth: real)
      requires forall i :: 0 <= i < |inputs| ==> WellFormed(inputs[i])
      ensures fresh(datasets) && fresh(legend)
      ensures this.disabledColor == disabledColor
      ensures datasets.Length == |inputs|
      ensures forall i :: 0 <= i < |inputs| ==>
        datasets[i] == NewDataset(inputs[i], disabledColor, XPixelBounds(scaleInput).1, scaleInput.endPoint)
      ensures scale == if inputs == [] then None else Some(BuildScale(datasets[..], scaleInput))
      ensures legend.fontSize == style.fontSize && legend.titleFontSize == style.titleFontSize
      ensures legend.xPadding == style.xPadding && legend.yPadding == style.yPadding
      ensures Sized(legend.Geometry(), |inputs|, longestLabel, titleWidth)
      ensures legend.x + legend.width == chartWidth && legend.y == chartHeight / 2.0
      ensures activeElements == []
    {
      var x0, y0 := XPixelBounds(scaleInput).1, scaleInput.endPoint;
      var ds := new Dataset[|inputs|](i requires 0 <= i < |inputs| => NewDataset(inputs[i], disabledColor, x0, y0));
      this.datasets := ds;
      this.disabledColor := disabledColor;
      this.scale := if inputs == [] then None else Some(BuildScale(ds[..], scaleInput));
      this.legend := new Legend(chartWidth, chartHeight / 2.0, style.fontSize, style.titleFontSize,
                                style.xPadding, style.yPadding, |inputs|, longestLabel, titleWidth);
      this.activeElements := [];
    }

    /** enableDisableDataset: flips dataset `index` and recolours and saves
        every one of its points; nothing else changes. */
    method EnableDisableDataset(index: nat)
      requires index < datasets.Length
      modifies datasets
      ensures datasets[..] == old(datasets[..])[index := Toggled(old(datasets[index]), disabledColor)]
    {
      var dataset := datasets[index];
      var stroke, fill;
      if dataset.enabled {
        stroke, fill := disabledColor, disabledColor;
      } else {
        stroke, fill := dataset.pointStrokeColor, dataset.pointColor;
      }
      var points := dataset.points;
      var j := 0;
      while j < |points|
        invariant 0 <= j <= |points| == |dataset.points|
        invariant forall k :: 0 <= k < j ==> points[k] == Recolor(dataset.points[k], stroke, fill)
        invariant forall k :: j <= k < |points| ==> points[k] == dataset.points[k]
      {
        points := points[j := Recolor(points[j], stroke, fill)];
        j := j + 1;
      }
      assert points == RecolorAll(dataset.points, stroke, fill);
      datasets[index] := dataset.(enabled := !dataset.enabled, points := points);
    }

    /** getPointsAtEvent: [] outside the plot; otherwise a one-element list
        holding the nearest point of an enabled dataset (the first one on a
        tie), or None (JavaScript's undefined) when no such point is closer
        than the starting bound. */
    method GetPointsAtEvent(mx: real, my: real) returns (found: seq<Option<PointRef>>)
      requires scale.Some?
      ensures Outside(scale.value, mx, my) ==> found == []
      ensures !Outside(scale.value, mx, my) ==> |found| == 1
      ensures !Outside(scale.value, mx, my) && found[0].Some? ==>
        IsNearest(datasets[..], found[0].value, mx, my)
      ensures !Outside(scale.value, mx, my) && found[0].None? ==>
        forall q :: IsCandidate(datasets[..], q) ==> Distance(datasets[..], q, mx, my) >= Unreached
    {
      var s := scale.value;
      if Outside(s, mx, my) {
        return [];
      }
      ghost var ds := datasets[..];
      var pt: Option<PointRef> := None;
      var dist := Unreached;
      var i := 0;
      while i < datasets.Length
        invariant 0 <= i <= datasets.Length
        invariant ScannedUpTo(ds, pt, dist, mx, my, i, 0)
      {
        var dataset := datasets[i];
        if dataset.enabled {
          var j := 0;
          while j < |dataset.points|
            invariant 0 <= j <= |dataset.points|
            invariant ScannedUpTo(ds, pt, dist, mx, my, i, j)
          {
            var thisdist := PointDistance(dataset.points[j], mx, my);
            assert thisdist == Distance(ds, PointRef(i, j), mx, my);
            if dist > thisdist {
              dist := thisdist;
              pt := Some(PointRef(i, j));
            }
            j := j + 1;
          }
        }
        i := i + 1;
      }
      found := [pt];
    }

    /** showTooltip's redraw suppression: unless forced, nothing happens
        when the new active list equals the previous one; otherwise the list
        replaces activeElements, the chart is redrawn, and a single active
        point gets a tooltip. */
    method ShowTooltip(elements: seq<PointRef>, forceRedraw: bool) returns (redrawn: bool, tooltip: Option<PointRef>)
      modifies this`activeElements
      ensures redrawn <==> forceRedraw || elements != old(activeElements)
      ensures activeElements == if redrawn then elements else old(activeElements)
      ensures tooltip == if redrawn && |elements| == 1 then Some(elements[0]) else None
    {
      var isChanged := ActiveSetChanged(elements, activeElements);
      if !isChanged && !forceRedraw {
        return false, None;
      }
      activeElements := elements;
      redrawn := true;
      tooltip := if |elements| == 1 then Some(elements[0]) else None;
    }

    /** The first step of the hover handler: every point back to its saved
        colours. */
    method RestorePoints()
      modifies datasets
      ensures datasets[..] == RestoreAll(old(datasets[..]))
    {
      var i := 0;
      while i < datasets.Length
        invariant 0 <= i <= datasets.Length
        invariant forall k :: 0 <= k < i ==> datasets[k] == RestoredDataset(old(datasets[k]))
        invariant forall k :: i <= k < datasets.Length ==> datasets[k] == old(datasets[k])
      {
        datasets[i] := RestoredDataset(datasets[i]);
        i := i + 1;
      }
    }

    /** Gives one point its highlight colours. */
    method HighlightPoint(r: PointRef)
      requires ValidRef(datasets[..], r)
      modifies datasets
      ensures datasets[..] == HighlightAt(old(datasets[..]), r)
    {
      var d := datasets[r.dataset];
      datasets[r.dataset] := d.(points := d.points[r.index := Highlighted(d.points[r.index])]);
    }

    /** The second step: the active points take their highlight colours, in
        list order; an undefined entry raises. On return `active` holds the
        entries highlighted so far. */
    method HighlightPoints(activePoints: seq<Option<PointRef>>) returns (active: seq<PointRef>, raised: bool)
      requires forall k :: 0 <= k < |activePoints| && activePoints[k].Some? ==>
        ValidRef(datasets[..], activePoints[k].value)
      modifies datasets
      ensures AllValid(old(datasets[..]), active)
      ensures datasets[..] == HighlightAll(old(datasets[..]), active)
      ensures |active| <= |activePoints| && forall k :: 0 <= k < |active| ==> activePoints[k] == Some(active[k])
      ensures raised ==> |active| < |activePoints| && activePoints[|active|] == None
      ensures !raised ==> |active| == |activePoints|
    {
      ghost var ds0 := datasets[..];
      active := [];
      var k := 0;
      while k < |activePoints|
        invariant 0 <= k <= |activePoints|
        invariant |active| == k && forall m :: 0 <= m < k ==> activePoints[m] == Some(active[m])
        invariant AllValid(ds0, active)
        invariant datasets[..] == HighlightAll(ds0, active)
      {
        if activePoints[k].None? {
          return active, true;
        }
        var r := activePoints[k].value;
        HighlightAllSnoc(ds0, active, r);
        HighlightPoint(r);
        active := active + [r];
        k := k + 1;
      }
      raised := false;
    }

    /** The tooltip-event handler. Over the legend, the dataset row under
        the pointer selects all of that dataset's points; a negative lookup
        leaves the selection undefined, so that showTooltip raises once the
        points are restored, and a lookup past the last dataset raises at
        once on the missing dataset. Elsewhere a mouse-out selects nothing
        and any other event the nearest point. Then every point is restored,
        the selection is highlighted and handed to showTooltip. */
    method OnTooltipEvent(px: real, py: real, mouseOut: bool) returns (outcome: Outcome)
      requires legend.fontSize > 0.0
      modifies datasets, this`activeElements
      ensures ContainsPoint(legend.Geometry(), Position(px, py)) ==>
        match LegendRow(legend.Geometry(), datasets.Length, py)
        case Some(k) => outcome.Handled? && activeElements == RowRefs(old(datasets[..]), k)
        case None =>
          && outcome.Raised?
          && if ReverseLineHeight(legend.Geometry(), py) >= datasets.Length
             then datasets[..] == old(datasets[..])
             else datasets[..] == RestoreAll(old(datasets[..]))
      ensures !ContainsPoint(legend.Geometry(), Position(px, py)) && mouseOut ==>
        outcome.Handled? && activeElements == []
      ensures !ContainsPoint(legend.Geometry(), Position(px, py)) && !mouseOut && scale.None? ==>
        outcome.Raised? && datasets[..] == old(datasets[..])
      ensures !ContainsPoint(legend.Geometry(), Position(px, py)) && !mouseOut && scale.Some? ==>
        if Outside(scale.value, px, py) then outcome.Handled? && activeElements == []
        else if exists q :: IsNearest(old(datasets[..]), q, px, py) then
          outcome.Handled? && |activeElements| == 1 && IsNearest(old(datasets[..]), activeElements[0], px, py)
        else
          outcome.Raised? && datasets[..] == RestoreAll(old(datasets[..]))
      ensures outcome.Raised? ==> activeElements == old(activeElements)
      ensures outcome.Handled? ==>
        && AllValid(old(datasets[..]), activeElements)
        && AllValid(RestoreAll(old(datasets[..])), activeElements)
        && datasets[..] == HighlightAll(RestoreAll(old(datasets[..])), activeElements)
        && (outcome.redrawn <==> activeElements != old(activeElements))
    {
      ghost var ds0 := datasets[..];
      var geometry := legend.Geometry();
      var activePoints: seq<Option<PointRef>>;
      var defined := true;
      if ContainsPoint(geometry, Position(px, py)) {
        if ReverseLineHeight(geometry, py) >= datasets.Length {
          return Raised;
        }
        var row := LegendRow(geometry, datasets.Length, py);
        if row.Some? {
          var refs := RowRefs(datasets[..], row.value);
          activePoints := seq(|refs|, j requires 0 <= j < |refs| => Some(refs[j]));
        } else {
          defined := false;
          activePoints := [];
        }
      } else if mouseOut {
        activePoints := [];
      } else {
        if scale.None? {
          return Raised;
        }
        activePoints := GetPointsAtEvent(px, py);
        if !Outside(scale.value, px, py) && activePoints[0].Some? {
          NearestIsUnique(ds0, activePoints[0].value, activePoints[0].value, px, py);
        }
      }
      assert forall k :: 0 <= k < |activePoints| && activePoints[k].Some? ==> ValidRef(ds0, activePoints[k].value);
      RestorePoints();
      assert SameShape(ds0, datasets[..]);
      assert forall k :: 0 <= k < |activePoints| && activePoints[k].Some? ==>
        ValidRef(datasets[..], activePoints[k].value) by {
        forall k | 0 <= k < |activePoints| && activePoints[k].Some?
          ensures ValidRef(datasets[..], activePoints[k].value)
        {
          var r := activePoints[k].value;
          assert ValidRef(ds0, r);
          assert |datasets[..][r.dataset].points| == |ds0[r.dataset].points|;
        }
      }
      var active, raised := HighlightPoints(activePoints);
      if raised || !defined {
        return Raised;
      }
      assert AllValid(ds0, active) by {
        forall r | r in active ensures ValidRef(ds0, r) {
          var k :| 0 <= k < |active| && active[k] == r;
          assert activePoints[k] == Some(r);
        }
      }
      var redrawn, tooltip := ShowTooltip(active, false);
      outcome := Handled(redrawn);
    }

    /** The click handler: a click on a legend row that has a dataset flips
        that dataset; a click inside the legend whose lookup is past the last
        dataset raises on the missing dataset; anything else changes nothing. */
    method OnClick(px: real, py: real) returns (toggled: Option<nat>, raised: bool)
      requires legend.fontSize > 0.0
      modifies datasets
      ensures toggled == if ContainsPoint(legend.Geometry(), Position(px, py))
                         then LegendRow(legend.Geometry(), datasets.Length, py) else None
      ensures raised <==> ContainsPoint(legend.Geometry(), Position(px, py))
                          && ReverseLineHeight(legend.Geometry(), py) >= datasets.Length
      ensures toggled.Some? ==> (toggled.value < datasets.Length &&
        datasets[..] == old(datasets[..])[toggled.value := Toggled(old(datasets[toggled.value]), disabledColor)])
      ensures toggled.None? ==> datasets[..] == old(datasets[..])
    {
      var geometry := legend.Geometry();
      toggled, raised := None, false;
      if ContainsPoint(geometry, Position(px, py)) {
        raised := ReverseLineHeight(geometry, py) >= datasets.Length;
        toggled := LegendRow(geometry, datasets.Length, py);
        if toggled.Some? {
          EnableDisableDataset(toggled.value);
        }
      }
    }
  }
}
