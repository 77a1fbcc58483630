/** The X axis of the graph scale: the x range taken from every point, the
    horizontal pixel range left after the label and legend padding, and the
    linear map calculateX between them. The Y axis belongs to the host
    library's scale and is not modelled. */
module ChartScale {

  import opened Optional
  import opened ChartData

  datatype XRange = XRange(xmin: real, xmax: real)

  /** The numbers of the scale that this chart reads. `xrange` is None when
      there are no points (the host's min and max of nothing are infinite);
      startPoint and endPoint are the plot's top and bottom pixel rows. */
  datatype Scale = Scale(
    xrange: Option<XRange>,
    xstartPoint: real, xendPoint: real,
    startPoint: real, endPoint: real)

  /** What calculateXLabelRotation measures, and the pixel rows of the plot
      that the host scale's own fit computes. */
  datatype ScaleInput = ScaleInput(
    width: real, firstLabelWidth: real, lastLabelWidth: real,
    yLabelWidth: real, legendWidth: real, padding: real,
    startPoint: real, endPoint: real)

  function Min(s: seq<real>): (m: real)
    requires |s| > 0
    ensures m in s && forall v :: v in s ==> m <= v
  {
    if |s| == 1 then s[0]
    else
      var rest := Min(s[1..]);
      assert forall v :: v in s ==> v == s[0] || v in s[1..];
      if s[0] <= rest then s[0] else rest
  }

  function Max(s: seq<real>): (m: real)
    requires |s| > 0
    ensures m in s && forall v :: v in s ==> v <= m
  {
    if |s| == 1 then s[0]
    else
      var rest := Max(s[1..]);
      assert forall v :: v in s ==> v == s[0] || v in s[1..];
      if s[0] >= rest then s[0] else rest
  }

  /** xmin and xmax over the x values of all points of all datasets. */
  function XRangeOf(ds: seq<Dataset>): (r: Option<XRange>)
    ensures r.None? <==> AllXValues(ds) == []
    ensures r.Some? ==> r.value.xmin in AllXValues(ds) && r.value.xmax in AllXValues(ds)
    ensures r.Some? ==> r.value.xmin <= r.value.xmax
  {
    var xs := AllXValues(ds);
    if |xs| == 0 then None else Some(XRange(Min(xs), Max(xs)))
  }

  /** The range spans every point, enabled or disabled, and both ends are
      some point's x value; there is no range only when there is no point. */
  lemma XRangeSpansAllPoints(ds: seq<Dataset>)
    ensures XRangeOf(ds).None? <==> forall q :: !ValidRef(ds, q)
    ensures XRangeOf(ds).Some? ==>
      var r := XRangeOf(ds).value;
      && (forall q :: ValidRef(ds, q) ==> r.xmin <= PointAt(ds, q).xvalue <= r.xmax)
      && (exists q :: ValidRef(ds, q) && PointAt(ds, q).xvalue == r.xmin)
      && (exists q :: ValidRef(ds, q) && PointAt(ds, q).xvalue == r.xmax)
  {
    var xs := AllXValues(ds);
    forall q | ValidRef(ds, q) ensures PointAt(ds, q).xvalue in xs {
      AllXValuesMembers(ds, PointAt(ds, q).xvalue);
    }
    if |xs| > 0 {
      AllXValuesMembers(ds, Min(xs));
      AllXValuesMembers(ds, Max(xs));
    }
  }

  /** calculateXLabelRotation's horizontal pixel range: the left padding
      clears the wider of the first label's half-width and the Y labels; the
      right padding keeps the last label's half-width, 3 pixels and the
      legend's width free. */
  function XPixelBounds(input: ScaleInput): (b: (real, real))
    ensures b.0 >= input.firstLabelWidth / 2.0 + input.padding
    ensures b.0 >= input.yLabelWidth + input.padding
    ensures b.0 == input.firstLabelWidth / 2.0 + input.padding || b.0 == input.yLabelWidth + input.padding
    ensures input.width - b.1 == input.lastLabelWidth / 2.0 + 3.0 + input.legendWidth + input.padding
  {
    var paddingRight := input.lastLabelWidth / 2.0 + 3.0 + input.legendWidth;
    var paddingLeft := if input.firstLabelWidth / 2.0 < input.yLabelWidth then input.yLabelWidth else input.firstLabelWidth / 2.0;
    (paddingLeft + input.padding, input.width - paddingRight - input.padding)
  }

  /** The scale as buildScale leaves it for the given datasets. */
  function BuildScale(ds: seq<Dataset>, input: ScaleInput): (s: Scale)
    ensures s.xrange == XRangeOf(ds)
    ensures s.xrange.None? <==> forall q :: !ValidRef(ds, q)
    ensures s.xstartPoint == XPixelBounds(input).0 && s.xendPoint == XPixelBounds(input).1
    ensures s.startPoint == input.startPoint && s.endPoint == input.endPoint
  {
    XRangeSpansAllPoints(ds);
    var b := XPixelBounds(input);
    Scale(XRangeOf(ds), b.0, b.1, input.startPoint, input.endPoint)
  }

  /** Switching a dataset on or off never moves the axis: the scale is built
      from disabled points too. */
  lemma ScaleIgnoresToggle(ds: seq<Dataset>, i: nat, disabledColor: Color, input: ScaleInput)
    requires i < |ds|
    ensures BuildScale(ds[i := Toggled(ds[i], disabledColor)], input) == BuildScale(ds, input)
  {
    ToggleKeepsXValues(ds, i, disabledColor);
  }

  /** The x range has width: calculateX divides by it. */
  predicate HasXSpan(s: Scale) {
    s.xrange.Some? && s.xrange.value.xmin < s.xrange.value.xmax
  }

  /** Linear interpolation of `value` from [xmin, xmax] onto
      [xstartPoint, xendPoint]. */
  function CalculateX(s: Scale, value: real): (x: real)
    requires HasXSpan(s)
    ensures var r := s.xrange.value;
      (x - s.xstartPoint) * (r.xmax - r.xmin) == (s.xendPoint - s.xstartPoint) * (value - r.xmin)
  {
    var r := s.xrange.value;
    var scalingFactor := (s.xendPoint - s.xstartPoint) / (r.xmax - r.xmin);
    assert scalingFactor * (r.xmax - r.xmin) == s.xendPoint - s.xstartPoint;
    assert scalingFactor * (value - r.xmin) * (r.xmax - r.xmin)
        == scalingFactor * (r.xmax - r.xmin) * (value - r.xmin);
    s.xstartPoint + (scalingFactor * (value - r.xmin))
  }

  /** The range's ends land on the plot's left and right pixel columns. */
  lemma CalculateXEnds(s: Scale)
    requires HasXSpan(s)
    ensures CalculateX(s, s.xrange.value.xmin) == s.xstartPoint
    ensures CalculateX(s, s.xrange.value.xmax) == s.xendPoint
  {
    var r := s.xrange.value;
    var f := (s.xendPoint - s.xstartPoint) / (r.xmax - r.xmin);
    assert f * (r.xmax - r.xmin) == s.xendPoint - s.xstartPoint;
    assert f * (r.xmin - r.xmin) == 0.0;
  }

  lemma NonNegativeQuotient(a: real, b: real)
    requires a >= 0.0 && b > 0.0
    ensures a / b >= 0.0
  {
    assert (a / b) * b == a;
  }

  /** With the pixel range running left to right, larger values never map
      further left. */
  lemma CalculateXMonotone(s: Scale, a: real, b: real)
    requires HasXSpan(s) && s.xstartPoint <= s.xendPoint
    requires a <= b
    ensures CalculateX(s, a) <= CalculateX(s, b)
  {
    var r := s.xrange.value;
    var f := (s.xendPoint - s.xstartPoint) / (r.xmax - r.xmin);
    NonNegativeQuotient(s.xendPoint - s.xstartPoint, r.xmax - r.xmin);
    assert f * (b - r.xmin) - f * (a - r.xmin) == f * (b - a);
    assert f * (b - a) >= 0.0;
  }

  /** Every point of a chart maps into the plot's horizontal pixel range. */
  lemma {:induction false} PointsMapIntoPlot(ds: seq<Dataset>, input: ScaleInput, q: PointRef)
    requires HasXSpan(BuildScale(ds, input))
    requires BuildScale(ds, input).xstartPoint <= BuildScale(ds, input).xendPoint
    requires ValidRef(ds, q)
    ensures BuildScale(ds, input).xstartPoint <= CalculateX(BuildScale(ds, input), PointAt(ds, q).xvalue)
                                             <= BuildScale(ds, input).xendPoint
  {
    var s := BuildScale(ds, input);
    XRangeSpansAllPoints(ds);
    var v := PointAt(ds, q).xvalue;
    CalculateXEnds(s);
    CalculateXMonotone(s, s.xrange.value.xmin, v);
    CalculateXMonotone(s, v, s.xrange.value.xmax);
  }
}
