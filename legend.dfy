/** Geometry and hit-testing of the chart's legend panel (Chart.Legend).
    The panel's left edge is x, its vertical centre is y; the title sits on
    row 0 and dataset k is drawn on row k + 1. */
module ChartLegend {

  import opened Optional

  /** A pointer position in canvas pixels. */
  datatype Position = Position(x: real, y: real)

  /** The legend's geometry as the hit-testing code reads it. */
  datatype Layout = Layout(
    x: real, y: real, width: real, height: real,
    fontSize: real, titleFontSize: real,
    xPadding: real, yPadding: real)

  function Larger(a: real, b: real): real { if a < b then b else a }

  /** The pixel row where the panel's content begins. */
  function BaseLine(l: Layout): real {
    l.y - l.height / 2.0 + l.yPadding
  }

  /** Vertical centre of row `index` (0 is the title, k + 1 is dataset k):
      dataset rows start a title font size and half a font size below the
      title's centre and are 1.5 font sizes apart. */
  function LineHeight(l: Layout, index: nat): (h: real)
    ensures index >= 1 ==>
      h - LineHeight(l, 0) == l.titleFontSize + l.fontSize / 2.0 + l.fontSize * 1.5 * (index - 1) as real
  {
    var base := BaseLine(l);
    if index == 0 then base + l.titleFontSize / 2.0
    else base + (l.fontSize * 1.5 * (index - 1) as real + l.fontSize / 2.0) + l.titleFontSize * 1.5
  }

  /** The dataset index whose row holds pixel row `height`: -1 on or above
      the title's centre, and below it the number of whole row pitches
      (1.5 font sizes) from the first dataset row's top down to `height`,
      which is negative above that row. */
  function ReverseLineHeight(l: Layout, height: real): (r: int)
    requires l.fontSize > 0.0
    ensures height > BaseLine(l) + l.titleFontSize / 2.0 ==>
      var d := height - BaseLine(l) - l.titleFontSize * 1.5;
      (r as real) * (l.fontSize * 1.5) <= d < (r as real + 1.0) * (l.fontSize * 1.5)
  {
    var base := BaseLine(l);
    if height <= base + l.titleFontSize / 2.0 then -1
    else
      var q := l.fontSize * 1.5;
      var v := (height + l.fontSize / 2.0 - base - l.titleFontSize * 1.5 - l.fontSize / 2.0) / q;
      var d := height - base - l.titleFontSize * 1.5;
      assert v == d / q;
      DivideCompare(d, q, v.Floor as real);
      DivideCompare(d, q, v.Floor as real + 1.0);
      v.Floor
  }

  /** Inclusive bounding-box test of the panel: the two nested tests make a
      closed box. */
  predicate ContainsPoint(l: Layout, p: Position)
    ensures ContainsPoint(l, p) <==>
      (l.x <= p.x <= l.x + l.width && l.y - l.height / 2.0 <= p.y <= l.y + l.height / 2.0)
  {
    if l.x <= p.x && p.x <= l.x + l.width then
      l.y - l.height / 2.0 <= p.y && p.y <= l.y + l.height / 2.0
    else false
  }

  /** The edges belong to the box: a panel of non-negative size contains
      all four of its corners. */
  lemma ContainsPointCorners(l: Layout)
    requires l.width >= 0.0 && l.height >= 0.0
    ensures ContainsPoint(l, Position(l.x, l.y - l.height / 2.0))
    ensures ContainsPoint(l, Position(l.x + l.width, l.y - l.height / 2.0))
    ensures ContainsPoint(l, Position(l.x, l.y + l.height / 2.0))
    ensures ContainsPoint(l, Position(l.x + l.width, l.y + l.height / 2.0))
  {
  }

  /** Top edge of the band that belongs to dataset row k (its centre minus
      half a font size); consecutive bands are 1.5 font sizes apart. */
  function RowTop(l: Layout, k: nat): real {
    LineHeight(l, k + 1) - l.fontSize / 2.0
  }

  /** The size that Initialize gives the panel for `labelCount` labels whose
      longest measured width is `longestLabel`, with a title `titleWidth` wide. */
  predicate Sized(l: Layout, labelCount: nat, longestLabel: real, titleWidth: real) {
    var n := labelCount as real;
    && l.height == n * l.fontSize + (n - 1.0) * (l.fontSize / 2.0) + l.yPadding * 2.0 + l.titleFontSize * 1.5
    && l.width == Larger(longestLabel + l.fontSize + 3.0, titleWidth) + l.xPadding * 2.0
  }

  /** Legend row lookup with the dataset-count bound that the click and
      hover handlers need: Some(k) only for a row that has a dataset. */
  function LegendRow(l: Layout, count: nat, height: real): (r: Option<nat>)
    requires l.fontSize > 0.0
    ensures r.Some? ==> r.value < count && ReverseLineHeight(l, height) == r.value
    ensures r.None? ==> ReverseLineHeight(l, height) < 0 || ReverseLineHeight(l, height) >= count
  {
    var k := ReverseLineHeight(l, height);
    if 0 <= k < count then Some(k) else None
  }

  /** Dividing by a positive amount keeps comparisons with a constant. */
  lemma DivideCompare(d: real, q: real, c: real)
    requires q > 0.0
    ensures c * q <= d <==> c <= d / q
    ensures d < c * q <==> d / q < c
  {
    var v := d / q;
    assert v * q == d;
    assert (v - c) * q == d - c * q;
  }

  /** Row bands: the lookup yields k exactly on the band of row k, below the
      title's upper half. */
  lemma {:induction false} ReverseLineHeightBand(l: Layout, height: real, k: nat)
    requires l.fontSize > 0.0 && l.titleFontSize >= 0.0
    ensures ReverseLineHeight(l, height) == k
        <==> height > BaseLine(l) + l.titleFontSize / 2.0 && RowTop(l, k) <= height < RowTop(l, k + 1)
  {
    var fs := l.fontSize;
    var base := BaseLine(l);
    var d := height - base - l.titleFontSize * 1.5;
    var q := fs * 1.5;
    var v := d / q;
    assert RowTop(l, k) == base + l.titleFontSize * 1.5 + (k as real) * q;
    assert RowTop(l, k + 1) == base + l.titleFontSize * 1.5 + (k as real + 1.0) * q;
    DivideCompare(d, q, k as real);
    DivideCompare(d, q, k as real + 1.0);
    if height > base + l.titleFontSize / 2.0 {
      assert (height + fs / 2.0 - base - l.titleFontSize * 1.5 - fs / 2.0) / q == v;
      assert ReverseLineHeight(l, height) == v.Floor;
    }
  }

  /** Row inverse: the centre of the row on which dataset k is drawn maps
      back to k. */
  lemma RowInverse(l: Layout, k: nat)
    requires l.fontSize > 0.0 && l.titleFontSize >= 0.0
    ensures ReverseLineHeight(l, LineHeight(l, k + 1)) == k
  {
    var h := LineHeight(l, k + 1);
    assert RowTop(l, k + 1) == RowTop(l, k) + l.fontSize * 1.5;
    assert h > BaseLine(l) + l.titleFontSize / 2.0;
    ReverseLineHeightBand(l, h, k);
  }

  /** Above the first dataset band, and on the title's upper half, the
      lookup is negative; this is why every caller tests `index >= 0`. */
  lemma {:induction false} ReverseLineHeightNegative(l: Layout, height: real)
    requires l.fontSize > 0.0 && l.titleFontSize >= 0.0
    ensures ReverseLineHeight(l, height) < 0
        <==> height <= BaseLine(l) + l.titleFontSize / 2.0 || height < RowTop(l, 0)
  {
    var base := BaseLine(l);
    var q := l.fontSize * 1.5;
    var d := height - base - l.titleFontSize * 1.5;
    assert RowTop(l, 0) == base + l.titleFontSize * 1.5;
    DivideCompare(d, q, 0.0);
    if height > base + l.titleFontSize / 2.0 {
      assert (height + l.fontSize / 2.0 - base - l.titleFontSize * 1.5 - l.fontSize / 2.0) / q == d / q;
    }
  }

  /** On or above the title's centre the lookup reads -1, so no dataset row
      is selected, however many datasets there are. */
  lemma TitleBand(l: Layout, n: nat, height: real)
    requires l.fontSize > 0.0
    requires height <= BaseLine(l) + l.titleFontSize / 2.0
    ensures ReverseLineHeight(l, height) == -1 && LegendRow(l, n, height).None?
  {
  }

  /** Once sized, the panel's box contains the title and the swatch of every
      dataset row, and a pointer on the swatch of row k selects dataset k. */
  lemma {:induction false} SizedPanelHoldsRows(l: Layout, n: nat, longestLabel: real, titleWidth: real, k: nat)
    requires Sized(l, n, longestLabel, titleWidth)
    requires l.fontSize > 0.0 && l.titleFontSize >= 0.0
    requires l.xPadding >= 0.0 && l.yPadding >= 0.0 && longestLabel >= 0.0
    requires k < n
    ensures ContainsPoint(l, Position(l.x + l.xPadding, LineHeight(l, 0)))
    ensures ContainsPoint(l, Position(l.x + l.xPadding, LineHeight(l, k + 1)))
    ensures LegendRow(l, n, LineHeight(l, k + 1)) == Some(k)
  {
    var fs := l.fontSize;
    var base := BaseLine(l);
    var top := l.y - l.height / 2.0;
    var bottom := l.y + l.height / 2.0;
    var kr, nr := k as real, n as real;
    assert bottom == base + l.yPadding + 1.5 * (fs * nr) - fs / 2.0 + l.titleFontSize * 1.5;
    assert fs * kr <= fs * (nr - 1.0) by {
      assert (k + 1) as real <= nr;
      assert nr - 1.0 - kr >= 0.0;
      assert (nr - 1.0 - kr) * fs >= 0.0;
      assert (nr - 1.0 - kr) * fs == fs * (nr - 1.0) - fs * kr;
    }
    assert LineHeight(l, k + 1) == base + 1.5 * (fs * kr) + fs / 2.0 + l.titleFontSize * 1.5;
    assert top <= LineHeight(l, k + 1) <= bottom;
    assert top <= LineHeight(l, 0) <= bottom;
    RowInverse(l, k);
  }

  /** The sized panel's bottom edge lies below the last dataset band when the
      vertical padding is at least half a font size: the lookup there names
      a dataset that does not exist (index n of n datasets). */
  lemma {:induction false} BottomPaddingNamesMissingRow(l: Layout, n: nat, longestLabel: real, titleWidth: real)
    requires Sized(l, n, longestLabel, titleWidth)
    requires l.fontSize > 0.0 && l.titleFontSize >= 0.0
    requires l.xPadding >= 0.0 && longestLabel >= 0.0
    requires n >= 1 && l.yPadding >= l.fontSize / 2.0
    ensures ContainsPoint(l, Position(l.x, l.y + l.height / 2.0))
    ensures ReverseLineHeight(l, l.y + l.height / 2.0) >= n
    ensures LegendRow(l, n, l.y + l.height / 2.0).None?
  {
    var fs := l.fontSize;
    var base := BaseLine(l);
    var bottom := l.y + l.height / 2.0;
    var nr := n as real;
    var q := fs * 1.5;
    var d := bottom - base - l.titleFontSize * 1.5;
    assert bottom == base + l.yPadding + 1.5 * (fs * nr) - fs / 2.0 + l.titleFontSize * 1.5;
    assert fs * nr >= fs by { assert (nr - 1.0) * fs >= 0.0; }
    assert bottom > base + l.titleFontSize / 2.0;
    assert d >= nr * q;
    DivideCompare(d, q, nr);
    assert (bottom + fs / 2.0 - base - l.titleFontSize * 1.5 - fs / 2.0) / q == d / q;
    assert (d / q).Floor >= n;
  }

  /** A concrete instance: one dataset, font size 2, vertical padding 1, no
      title height; the bottom edge (y = 2) reads as dataset 1. */
  lemma BottomPaddingExample()
    ensures var l := Layout(-10.0, 0.0, 10.0, 4.0, 2.0, 0.0, 0.0, 1.0);
      Sized(l, 1, 5.0, 0.0) && ContainsPoint(l, Position(-5.0, 2.0)) && ReverseLineHeight(l, 2.0) == 1
  {
    var l := Layout(-10.0, 0.0, 10.0, 4.0, 2.0, 0.0, 0.0, 1.0);
    assert (2.0 + 1.0 - (-1.0) - 0.0 - 1.0) / 3.0 == 1.0;
  }

  /** The panel (Chart.Legend): initialize sizes it from the label count and
      the measured widths and moves it left by its own width, so that its
      right edge sits at the x it was given. */
  class Legend {
    var x: real
    var y: real
    var width: real
    var height: real
    const fontSize: real
    const titleFontSize: real
    const xPadding: real
    const yPadding: real

    function Geometry(): Layout
      reads this
    {
      Layout(x, y, width, height, fontSize, titleFontSize, xPadding, yPadding)
    }

    constructor (anchorX: real, centreY: real, fontSize: real, titleFontSize: real,
                 xPadding: real, yPadding: real,
                 labelCount: nat, longestLabel: real, titleWidth: real)
      ensures this.fontSize == fontSize && this.titleFontSize == titleFontSize
      ensures this.xPadding == xPadding && this.yPadding == yPadding
      ensures Sized(Geometry(), labelCount, longestLabel, titleWidth)
      ensures x + width == anchorX && y == centreY
    {
      this.x := anchorX;
      this.y := centreY;
      this.width := 0.0;
      this.height := 0.0;
      this.fontSize := fontSize;
      this.titleFontSize := titleFontSize;
      this.xPadding := xPadding;
      this.yPadding := yPadding;
      new;
      Initialize(labelCount, longestLabel, titleWidth);
    }

    method Initialize(labelCount: nat, longestLabel: real, titleWidth: real)
      modifies this
      ensures Sized(Geometry(), labelCount, longestLabel, titleWidth)
      ensures x == old(x) - width && x + width == old(x)
      ensures y == old(y)
    {
      var n := labelCount as real;
      height := n * fontSize + (n - 1.0) * (fontSize / 2.0) + yPadding * 2.0 + titleFontSize * 1.5;
      var labelWidth := longestLabel + fontSize + 3.0;
      var longestTextWidth := Larger(labelWidth, titleWidth);
      width := longestTextWidth + xPadding * 2.0;
      x := x - width;
    }
  }
}
