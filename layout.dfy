/**
 * The fixed geometry of a stats panel (src/panel.rs), in exact real
 * arithmetic, scaled by the device pixel ratio.
 */
module PanelLayout {

  /** Columns in the graph strip: the graph is 74 ratio units wide and each update paints one. */
  const Columns: nat := 74

  /** A canvas rectangle as `fill_rect` and `draw_image` take it: corner, width, height. */
  datatype Rect = Rect(x: real, y: real, w: real, h: real) {
    function Right(): real { x + w }
    function Bottom(): real { y + h }

    /** Every point of this rectangle lies in `outer`. */
    predicate Within(outer: Rect)
    {
      outer.x <= x && Right() <= outer.Right() && outer.y <= y && Bottom() <= outer.Bottom()
    }

    /** The two rectangles share no interior point. */
    predicate DisjointFrom(other: Rect)
    {
      Right() <= other.x || other.Right() <= x || Bottom() <= other.y || other.Bottom() <= y
    }

    function ShiftedRight(dx: real): Rect
    {
      Rect(x + dx, y, w, h)
    }
  }

  /** The let-bindings that `create` and `update` compute from the ratio. */
  datatype Geometry = Geometry(
    ratio: real,
    width: real, height: real,
    textX: real, textY: real,
    graphX: real, graphY: real,
    graphWidth: real, graphHeight: real)

  /**
   * The layout for a pixel ratio: a 3-unit margin left, right and below the
   * graph, the text origin on the graph's left edge above it, and the graph
   * 30 units high under a 15-unit text strip.
   */
  function GeometryFor(ratio: real): (g: Geometry)
    ensures g.ratio == ratio
    ensures g.graphX + g.graphWidth + g.graphX == g.width
    ensures g.graphY + g.graphHeight + g.graphX == g.height
    ensures g.graphWidth == Columns as real * ratio
    ensures g.textX == g.graphX
    ensures ratio > 0.0 ==> 0.0 < g.textY < g.graphY
  {
    Geometry(ratio,
             80.0 * ratio, 48.0 * ratio,
             3.0 * ratio, 2.0 * ratio,
             3.0 * ratio, 15.0 * ratio,
             74.0 * ratio, 30.0 * ratio)
  }

  function Canvas(g: Geometry): Rect { Rect(0.0, 0.0, g.width, g.height) }

  function GraphRegion(g: Geometry): Rect { Rect(g.graphX, g.graphY, g.graphWidth, g.graphHeight) }

  /** The strip `update` clears before drawing the caption. */
  function TextClear(g: Geometry): (r: Rect)
    ensures r.x == 0.0 && r.y == 0.0
    ensures r.Right() == g.width && r.Bottom() == g.graphY
  {
    Rect(0.0, 0.0, g.width, g.graphY)
  }

  /** Source and destination of the graph's self-copy in `update`. */
  function BlitSource(g: Geometry): (r: Rect)
    ensures r.x == g.graphX + g.ratio && r.Right() == g.graphX + g.graphWidth
    ensures r.y == g.graphY && r.h == g.graphHeight
  {
    Rect(g.graphX + g.ratio, g.graphY, g.graphWidth - g.ratio, g.graphHeight)
  }

  function BlitDest(g: Geometry): (r: Rect)
    ensures r == BlitSource(g).ShiftedRight(-g.ratio)
    ensures r.x == g.graphX && r.Right() == g.graphX + g.graphWidth - g.ratio
  {
    Rect(g.graphX, g.graphY, g.graphWidth - g.ratio, g.graphHeight)
  }

  /** The column `update` paints with the foreground colour after the copy. */
  function NewColumn(g: Geometry): (r: Rect)
    ensures r.x == BlitDest(g).Right() && r.Right() == g.graphX + g.graphWidth
    ensures r.w == g.ratio && r.y == g.graphY && r.h == g.graphHeight
  {
    Rect(g.graphX + g.graphWidth - g.ratio, g.graphY, g.ratio, g.graphHeight)
  }

  /** The background rectangle `update` draws from the top of the new column. */
  function Overpaint(g: Geometry, value: real, maxValue: real): (r: Rect)
    requires maxValue > 0.0
    ensures r.x == NewColumn(g).x && r.w == NewColumn(g).w && r.y == g.graphY
    ensures r.h + value / maxValue * g.graphHeight == g.graphHeight
  {
    Rect(g.graphX + g.graphWidth - g.ratio, g.graphY, g.ratio, (1.0 - value / maxValue) * g.graphHeight)
  }

  /** Column `i` of the graph strip, counted from the left. */
  function ColumnRect(g: Geometry, i: nat): Rect
  {
    Rect(g.graphX + i as real * g.ratio, g.graphY, g.ratio, g.graphHeight)
  }

  /**
   * Height of foreground left visible in a fully painted column of height
   * `graphHeight` after a background rectangle of height `overpaint` is drawn
   * from its top edge. A canvas draws a negative height upward, above the
   * column, and clips nothing it does not cover.
   */
  function ColumnBar(overpaint: real, graphHeight: real): (bar: real)
    requires graphHeight >= 0.0
    ensures 0.0 <= bar <= graphHeight
    ensures 0.0 <= overpaint <= graphHeight ==> bar + overpaint == graphHeight
    ensures overpaint <= 0.0 ==> bar == graphHeight
    ensures graphHeight <= overpaint ==> bar == 0.0
  {
    if overpaint <= 0.0 then graphHeight
    else if overpaint >= graphHeight then 0.0
    else graphHeight - overpaint
  }

  /** The bar `update` leaves in the new column for `value` on a scale of `maxValue`. */
  function NewBar(g: Geometry, value: real, maxValue: real): (bar: real)
    requires maxValue > 0.0 && g.graphHeight >= 0.0
    ensures 0.0 <= bar <= g.graphHeight
    ensures 0.0 <= value <= maxValue ==> bar == value / maxValue * g.graphHeight
    ensures maxValue <= value ==> bar == g.graphHeight
    ensures value <= 0.0 ==> bar == 0.0
  {
    FractionOfHeight(value / maxValue, g.graphHeight);
    ColumnBar(Overpaint(g, value, maxValue).h, g.graphHeight)
  }

  /** The graph region lies inside the canvas with a 3-unit margin right and bottom. */
  lemma GraphInsideCanvas(ratio: real)
    requires ratio > 0.0
    ensures var g := GeometryFor(ratio);
            && GraphRegion(g).Within(Canvas(g))
            && GraphRegion(g).Right() == 77.0 * ratio
            && GraphRegion(g).Bottom() == 45.0 * ratio
  {
  }

  /** The text strip covers the rows above the graph, holds the text origin and never touches the graph. */
  lemma TextClearAvoidsGraph(ratio: real)
    requires ratio > 0.0
    ensures var g := GeometryFor(ratio);
            && TextClear(g).Within(Canvas(g))
            && TextClear(g).Bottom() == GraphRegion(g).y
            && TextClear(g).DisjointFrom(GraphRegion(g))
            && 0.0 <= g.textX < TextClear(g).Right()
            && 0.0 <= g.textY < TextClear(g).Bottom()
  {
  }

  /** Column `i` sits `i` ratio units right of the graph's left edge and inside the graph. */
  lemma ColumnInGraph(ratio: real, i: nat)
    requires ratio > 0.0 && i < Columns
    ensures var g := GeometryFor(ratio);
            && ColumnRect(g, i).Within(GraphRegion(g))
            && ColumnRect(g, i + 1) == ColumnRect(g, i).ShiftedRight(ratio)
  {
    var g := GeometryFor(ratio);
    assert (i + 1) as real * ratio == i as real * ratio + ratio;
    assert (i + 1) as real * ratio <= 74.0 * ratio by {
      assert (74 - (i + 1)) as real * ratio >= 0.0;
    }
  }

  /** The columns tile the graph: each ends where the next begins, the first and last meet its edges. */
  lemma ColumnsTileGraph(ratio: real)
    requires ratio > 0.0
    ensures var g := GeometryFor(ratio);
            && ColumnRect(g, 0).x == GraphRegion(g).x
            && ColumnRect(g, Columns - 1).Right() == GraphRegion(g).Right()
            && forall i :: 0 <= i < Columns - 1 ==> ColumnRect(g, i).Right() == ColumnRect(g, i + 1).x
  {
  }

  /**
   * The copy reads the graph minus its first column and writes it one ratio
   * unit to the left, same size: column `i + 1` of the source lands on column `i`.
   */
  lemma BlitShiftsOneColumn(ratio: real)
    requires ratio > 0.0
    ensures var g := GeometryFor(ratio);
            && BlitSource(g) == BlitDest(g).ShiftedRight(ratio)
            && BlitSource(g).Within(GraphRegion(g))
            && BlitDest(g).Within(GraphRegion(g))
    ensures forall i: nat :: i < Columns - 1 ==> ColumnLandsLeft(GeometryFor(ratio), i)
  {
    var g := GeometryFor(ratio);
    forall i: nat | i < Columns - 1
      ensures ColumnLandsLeft(g, i)
    {
      ColumnInGraph(ratio, i);
      ColumnInGraph(ratio, i + 1);
    }
  }

  /** Column `i + 1` lies in the copy's source, column `i` in its destination, one ratio unit apart. */
  predicate ColumnLandsLeft(g: Geometry, i: nat)
  {
    && ColumnRect(g, i + 1).Within(BlitSource(g))
    && ColumnRect(g, i).Within(BlitDest(g))
    && ColumnRect(g, i + 1) == ColumnRect(g, i).ShiftedRight(g.ratio)
  }

  /**
   * The new column is the last column: it starts where the copy's destination
   * ends and ends at the graph's right edge, so the strip keeps 74 columns and
   * none is left unpainted.
   */
  lemma NewColumnFillsGap(ratio: real)
    requires ratio > 0.0
    ensures var g := GeometryFor(ratio);
            && NewColumn(g) == ColumnRect(g, Columns - 1)
            && NewColumn(g).x == BlitDest(g).Right()
            && NewColumn(g).Right() == GraphRegion(g).Right()
            && BlitDest(g).x == GraphRegion(g).x
            && NewColumn(g).DisjointFrom(BlitDest(g))
            && NewColumn(g).Within(GraphRegion(g))
  {
  }

  /**
   * For `0 <= value <= maxValue` the background rectangle stays in the new
   * column and the bar left is `value / maxValue` of the graph height.
   */
  lemma BarProportional(ratio: real, value: real, maxValue: real)
    requires ratio > 0.0 && maxValue > 0.0 && 0.0 <= value <= maxValue
    ensures var g := GeometryFor(ratio);
            && Overpaint(g, value, maxValue).Within(NewColumn(g))
            && NewBar(g, value, maxValue) == value / maxValue * g.graphHeight
  {
    var g := GeometryFor(ratio);
    var f := value / maxValue;
    assert 0.0 <= f <= 1.0;
    FractionOfHeight(f, g.graphHeight);
  }

  /** `(1 - f) * height` stays within the height and leaves `f * height` of it. */
  lemma FractionOfHeight(f: real, height: real)
    requires height >= 0.0
    ensures 0.0 <= f <= 1.0 ==> 0.0 <= (1.0 - f) * height <= height
    ensures height - (1.0 - f) * height == f * height
  {
  }

  /**
   * The height is not clamped: past the maximum the rectangle has negative
   * height (drawn upward into the text strip) and the column stays full; below
   * zero it reaches under the graph and the column is emptied.
   */
  lemma BarNotClamped(ratio: real, value: real, maxValue: real)
    requires ratio > 0.0 && maxValue > 0.0
    ensures var g := GeometryFor(ratio);
            && (value > maxValue ==>
                  Overpaint(g, value, maxValue).h < 0.0 && NewBar(g, value, maxValue) == g.graphHeight)
            && (value < 0.0 ==>
                  Overpaint(g, value, maxValue).Bottom() > GraphRegion(g).Bottom() && NewBar(g, value, maxValue) == 0.0)
  {
    var g := GeometryFor(ratio);
    var f := value / maxValue;
    if value > maxValue {
      assert f > 1.0;
      assert (1.0 - f) * g.graphHeight < 0.0;
    }
  }

  /** Painting the whole region over with background, as `create` does, leaves no bar. */
  lemma FullOverpaintEmpties(ratio: real)
    requires ratio > 0.0
    ensures ColumnBar(GeometryFor(ratio).graphHeight, GeometryFor(ratio).graphHeight) == 0.0
  {
  }
}
