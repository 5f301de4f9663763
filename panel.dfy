/**
 * A stats panel (src/panel.rs): a label strip over a scrolling bar graph.
 *
 * The graph's history lives in the canvas pixels. Here each of its 74 columns
 * is the height of foreground bar it shows, and `update` shifts the strip one
 * column left and paints a new last column, as the canvas self-copy does.
 */
module Panel {
  import opened PanelLayout
  import opened PanelCaption

  /** The strip after one update: every column takes its right neighbour's bar and `bar` enters on the right. */
  function Scroll(strip: seq<real>, bar: real): (r: seq<real>)
    requires |strip| > 0
    ensures |r| == |strip|
    ensures forall i :: 0 <= i < |strip| - 1 ==> r[i] == strip[i + 1]
    ensures r[|strip| - 1] == bar
  {
    strip[1..] + [bar]
  }

  /** The strip after one update per bar of `bars`, in order. */
  function ScrollAll(strip: seq<real>, bars: seq<real>): (r: seq<real>)
    requires |strip| > 0
    ensures |r| == |strip|
    decreases |bars|
  {
    if bars == [] then strip else ScrollAll(Scroll(strip, bars[0]), bars[1..])
  }

  /**
   * Scrolling is a bounded buffer of the latest bars: after any number of
   * updates the strip is the old strip followed by the new bars, cut to its
   * last `|strip|` entries.
   */
  lemma {:induction false} ScrollAllKeepsLatest(strip: seq<real>, bars: seq<real>)
    requires |strip| > 0
    ensures ScrollAll(strip, bars) == (strip + bars)[|bars|..]
    decreases |bars|
  {
    if bars != [] {
      var next := Scroll(strip, bars[0]);
      ScrollAllKeepsLatest(next, bars[1..]);
      assert next + bars[1..] == (strip + bars)[1..];
    }
  }

  /** Once at least a strip's width of updates have run, the strip is exactly the latest bars. */
  lemma ScrollAllForgetsOldest(strip: seq<real>, bars: seq<real>)
    requires |strip| > 0 && |bars| >= |strip|
    ensures ScrollAll(strip, bars) == bars[|bars| - |strip|..]
  {
    ScrollAllKeepsLatest(strip, bars);
    assert (strip + bars)[|bars|..] == bars[|bars| - |strip|..];
  }

  class Panel {
    const ratio: real
    const labelText: string
    const foregroundColor: string
    const backgroundColor: string
    /** Canvas size in device pixels, fixed by `create`. */
    const width: real
    const height: real
    /** Bar height shown by each graph column, leftmost first. */
    const graph: array<real>
    /** What the text strip shows. */
    var caption: Caption

    function Layout(): Geometry
    {
      GeometryFor(ratio)
    }

    ghost predicate Valid()
      reads this, graph
    {
      && ratio > 0.0
      && width == Layout().width
      && height == Layout().height
      && graph.Length == Columns
      && forall i :: 0 <= i < Columns ==> 0.0 <= graph[i] <= Layout().graphHeight
    }

    /**
     * `create`: the canvas is 80 by 48 ratio units, the text strip shows the
     * label, and the graph region, filled with foreground and then painted over
     * with background, shows no bar in any column.
     */
    constructor Create(ratio: real, labelText: string, foregroundColor: string, backgroundColor: string)
      requires ratio > 0.0
      ensures Valid() && fresh(graph)
      ensures this.ratio == ratio && this.labelText == labelText
      ensures this.foregroundColor == foregroundColor && this.backgroundColor == backgroundColor
      ensures width == 80.0 * ratio && height == 48.0 * ratio
      ensures caption == Title(labelText)
      ensures forall i :: 0 <= i < Columns ==> graph[i] == 0.0
    {
      var g := GeometryFor(ratio);
      this.ratio := ratio;
      this.labelText := labelText;
      this.foregroundColor := foregroundColor;
      this.backgroundColor := backgroundColor;
      width := g.width;
      height := g.height;
      graph := new real[Columns](_ => ColumnBar(g.graphHeight, g.graphHeight));
      caption := Title(labelText);
    }

    /**
     * `update`: the caption becomes the reading, and the graph scrolls one
     * column left with the bar for `value` on a scale of `maxValue` entering
     * on the right. Nothing else about the panel changes.
     */
    method Update(value: real, maxValue: real)
      requires Valid()
      requires maxValue > 0.0
      modifies this, graph
      ensures Valid()
      ensures caption == Reading(value, labelText)
      ensures graph[..] == Scroll(old(graph[..]), NewBar(Layout(), value, maxValue))
    {
      caption := Reading(value, labelText);
      var i := 0;
      while i < Columns - 1
        invariant 0 <= i <= Columns - 1
        invariant caption == Reading(value, labelText)
        invariant forall k :: 0 <= k < i ==> graph[k] == old(graph[k + 1])
        invariant forall k :: i <= k < Columns ==> graph[k] == old(graph[k])
      {
        graph[i] := graph[i + 1];
        i := i + 1;
      }
      graph[Columns - 1] := NewBar(Layout(), value, maxValue);
    }
  }
}
