/**
 * The overlay `Stats` of src/lib.rs: one frame sampler feeding two panels.
 * Only the sampling and drawing are modelled; the DOM container is not.
 */
module Stats {
  import opened Monitor
  import opened PanelLayout
  import opened PanelCaption
  import Panel

  /** Full scale of the FPS graph. */
  const FpsCeiling: real := 100.0
  /** Full scale of the MS graph. */
  const MsCeiling: real := 200.0

  class Stats {
    const fps: Panel.Panel
    const ms: Panel.Panel
    const monitor: CanvasPerformance

    ghost predicate Valid()
      reads this, fps, fps.graph, ms, ms.graph
    {
      && fps.Valid() && ms.Valid()
      && fps != ms && fps.graph != ms.graph
      && fps.labelText == "FPS" && ms.labelText == "MS"
    }

    /**
     * `init`: an FPS panel in cyan on dark blue, an MS panel in green on dark
     * green, both at the device pixel ratio `ratio`, and a sampler started from
     * two successive clock reads.
     */
    constructor Init(ratio: real, firstRead: real, secondRead: real)
      requires ratio > 0.0
      ensures Valid() && fresh(fps) && fresh(ms) && fresh(fps.graph) && fresh(ms.graph) && fresh(monitor)
      ensures fps.labelText == "FPS" && fps.foregroundColor == "#0ff" && fps.backgroundColor == "#002"
      ensures ms.labelText == "MS" && ms.foregroundColor == "#0f0" && ms.backgroundColor == "#020"
      ensures fps.ratio == ratio && ms.ratio == ratio
      ensures fps.caption == Title("FPS") && ms.caption == Title("MS")
      ensures forall i :: 0 <= i < Columns ==> fps.graph[i] == 0.0 && ms.graph[i] == 0.0
      ensures monitor.Snapshot() == Initial(firstRead, secondRead)
    {
      fps := new Panel.Panel.Create(ratio, "FPS", "#0ff", "#002");
      ms := new Panel.Panel.Create(ratio, "MS", "#0f0", "#020");
      monitor := new CanvasPerformance.Init(firstRead, secondRead);
    }

    /**
     * `update`: one `recalculate` with clock read `now`, then the new frame
     * rate enters the FPS graph on a scale of 100 and the new frame time the
     * MS graph on a scale of 200.
     */
    method Update(now: real)
      requires Valid()
      requires StepDefined(monitor.Snapshot(), now)
      modifies monitor, fps, fps.graph, ms, ms.graph
      ensures Valid()
      ensures monitor.Snapshot() == Recalculated(old(monitor.Snapshot()), now)
      ensures fps.caption == Reading(monitor.fps as real, "FPS")
      ensures ms.caption == Reading(monitor.ms as real, "MS")
      ensures fps.graph[..] == Panel.Scroll(old(fps.graph[..]), NewBar(fps.Layout(), monitor.fps as real, FpsCeiling))
      ensures ms.graph[..] == Panel.Scroll(old(ms.graph[..]), NewBar(ms.Layout(), monitor.ms as real, MsCeiling))
    {
      monitor.Recalculate(now);
      fps.Update(monitor.fps as real, FpsCeiling);
      ms.Update(monitor.ms as real, MsCeiling);
    }
  }

  /**
   * Both panels only ever receive whole readings, so their captions always
   * render, as the reading's digits followed by the label.
   */
  lemma CaptionsRender(s: Sample, labelText: string)
    ensures Text(Reading(s.fps as real, labelText)) == Some(Digits(s.fps) + " " + labelText)
    ensures Text(Reading(s.ms as real, labelText)) == Some(Digits(s.ms) + " " + labelText)
  {
    ReadingRoundTrip(s.fps, labelText);
    ReadingRoundTrip(s.ms, labelText);
  }
}
