# stats.rs in Dafny

A model of the core of stats.rs, a WebAssembly port of stats.js. The overlay shows two small canvas panels: frames per second and milliseconds per frame. The model covers the two parts that hold logic:

- **The frame sampler** (`CanvasPerformance`, src/monitor.rs). Every `recalculate` counts a frame. It sets `ms` to the truncated time since the previous call. When at least 1000 ms have passed since the window started, it sets `fps` to the truncated rate over that window and starts a new window. The clock is a parameter: each `now` stands for one value of `performance.now()`. `Monitor.Recalculated` is the state after one call, as a function on a `Sample` value. `Monitor.CanvasPerformance` is the object, and its methods change its fields in place and are proved against that function.
- **The scrolling bar graph** (`Panel`, src/panel.rs). The panel keeps its history in the canvas pixels. `update` copies the graph region onto itself one column (one pixel-ratio unit) to the left. It then paints a new rightmost column: foreground first, then a background rectangle from the top. Module `PanelLayout` holds the rectangle arithmetic of `create` and `update` as pure real-valued geometry. Module `Panel` holds the graph as an array of 74 column bar heights, which `Update` shifts left in a loop before writing the last slot. Module `PanelCaption` holds the text above the graph.

Module `Cast` models Rust's `as u32` cast from `f64`: truncation toward zero, saturating at 0 and at `u32::MAX`. Module `Stats` is the thin overlay of src/lib.rs: one sampler feeding the two panels.

Times, ratios and bar heights are exact reals. `frames`, `fps` and `ms` are integers in the `u32` range, because the `f64` fields `fps` and `ms` only ever hold values cast from `u32`.

Three properties of the code that the model makes explicit:

- The code has no guard for a zero-length window, and needs none. The branch guard `latest_time >= previous_time + 1000` (src/monitor.rs:39) makes the divisor at least 1000. `Monitor.FrameRate` requires exactly that, and the verifier checks it at the call in `Monitor.Recalculated`.
- `init` reads the clock for `begin_time` first and for `previous_time` second (src/monitor.rs:23-24). So the order `previous_time <= begin_time` is guaranteed only after one call with a clock that does not go back; right after `init` it holds only when the two reads are equal (`Monitor.BeginIsNow`, `Monitor.MonotoneClockKeepsOrder`).
- The frame counter restarts at every closed window, so a run of calls of any length is well defined as long as the count stays within `u32::MAX` and no window closes with more than 4_294_967 frames counted. `Monitor.Runs` states this call by call; `Monitor.ShortRunsAreDefined` and `Monitor.ClosingRunsAreDefined` give two sufficient conditions.

## Model

| member | source | states |
|---|---|---|
| Cast.TruncU32 | src/monitor.rs:37 | `x as u32` is 0 for a negative value, the whole part r with r <= x < r + 1 for a value in range, and `u32::MAX` beyond the range |
| Monitor.Initial | src/monitor.rs:22-29 | `init` starts with frames, fps and ms at 0; when the two clock reads are in order, `begin_time <= previous_time` |
| Monitor.StepDefined | src/monitor.rs:33-40 | a call does not overflow exactly when `frames + 1` fits in a u32 and, if the call closes the window, `(frames + 1) * 1_000` fits too |
| Monitor.ProductFitsU32 | src/monitor.rs:40 | `frames * 1_000` fits in a u32 exactly when frames <= 4_294_967, so the product overflows from 4_294_968 on |
| Monitor.FrameRate | src/monitor.rs:40-41 | given a divisor of at least 1000 ms, the rate is the truncated quotient of frames * 1000 by the elapsed time, and it is at most the frame count |
| Monitor.Recalculated | src/monitor.rs:32-48 | one `recalculate` adds at most one frame to the count |
| Monitor.WithinWindow | src/monitor.rs:33-39 | if now < previous_time + 1000, fps and previous_time are unchanged and frames grows by exactly one |
| Monitor.ClosingWindow | src/monitor.rs:39-45 | if now >= previous_time + 1000, the divisor now - previous_time is at least 1000, fps becomes trunc((old frames + 1) * 1000 / (now - old previous_time)) and is at most old frames + 1, previous_time becomes now and frames becomes 0 |
| Monitor.FrameTime | src/monitor.rs:37 | ms is the truncated time since the old begin_time: ms <= now - begin_time < ms + 1 when the clock moved forward, and 0 when it moved back |
| Monitor.BeginIsNow | src/monitor.rs:43-47 | begin_time becomes now on both branches; if now is not before the window start, the window start is not after begin_time afterwards |
| Monitor.Replay | src/monitor.rs:32-48 | a run of calls in which no call overflows (`Runs`) adds at most one frame per call, and begin_time ends at the last clock read |
| Monitor.ShortRunsAreDefined | src/monitor.rs:33-45 | a run of calls that cannot push the counter past 4_294_967 never overflows, whatever the clock reads |
| Monitor.ClosingRunsAreDefined | src/monitor.rs:39-45 | a run of any length never overflows when it starts below 4_294_967 frames, its first clock read is at least 1000 ms after previous_time and each later read is at least 1000 ms after the one before, because every call closes a window and restarts the count |
| Monitor.ReplaySnoc | src/monitor.rs:32-48 | if a run does not overflow and one more call does not either, the longer run does not overflow and its state is one more `recalculate` on the replayed state |
| Monitor.ReplayWithinWindow | src/monitor.rs:33-39 | a run of calls that all read the clock less than 1000 ms after the window start, and whose count stays within `u32::MAX`, does not overflow, leaves fps and previous_time unchanged and adds one frame per call |
| Monitor.MonotoneClockKeepsOrder | src/monitor.rs:39-47 | with a clock that never goes back, previous_time <= begin_time after any non-empty run of calls that does not overflow |
| Monitor.SixtyFramesAtSixtyHertz | src/monitor.rs:32-48 | sixty calls 16.67 ms apart from a clock at 0 do not overflow and close the window on the sixtieth call, with fps 59, ms 16 and frames 0 |
| Monitor.CanvasPerformance.Init | src/monitor.rs:17-30 | the fields are the two clock reads as begin_time and previous_time, and zero frames, fps and ms |
| Monitor.CanvasPerformance.Recalculate | src/monitor.rs:32-48 | the fields after the call are `Recalculated` of the fields before it |
| Monitor.CanvasPerformance.SetBeginTime | src/monitor.rs:50-52 | only begin_time changes, to the given time |
| Monitor.CanvasPerformance.SetPreviousTime | src/monitor.rs:54-56 | only previous_time changes, to the given time |
| PanelLayout.GeometryFor | src/panel.rs:30-37 | the graph is 74 ratio units wide, one unit per column, with equal margins left and right and the same margin below it; the text starts on the graph's left edge, above the graph |
| PanelLayout.TextClear | src/panel.rs:99 | the cleared strip starts at the canvas origin, spans the canvas width and ends where the graph begins |
| PanelLayout.BlitSource | src/panel.rs:107-117 | the copy reads from one ratio unit right of the graph's left edge to its right edge, over the graph's full height |
| PanelLayout.BlitDest | src/panel.rs:107-117 | the copy writes to the source moved one ratio unit left: from the graph's left edge to one unit short of its right edge |
| PanelLayout.NewColumn | src/panel.rs:120-125 | the new foreground column is one ratio unit wide, full graph height, starting where the copy's destination ends and ending at the graph's right edge |
| PanelLayout.Overpaint | src/panel.rs:129-134 | the background rectangle covers the new column from the top of the graph, and its height plus value / max_value of the graph height is the graph height |
| PanelLayout.NewBar | src/panel.rs:120-134 | the bar left in the new column lies in [0, graph height]; it is value / max_value of the graph height for 0 <= value <= max_value, full at or above max_value, and empty at or below 0 |
| PanelLayout.ColumnBar | src/panel.rs:120-134 | the bar a fully painted column keeps after a background rectangle of a given height is drawn from its top lies in [0, graph height]: the rest of the column when the rectangle fits in it, the whole column for a negative height, and nothing for a taller one |
| PanelLayout.GraphInsideCanvas | src/panel.rs:30-37 | for every ratio r > 0 the graph region lies in the canvas: it ends at 77r <= 80r on the right and at 45r <= 48r at the bottom |
| PanelLayout.TextClearAvoidsGraph | src/panel.rs:97-104 | the cleared text strip covers the rows above graph_y inside the canvas, contains the text origin and shares no point with the graph region |
| PanelLayout.ColumnInGraph | src/panel.rs:34-36 | column i lies inside the graph region, and column i + 1 is column i moved right by one ratio unit |
| PanelLayout.ColumnsTileGraph | src/panel.rs:34-36 | the 74 columns tile the graph region: the first starts at its left edge, each ends where the next begins, the last ends at its right edge |
| PanelLayout.BlitShiftsOneColumn | src/panel.rs:106-118 | the copy's source is its destination moved right by exactly one ratio unit, same size, both inside the graph; column i + 1 of the source lands on column i |
| PanelLayout.NewColumnFillsGap | src/panel.rs:113-125 | the new column is the last column; it starts where the copy's destination ends and ends at the graph's right edge, so no column is left unpainted |
| PanelLayout.BarProportional | src/panel.rs:127-134 | for 0 <= value <= max_value the background rectangle stays in the new column and the bar left is value / max_value of the graph height |
| PanelLayout.BarNotClamped | src/panel.rs:127-134 | the height is not clamped: above max_value the rectangle has negative height and the bar is full; below 0 it reaches under the graph and the bar is empty |
| PanelLayout.FullOverpaintEmpties | src/panel.rs:63-69 | painting the whole graph region over with background, as `create` does, leaves an empty bar |
| PanelCaption.Digits | src/panel.rs:103 | a whole number prints as at least one decimal digit, with a leading zero only for 0, and 0 prints as the single digit "0" |
| PanelCaption.ParseDigitsInvertsDigits | src/panel.rs:103 | reading the printed digits back gives the number |
| PanelCaption.WholeText | src/panel.rs:103 | a whole number prints as its decimal digits with no leading zero (0 prints as "0"), after a '-' exactly when it is negative; reading the digits back gives its magnitude |
| PanelCaption.Text | src/panel.rs:101-104 | the text shows the bare label after `create`; a reading renders exactly when its value is whole |
| PanelCaption.ReadingRoundTrip | src/panel.rs:103 | a whole reading n renders as its digits, a space and the label; splitting at the first space gives back n and the label |
| Panel.Scroll | src/panel.rs:106-125 | one update keeps 74 columns; column i takes what column i + 1 held and the new bar fills the last column |
| Panel.ScrollAll | src/panel.rs:106-125 | any number of updates keeps the strip's width |
| Panel.ScrollAllKeepsLatest | src/panel.rs:106-125 | after any run of updates the strip is the old strip followed by the new bars, cut to its last 74 entries |
| Panel.ScrollAllForgetsOldest | src/panel.rs:106-125 | after at least 74 updates the strip holds exactly the latest 74 bars |
| Panel.Panel.Create | src/panel.rs:15-78 | the canvas is 80r by 48r, the text shows the label, every graph column is empty, and ratio, label and colours are the given ones |
| Panel.Panel.Update | src/panel.rs:80-135 | the text becomes "{value} {label}" and the graph becomes `Scroll` of the old graph with the new bar; ratio, label, colours and canvas size are constant fields and cannot change |
| Stats.Stats.Init | src/lib.rs:59-102 | an FPS panel (#0ff on #002) and an MS panel (#0f0 on #020), both at the given ratio, showing their bare labels and empty graphs, and a sampler started from two clock reads |
| Stats.Stats.Update | src/lib.rs:115-120 | one `recalculate`, then fps enters the FPS graph on a scale of 100 and ms the MS graph on a scale of 200, each with its caption |
| Stats.CaptionsRender | src/lib.rs:118-119 | the values the overlay passes to the panels are whole, so both captions render as digits, a space and the label |

## Left out

- The DOM container, its CSS text, and `attach` and `detach` (src/lib.rs:59-77, 93-94, 128-142). These are host calls with no logic.
- index.js. It only drives `requestAnimationFrame`.
- `performance.now()` and `window.device_pixel_ratio()`. Their values are parameters (`now`, `firstRead`, `secondRead`, `ratio`).
- Colours, the 0.9 global alpha of the background rectangles, fonts and text rendering. A column is a bar height, and a background rectangle is taken to hide the foreground under it.
- IEEE-754 rounding, NaN and infinities. Times and geometry are exact reals.
- The integer canvas size and the CSS size (`width as u32`, `/ 2` at src/panel.rs:39-45). `Panel.Panel.Create` keeps the exact real size.
- The failure paths of `unwrap`, `expect` and `dyn_into` on element, context and clock creation. These are environment failures.
- Where the background rectangle lands outside the graph region (above it for a value over the maximum, below it for a negative value). `PanelLayout.BarNotClamped` states this, but the panel state does not track pixels outside the graph.
- Columns that do not fall on the device-pixel grid when the ratio is fractional.
- Monitor.Recalculated: requires that the call does not overflow a u32 (`StepDefined`). A debug build panics on the overflowing `frames += 1` or `frames * 1_000`, and a release build wraps around; neither is modelled.
- Monitor.CanvasPerformance.Recalculate: carries the same no-overflow precondition as `Monitor.Recalculated`.
- Stats.Stats.Update: carries the same no-overflow precondition as `Monitor.Recalculated`, on the sampler's state before the call.
- PanelCaption.Text: renders only whole-valued readings. Rust's shortest-round-trip formatting of fractional `f64` values is not modelled. The overlay only passes whole values (`Stats.CaptionsRender`).
- Panel.Panel.Update: requires max_value > 0, which the source does not check. Both callers pass 100 and 200.
- Panel.Panel.Create and Stats.Stats.Init: require ratio > 0, the device pixel ratio a browser reports.
- Stats.Stats.Init: each `Panel::create` reads `device_pixel_ratio()` on its own (src/panel.rs:21), so the source makes two reads; the model takes them as one value `ratio` for both panels.
