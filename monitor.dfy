/**
 * The frame sampler `CanvasPerformance` of src/monitor.rs.
 *
 * The clock is a parameter: every `now` below stands for one value returned by
 * `performance.now()`. Times are exact reals in milliseconds.
 */
module Monitor {
  import opened Cast

  /** Length of one frame-rate window, in milliseconds. */
  const WindowMs: real := 1000.0

  /** Largest frame count whose product with 1_000 still fits in a `u32` (4_294_967). */
  const MaxWindowFrames: int := U32_MAX / 1000

  /** The five observable fields of the sampler. */
  datatype Sample = Sample(beginTime: real, previousTime: real, frames: U32, fps: U32, ms: U32)

  /**
   * The state `init` builds from two successive clock reads: empty counters,
   * and, under a monotone clock, `begin_time <= previous_time`.
   */
  function Initial(firstRead: real, secondRead: real): (s: Sample)
    ensures s.frames == 0 && s.fps == 0 && s.ms == 0
    ensures firstRead <= secondRead ==> s.beginTime <= s.previousTime
  {
    Sample(firstRead, secondRead, 0, 0, 0)
  }

  /** The guard of the window-closing branch. */
  predicate Closes(s: Sample, now: real)
  {
    now >= s.previousTime + WindowMs
  }

  /**
   * The call does not overflow a `u32` (a Rust panic): neither the increment
   * of `frames` nor, when the window closes, its product with 1_000.
   */
  predicate StepDefined(s: Sample, now: real)
    ensures StepDefined(s, now) <==>
              s.frames + 1 <= U32_MAX && (Closes(s, now) ==> (s.frames + 1) * 1000 <= U32_MAX)
  {
    s.frames < U32_MAX && (Closes(s, now) ==> s.frames + 1 <= MaxWindowFrames)
  }

  /** `frames * 1_000` fits in a `u32` exactly when `frames` is at most MaxWindowFrames. */
  lemma ProductFitsU32(frames: U32)
    ensures frames * 1000 <= U32_MAX <==> frames <= MaxWindowFrames
  {
  }

  /**
   * Frames per second over a closed window, `(frames * 1_000) as f64 / elapsed`
   * cast to `u32`. The divisor is at least one window long, so never zero.
   */
  function FrameRate(frames: U32, elapsed: real): (r: U32)
    requires elapsed >= WindowMs
    requires frames <= MaxWindowFrames
    ensures r <= frames
    ensures r as real <= (frames * 1000) as real / elapsed < r as real + 1.0
  {
    var q := (frames * 1000) as real / elapsed;
    assert q <= frames as real by {
      assert q * elapsed == (frames * 1000) as real;
    }
    TruncU32Monotone(q, frames as real);
    TruncU32OfWhole(frames);
    TruncU32(q)
  }

  /** The state after one `recalculate` whose clock read is `now`. */
  function Recalculated(s: Sample, now: real): (t: Sample)
    requires StepDefined(s, now)
    ensures t.frames <= s.frames + 1
  {
    var frames := s.frames + 1;
    var ms := TruncU32(now - s.beginTime);
    if Closes(s, now) then
      Sample(now, now, 0, FrameRate(frames, now - s.previousTime), ms)
    else
      Sample(now, s.previousTime, frames, s.fps, ms)
  }

  /** Before a full window has passed, only the frame count, `ms` and `begin_time` move. */
  lemma WithinWindow(s: Sample, now: real)
    requires StepDefined(s, now)
    requires now < s.previousTime + WindowMs
    ensures var t := Recalculated(s, now);
            t.fps == s.fps && t.previousTime == s.previousTime && t.frames == s.frames + 1
  {
  }

  /**
   * Once a full window has passed, `fps` is the truncated rate over it, which is
   * at most the number of frames counted, and the window restarts at `now`.
   */
  lemma ClosingWindow(s: Sample, now: real)
    requires StepDefined(s, now)
    requires now >= s.previousTime + WindowMs
    ensures now - s.previousTime >= WindowMs
    ensures var t := Recalculated(s, now);
            && t.fps == TruncU32(((s.frames + 1) * 1000) as real / (now - s.previousTime))
            && t.fps <= s.frames + 1
            && t.previousTime == now
            && t.frames == 0
  {
  }

  /**
   * `ms` is the time since the previous call, truncated: within one millisecond
   * below it when the clock moved forward, and 0 when it moved back.
   */
  lemma FrameTime(s: Sample, now: real)
    requires StepDefined(s, now)
    ensures var t := Recalculated(s, now);
            && t.ms == TruncU32(now - s.beginTime)
            && (s.beginTime <= now < s.beginTime + (U32_MAX + 1) as real ==>
                  t.ms as real <= now - s.beginTime < t.ms as real + 1.0)
            && (now < s.beginTime ==> t.ms == 0)
  {
  }

  /** `begin_time` is `now` on both branches, so with a clock that did not go back the window start is not after it. */
  lemma BeginIsNow(s: Sample, now: real)
    requires StepDefined(s, now)
    ensures Recalculated(s, now).beginTime == now
    ensures s.previousTime <= now ==> Recalculated(s, now).previousTime <= Recalculated(s, now).beginTime
  {
  }

  /** Every call of a run, one per value of `clock` in order, is free of `u32` overflow. */
  predicate Runs(s: Sample, clock: seq<real>)
    decreases |clock|
  {
    clock == [] || (StepDefined(s, clock[0]) && Runs(Recalculated(s, clock[0]), clock[1..]))
  }

  /** The state after one `recalculate` per value in `clock`, in order. */
  function Replay(s: Sample, clock: seq<real>): (t: Sample)
    requires Runs(s, clock)
    ensures t.frames <= s.frames + |clock|
    ensures clock != [] ==> t.beginTime == clock[|clock| - 1]
    decreases |clock|
  {
    if clock == [] then s else Replay(Recalculated(s, clock[0]), clock[1..])
  }

  /**
   * A run short enough that its frame count cannot pass MaxWindowFrames is
   * free of overflow, whatever the clock reads.
   */
  lemma {:induction false} ShortRunsAreDefined(s: Sample, clock: seq<real>)
    requires s.frames + |clock| <= MaxWindowFrames
    ensures Runs(s, clock)
    decreases |clock|
  {
    if clock != [] {
      ShortRunsAreDefined(Recalculated(s, clock[0]), clock[1..]);
    }
  }

  /**
   * The counter restarts with every closed window, so runs of any length are
   * free of overflow: here, a start one frame short of the limit and any
   * number of reads each a full window after the previous one.
   */
  lemma {:induction false} ClosingRunsAreDefined(s: Sample, clock: seq<real>)
    requires s.frames < MaxWindowFrames
    requires WindowsApart(s.previousTime, clock)
    ensures Runs(s, clock)
    decreases |clock|
  {
    if clock != [] {
      var next := Recalculated(s, clock[0]);
      assert next.frames == 0 && next.previousTime == clock[0];
      assert WindowsApart(next.previousTime, clock[1..]) by {
        forall i | 0 < i < |clock[1..]| ensures clock[1..][i - 1] + WindowMs <= clock[1..][i] {
          assert clock[i] + WindowMs <= clock[i + 1];
        }
      }
      ClosingRunsAreDefined(next, clock[1..]);
    }
  }

  /** Every read comes a full window after the one before it, the first a full window after `start`. */
  predicate WindowsApart(start: real, clock: seq<real>)
  {
    && (clock != [] ==> start + WindowMs <= clock[0])
    && (forall i :: 0 < i < |clock| ==> clock[i - 1] + WindowMs <= clock[i])
  }

  /** Replaying one more read is one more `recalculate`. */
  lemma {:induction false} ReplaySnoc(s: Sample, clock: seq<real>, now: real)
    requires Runs(s, clock) && StepDefined(Replay(s, clock), now)
    ensures Runs(s, clock + [now])
    ensures Replay(s, clock + [now]) == Recalculated(Replay(s, clock), now)
    decreases |clock|
  {
    if clock == [] {
      assert [now][1..] == [];
    } else {
      assert (clock + [now])[1..] == clock[1..] + [now];
      ReplaySnoc(Recalculated(s, clock[0]), clock[1..], now);
    }
  }

  /**
   * A run of calls that all read the clock before the window's second is up
   * never computes `frames * 1_000`, so it is free of overflow as long as the
   * count fits in a `u32`; it leaves `fps` and the window start alone and
   * counts every call.
   */
  lemma {:induction false} ReplayWithinWindow(s: Sample, clock: seq<real>)
    requires s.frames + |clock| <= U32_MAX
    requires forall i :: 0 <= i < |clock| ==> clock[i] < s.previousTime + WindowMs
    ensures Runs(s, clock)
    ensures var t := Replay(s, clock);
            t.fps == s.fps && t.previousTime == s.previousTime && t.frames == s.frames + |clock|
    decreases |clock|
  {
    if clock != [] {
      assert StepDefined(s, clock[0]);
      WithinWindow(s, clock[0]);
      var next := Recalculated(s, clock[0]);
      assert forall i :: 0 <= i < |clock[1..]| ==> clock[1..][i] == clock[i + 1];
      ReplayWithinWindow(next, clock[1..]);
    }
  }

  /** Clock reads that never go back, none earlier than `start`. */
  predicate MonotoneFrom(start: real, clock: seq<real>)
  {
    && (forall i :: 0 <= i < |clock| ==> start <= clock[i])
    && (forall i, j :: 0 <= i <= j < |clock| ==> clock[i] <= clock[j])
  }

  /** With a non-decreasing clock, the window start is never after `begin_time` once a call has run. */
  lemma {:induction false} MonotoneClockKeepsOrder(s: Sample, clock: seq<real>)
    requires Runs(s, clock)
    requires MonotoneFrom(s.previousTime, clock)
    ensures clock != [] ==> Replay(s, clock).previousTime <= Replay(s, clock).beginTime
    decreases |clock|
  {
    if clock != [] {
      BeginIsNow(s, clock[0]);
      var next := Recalculated(s, clock[0]);
      assert next.previousTime <= clock[0];
      if |clock| == 1 {
        assert clock[1..] == [];
      } else {
        assert MonotoneFrom(next.previousTime, clock[1..]) by {
          forall i | 0 <= i < |clock[1..]| ensures next.previousTime <= clock[1..][i] {
            assert clock[0] <= clock[i + 1];
          }
          forall i, j | 0 <= i <= j < |clock[1..]| ensures clock[1..][i] <= clock[1..][j] {
            assert clock[i + 1] <= clock[j + 1];
          }
        }
        MonotoneClockKeepsOrder(next, clock[1..]);
      }
    }
  }

  /** Sixty frames 16.67 ms apart from a clock at zero: the window closes on the sixtieth with 59 fps and 16 ms. */
  lemma SixtyFramesAtSixtyHertz()
    ensures Runs(Initial(0.0, 0.0), seq(60, k => (k + 1) as real * 16.67))
    ensures var t := Replay(Initial(0.0, 0.0), seq(60, k => (k + 1) as real * 16.67));
            t.fps == 59 && t.ms == 16 && t.frames == 0 && t.previousTime == 1000.2
  {
    var s := Initial(0.0, 0.0);
    var clock := seq(60, k => (k + 1) as real * 16.67);
    var first := clock[..59];
    assert clock == first + [1000.2];
    ReplayWithinWindow(s, first);
    var mid := Replay(s, first);
    ReplaySnoc(s, first, 1000.2);
    assert mid.beginTime == 983.53;
    assert mid.frames == 59 && mid.previousTime == 0.0;
    assert TruncU32(1000.2 - 983.53) == 16;
    assert TruncU32(60000.0 / 1000.2) == 59;
  }

  /** The sampler object: `recalculate` and the two setters change its fields in place. */
  class CanvasPerformance {
    var beginTime: real
    var previousTime: real
    var frames: U32
    var fps: U32
    var ms: U32

    /** The fields as a value. */
    function Snapshot(): Sample
      reads this
    {
      Sample(beginTime, previousTime, frames, fps, ms)
    }

    /** `init`: the two timestamps are two successive clock reads. */
    constructor Init(firstRead: real, secondRead: real)
      ensures Snapshot() == Initial(firstRead, secondRead)
    {
      beginTime := firstRead;
      previousTime := secondRead;
      frames := 0;
      fps := 0;
      ms := 0;
    }

    /** `recalculate`, with `now` the value of its one clock read. */
    method Recalculate(now: real)
      requires StepDefined(Snapshot(), now)
      modifies this
      ensures Snapshot() == Recalculated(old(Snapshot()), now)
    {
      frames := frames + 1;
      ms := TruncU32(now - beginTime);
      if now >= previousTime + WindowMs {
        fps := FrameRate(frames, now - previousTime);
        previousTime := now;
        frames := 0;
      }
      beginTime := now;
    }

    /** `set_begin_time`: only `begin_time` changes. */
    method SetBeginTime(time: real)
      modifies this
      ensures Snapshot() == old(Snapshot()).(beginTime := time)
    {
      beginTime := time;
    }

    /** `set_previous_time`: only `previous_time` changes. */
    method SetPreviousTime(time: real)
      modifies this
      ensures Snapshot() == old(Snapshot()).(previousTime := time)
    {
      previousTime := time;
    }
  }
}
