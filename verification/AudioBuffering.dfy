/**
 The audio tick scheduler of libobs/obs-audio.c: a delay line of input time windows whose delay grows while it runs.
 `Step` is one tick on values; `AudioCore` is the object the audio thread updates in place.
 */
module AudioBuffering {
  import opened AudioClock

  const AUDIO_OUTPUT_FRAMES: nat := 1024

  /** `struct ts_info` */
  datatype Window = Window(start: u64, end: u64)

  /** The buffering fields of `struct obs_core_audio`. */
  datatype Buffering = Buffering(
    queue: seq<Window>, bufferedTs: u64, waitTicks: nat, totalTicks: nat, maxTicks: nat)
  {
    predicate Maxed() { totalTicks == maxTicks }
  }

  /** What the outside world supplies to one tick: the input window, the earliest source timestamp, and whatever the
      never assigned `new_ts.end` happens to hold. */
  datatype Tick = Tick(window: Window, minTs: u64, unassignedEnd: u64)

  /** The outcome of one tick: the new state, the window reported to the mixer, the window taken off the queue and
      whether the tick produces output. */
  datatype Outcome = Outcome(state: Buffering, reported: Window, popped: Window, emits: bool)

  function TickStart(rate: nat, bufferedTs: u64, waitTicks: nat): u64
    requires rate > 0
  {
    Wrap64(bufferedTs - FramesToNs(rate, waitTicks * AUDIO_OUTPUT_FRAMES))
  }

  /** The `k`-th window in front of `bufferedTs`. */
  function InsertedWindow(rate: nat, bufferedTs: u64, k: nat): Window
    requires rate > 0
    requires k > 0
  {
    Window(TickStart(rate, bufferedTs, k), TickStart(rate, bufferedTs, k - 1))
  }

  function TicksNeeded(rate: nat, start: u64, minTs: u64): nat
    requires minTs <= start
  {
    (NsToFrames(rate, start - minTs) + AUDIO_OUTPUT_FRAMES - 1) / AUDIO_OUTPUT_FRAMES
  }

  /** Puts `ticks` earlier windows in front of the queue. */
  function InsertWindows(rate: nat, s: Buffering, ticks: nat): Buffering
    requires rate > 0
    decreases ticks
  {
    if ticks == 0 then s
    else
      var w := InsertedWindow(rate, s.bufferedTs, s.waitTicks + 1);
      InsertWindows(rate, s.(waitTicks := s.waitTicks + 1, queue := [w] + s.queue), ticks - 1)
  }

  function Delay(rate: nat, s: Buffering, front: Window, ticks: nat): Buffering
    requires rate > 0
  {
    var anchored := if s.waitTicks == 0 then s.(bufferedTs := front.start) else s;
    InsertWindows(rate, anchored.(totalTicks := s.totalTicks + ticks), ticks)
  }

  /** The window that `set_fixed_audio_buffering` and `add_audio_buffering` leave behind. */
  function DelayedWindow(rate: nat, s: Buffering, ticks: nat, unassignedEnd: u64): Window
    requires rate > 0
    requires ticks <= s.waitTicks
  {
    Window(TickStart(rate, s.bufferedTs, s.waitTicks),
           if ticks == 0 then unassignedEnd else TickStart(rate, s.bufferedTs, s.waitTicks - 1))
  }

  function Min(a: nat, b: nat): nat { if a < b then a else b }

  /** How many windows the tick inserts, given the window at the front of the queue. */
  function TicksAdded(rate: nat, fixedBuffer: bool, s: Buffering, front: Window, minTs: u64): (r: nat)
    requires s.totalTicks <= s.maxTicks
    ensures s.totalTicks + r <= s.maxTicks
  {
    if fixedBuffer then s.maxTicks - s.totalTicks
    else if minTs < front.start then Min(TicksNeeded(rate, front.start, minTs), s.maxTicks - s.totalTicks)
    else 0
  }

  predicate Rewrites(fixedBuffer: bool, s: Buffering, front: Window, minTs: u64) {
    !s.Maxed() && (fixedBuffer || minTs < front.start)
  }

  /** The state and the window in hand once the tick has decided about buffering. */
  function Buffered(rate: nat, fixedBuffer: bool, s: Buffering, minTs: u64, unassignedEnd: u64)
    : (r: (Buffering, Window))
    requires rate > 0
    requires s.totalTicks <= s.maxTicks && s.queue != []
    ensures |r.0.queue| >= |s.queue|
  {
    var front := s.queue[0];
    if Rewrites(fixedBuffer, s, front, minTs) then
      var ticks := TicksAdded(rate, fixedBuffer, s, front, minTs);
      InsertedLength(rate, s, front, ticks);
      var d := Delay(rate, s, front, ticks);
      (d, DelayedWindow(rate, d, ticks, unassignedEnd))
    else
      (s, front)
  }

  /** Takes the front window off the queue; output is produced only when nothing is left to wait for. */
  function Pop(s: Buffering, reported: Window): Outcome
    requires s.queue != []
  {
    var rest := s.(queue := s.queue[1..]);
    if s.waitTicks > 0 then Outcome(rest.(waitTicks := s.waitTicks - 1), reported, s.queue[0], false)
    else Outcome(rest, reported, s.queue[0], true)
  }

  /** `audio_callback` without the sources. */
  function Step(rate: nat, fixedBuffer: bool, s: Buffering, tick: Tick): Outcome
    requires rate > 0
    requires s.totalTicks <= s.maxTicks
  {
    var q := s.(queue := s.queue + [tick.window]);
    var (d, reported) := Buffered(rate, fixedBuffer, q, tick.minTs, tick.unassignedEnd);
    Pop(d, reported)
  }

  lemma InsertedLength(rate: nat, s: Buffering, front: Window, ticks: nat)
    requires rate > 0
    ensures var d := Delay(rate, s, front, ticks);
      d.waitTicks == s.waitTicks + ticks && |d.queue| == |s.queue| + ticks
      && d.totalTicks == s.totalTicks + ticks && d.maxTicks == s.maxTicks
  {
    var anchored := if s.waitTicks == 0 then s.(bufferedTs := front.start) else s;
    InsertWindowsFields(rate, anchored.(totalTicks := s.totalTicks + ticks), ticks);
  }

  lemma {:induction false} InsertWindowsFields(rate: nat, s: Buffering, ticks: nat)
    requires rate > 0
    ensures var r := InsertWindows(rate, s, ticks);
      r == s.(waitTicks := s.waitTicks + ticks, queue := r.queue) && |r.queue| == |s.queue| + ticks
    decreases ticks
  {
    if ticks == 0 {
    } else {
      var w := InsertedWindow(rate, s.bufferedTs, s.waitTicks + 1);
      InsertWindowsFields(rate, s.(waitTicks := s.waitTicks + 1, queue := [w] + s.queue), ticks - 1);
    }
  }

  // ---------- The delay line ----------

  ghost predicate Contiguous(windows: seq<Window>) {
    forall i :: 0 <= i < |windows| - 1 ==> windows[i].end == windows[i + 1].start
  }

  /** The `k` windows that lie back to back before `bufferedTs`, earliest first. */
  ghost function Inserted(rate: nat, bufferedTs: u64, k: nat): (r: seq<Window>)
    requires rate > 0
    ensures |r| == k
  {
    if k == 0 then [] else [InsertedWindow(rate, bufferedTs, k)] + Inserted(rate, bufferedTs, k - 1)
  }

  /** The queue is the inserted windows still to wait for, then the input windows not emitted yet. */
  ghost predicate QueueIs(rate: nat, s: Buffering, pending: seq<Window>)
    requires rate > 0
  {
    && s.queue == Inserted(rate, s.bufferedTs, s.waitTicks) + pending
    && (s.waitTicks > 0 ==> pending != [] && pending[0].start == s.bufferedTs)
  }

  /** What ties the scheduler's state to the windows fed in and the windows emitted so far. */
  ghost predicate DelayLine(rate: nat, s: Buffering, fed: seq<Window>, emitted: seq<Window>)
    requires rate > 0
  {
    && s.waitTicks <= s.totalTicks <= s.maxTicks
    && |fed| - |emitted| == s.totalTicks - s.waitTicks
    && emitted == fed[..|emitted|]
    && QueueIs(rate, s, fed[|emitted|..])
  }

  lemma TickStartAnchor(rate: nat, bufferedTs: u64)
    requires rate > 0
    ensures TickStart(rate, bufferedTs, 0) == bufferedTs
  {
  }

  lemma {:induction false} InsertWindowsQueue(rate: nat, s: Buffering, ticks: nat, pending: seq<Window>)
    requires rate > 0
    requires pending != [] && pending[0].start == s.bufferedTs
    requires QueueIs(rate, s, pending)
    ensures QueueIs(rate, InsertWindows(rate, s, ticks), pending)
    decreases ticks
  {
    if ticks == 0 {
    } else {
      var w := InsertedWindow(rate, s.bufferedTs, s.waitTicks + 1);
      var s' := s.(waitTicks := s.waitTicks + 1, queue := [w] + s.queue);
      assert s'.queue == Inserted(rate, s.bufferedTs, s'.waitTicks) + pending;
      InsertWindowsQueue(rate, s', ticks - 1, pending);
    }
  }

  /** Buffering keeps the queue's shape, and what it reports starts where the new front window starts. */
  lemma DelayKeepsQueue(rate: nat, s: Buffering, ticks: nat, unassignedEnd: u64, pending: seq<Window>)
    requires rate > 0
    requires pending != [] && QueueIs(rate, s, pending)
    ensures var d := Delay(rate, s, s.queue[0], ticks);
      && QueueIs(rate, d, pending)
      && d.waitTicks == s.waitTicks + ticks
      && var reported := DelayedWindow(rate, d, ticks, unassignedEnd);
         reported.start == d.queue[0].start && (ticks > 0 ==> reported == d.queue[0])
  {
    var anchored := if s.waitTicks == 0 then s.(bufferedTs := s.queue[0].start) else s;
    var a := anchored.(totalTicks := s.totalTicks + ticks);
    InsertWindowsQueue(rate, a, ticks, pending);
    InsertedLength(rate, s, s.queue[0], ticks);
    TickStartAnchor(rate, a.bufferedTs);
    InsertWindowsFields(rate, a, ticks);
  }

  lemma BufferedKeepsQueue(
    rate: nat, fixedBuffer: bool, s: Buffering, minTs: u64, unassignedEnd: u64, pending: seq<Window>)
    requires rate > 0
    requires s.waitTicks <= s.totalTicks <= s.maxTicks
    requires pending != [] && QueueIs(rate, s, pending)
    ensures var (d, reported) := Buffered(rate, fixedBuffer, s, minTs, unassignedEnd);
      && QueueIs(rate, d, pending)
      && reported.start == d.queue[0].start
      && d.maxTicks == s.maxTicks
      && s.totalTicks <= d.totalTicks <= d.maxTicks
      && d.totalTicks - d.waitTicks == s.totalTicks - s.waitTicks
  {
    if Rewrites(fixedBuffer, s, s.queue[0], minTs) {
      var ticks := TicksAdded(rate, fixedBuffer, s, s.queue[0], minTs);
      DelayKeepsQueue(rate, s, ticks, unassignedEnd, pending);
      InsertedLength(rate, s, s.queue[0], ticks);
    }
  }

  /** Taking the front window: an inserted one while the scheduler waits, else the oldest pending input window. */
  lemma PopQueue(rate: nat, s: Buffering, pending: seq<Window>)
    requires rate > 0
    requires pending != [] && QueueIs(rate, s, pending)
    ensures if s.waitTicks > 0
      then QueueIs(rate, s.(queue := s.queue[1..], waitTicks := s.waitTicks - 1), pending)
      else s.queue[0] == pending[0] && QueueIs(rate, s.(queue := s.queue[1..]), pending[1..])
  {
    if s.waitTicks > 0 {
      assert s.queue[1..] == Inserted(rate, s.bufferedTs, s.waitTicks - 1) + pending;
    } else {
      assert s.queue == pending;
    }
  }

  lemma PopKeepsDelayLine(rate: nat, s: Buffering, reported: Window, fed: seq<Window>, emitted: seq<Window>)
    requires rate > 0
    requires s.waitTicks <= s.totalTicks <= s.maxTicks
    requires |fed| - |emitted| == s.totalTicks - s.waitTicks + 1
    requires emitted == fed[..|emitted|]
    requires QueueIs(rate, s, fed[|emitted|..])
    ensures var o := Pop(s, reported);
      DelayLine(rate, o.state, fed, if o.emits then emitted + [o.popped] else emitted)
  {
    PopQueue(rate, s, fed[|emitted|..]);
    if s.waitTicks == 0 {
      assert fed[|emitted|..][1..] == fed[|emitted| + 1..];
    }
  }

  /** One tick keeps the delay line, and the reported start is always the start of the window taken off the queue. */
  lemma StepKeepsDelayLine(rate: nat, fixedBuffer: bool, s: Buffering, tick: Tick, fed: seq<Window>,
                           emitted: seq<Window>)
    requires rate > 0
    requires DelayLine(rate, s, fed, emitted)
    ensures var o := Step(rate, fixedBuffer, s, tick);
      && DelayLine(rate, o.state, fed + [tick.window], if o.emits then emitted + [o.popped] else emitted)
      && o.reported.start == o.popped.start
      && o.state.maxTicks == s.maxTicks
      && s.totalTicks <= o.state.totalTicks
  {
    var q := s.(queue := s.queue + [tick.window]);
    var fed' := fed + [tick.window];
    var pending := fed'[|emitted|..];
    assert pending == fed[|emitted|..] + [tick.window];
    assert q.queue == Inserted(rate, s.bufferedTs, s.waitTicks) + pending;
    BufferedKeepsQueue(rate, fixedBuffer, q, tick.minTs, tick.unassignedEnd, pending);
    var (d, reported) := Buffered(rate, fixedBuffer, q, tick.minTs, tick.unassignedEnd);
    PopKeepsDelayLine(rate, d, reported, fed', emitted);
  }

  lemma CeilTicks(frames: nat)
    ensures var ticks := (frames + AUDIO_OUTPUT_FRAMES - 1) / AUDIO_OUTPUT_FRAMES;
      frames <= ticks * AUDIO_OUTPUT_FRAMES <= frames + AUDIO_OUTPUT_FRAMES - 1
  {
  }

  /** The lag that asks for buffering but is shorter than one frame, so that no window is inserted. */
  predicate LagBelowOneFrame(rate: nat, fixedBuffer: bool, s: Buffering, front: Window, minTs: u64) {
    !fixedBuffer && !s.Maxed() && minTs < front.start && NsToFrames(rate, front.start - minTs) == 0
  }

  /** The mixer gets the window taken off the queue, except when the lag is below one frame: then the window's end is
      whatever the unassigned variable held, while its start is still right. */
  lemma ReportedWindow(rate: nat, fixedBuffer: bool, s: Buffering, minTs: u64, unassignedEnd: u64, pending: seq<Window>)
    requires rate > 0
    requires s.waitTicks <= s.totalTicks <= s.maxTicks
    requires pending != [] && QueueIs(rate, s, pending)
    ensures var (d, reported) := Buffered(rate, fixedBuffer, s, minTs, unassignedEnd);
      reported == if LagBelowOneFrame(rate, fixedBuffer, s, s.queue[0], minTs)
        then Window(d.queue[0].start, unassignedEnd) else d.queue[0]
  {
    if Rewrites(fixedBuffer, s, s.queue[0], minTs) {
      var ticks := TicksAdded(rate, fixedBuffer, s, s.queue[0], minTs);
      DelayKeepsQueue(rate, s, ticks, unassignedEnd, pending);
      if !fixedBuffer {
        CeilTicks(NsToFrames(rate, s.queue[0].start - minTs));
      }
    }
  }

  /** A source that is one nanosecond late: the mixer is told a window that ends wherever the variable happened to. */
  lemma OneNanosecondLate(s: Buffering, unassignedEnd: u64)
    requires s == Buffering([Window(1_000_000, 22_333_333)], 0, 0, 0, 45)
    ensures Buffered(48000, false, s, 999_999, unassignedEnd).1 == Window(1_000_000, unassignedEnd)
    ensures Buffered(48000, false, s, 999_999, unassignedEnd).0.queue == s.queue
  {
    assert NsToFrames(48000, 1) == 0;
    assert Inserted(48000, 0, 0) + s.queue == s.queue;
    ReportedWindow(48000, false, s, 999_999, unassignedEnd, s.queue);
  }

  // ---------- Whole runs ----------

  /** A run of ticks: the state reached, the windows emitted and the output timestamps reported with them. */
  datatype Run = Run(state: Buffering, emitted: seq<Window>, timestamps: seq<u64>)

  function Idle(maxTicks: nat): Buffering { Buffering([], 0, 0, 0, maxTicks) }

  ghost function Advance(rate: nat, fixedBuffer: bool, run: Run, tick: Tick): (r: Run)
    requires rate > 0
    requires run.state.totalTicks <= run.state.maxTicks
    ensures r.state.totalTicks <= r.state.maxTicks
  {
    TotalBounded(rate, fixedBuffer, run.state, tick);
    var o := Step(rate, fixedBuffer, run.state, tick);
    if o.emits then Run(o.state, run.emitted + [o.popped], run.timestamps + [o.reported.start])
    else run.(state := o.state)
  }

  ghost function Execute(rate: nat, fixedBuffer: bool, maxTicks: nat, ticks: seq<Tick>): (r: Run)
    requires rate > 0
    ensures r.state.totalTicks <= r.state.maxTicks
    decreases |ticks|
  {
    if ticks == [] then Run(Idle(maxTicks), [], [])
    else Advance(rate, fixedBuffer, Execute(rate, fixedBuffer, maxTicks, ticks[..|ticks| - 1]), ticks[|ticks| - 1])
  }

  lemma TotalBounded(rate: nat, fixedBuffer: bool, s: Buffering, tick: Tick)
    requires rate > 0
    requires s.totalTicks <= s.maxTicks
    ensures Step(rate, fixedBuffer, s, tick).state.totalTicks <= s.maxTicks
    ensures Step(rate, fixedBuffer, s, tick).state.maxTicks == s.maxTicks
  {
    var q := s.(queue := s.queue + [tick.window]);
    InsertedLength(rate, q, q.queue[0], TicksAdded(rate, fixedBuffer, q, q.queue[0], tick.minTs));
  }

  ghost function Windows(ticks: seq<Tick>): (r: seq<Window>)
    ensures |r| == |ticks|
  {
    seq(|ticks|, i requires 0 <= i < |ticks| => ticks[i].window)
  }

  ghost function Starts(windows: seq<Window>): (r: seq<u64>)
    ensures |r| == |windows|
  {
    seq(|windows|, i requires 0 <= i < |windows| => windows[i].start)
  }

  lemma AdvanceKeepsDelayLine(rate: nat, fixedBuffer: bool, run: Run, tick: Tick, fed: seq<Window>)
    requires rate > 0
    requires DelayLine(rate, run.state, fed, run.emitted)
    requires run.timestamps == Starts(run.emitted)
    ensures var r := Advance(rate, fixedBuffer, run, tick);
      && DelayLine(rate, r.state, fed + [tick.window], r.emitted)
      && r.timestamps == Starts(r.emitted)
      && r.state.maxTicks == run.state.maxTicks
  {
    StepKeepsDelayLine(rate, fixedBuffer, run.state, tick, fed, run.emitted);
  }

  lemma {:induction false} ExecuteKeepsDelayLine(rate: nat, fixedBuffer: bool, maxTicks: nat, ticks: seq<Tick>)
    requires rate > 0
    ensures var r := Execute(rate, fixedBuffer, maxTicks, ticks);
      && DelayLine(rate, r.state, Windows(ticks), r.emitted)
      && r.timestamps == Starts(r.emitted)
      && r.state.maxTicks == maxTicks
    decreases |ticks|
  {
    if ticks == [] {
      assert [] == Inserted(rate, 0, 0) + Windows(ticks)[0..];
    } else {
      var before, last := ticks[..|ticks| - 1], ticks[|ticks| - 1];
      ExecuteKeepsDelayLine(rate, fixedBuffer, maxTicks, before);
      AdvanceKeepsDelayLine(rate, fixedBuffer, Execute(rate, fixedBuffer, maxTicks, before), last, Windows(before));
      assert Windows(ticks) == Windows(before) + [last.window];
    }
  }

  /**
   The delay line over whole runs: whatever buffering is added on the way, the ticks that produce output emit exactly
   the windows fed in, in order, each under its own start time; after `n` ticks precisely `totalTicks - waitTicks` of
   them are still inside, and the queue holds `totalTicks` windows.
   */
  lemma EmitsInputInOrder(rate: nat, fixedBuffer: bool, maxTicks: nat, ticks: seq<Tick>)
    requires rate > 0
    ensures var r := Execute(rate, fixedBuffer, maxTicks, ticks);
      && 0 <= r.state.waitTicks <= r.state.totalTicks <= maxTicks
      && |r.state.queue| == r.state.totalTicks
      && var n := |ticks| - (r.state.totalTicks - r.state.waitTicks);
         0 <= n <= |ticks| && r.emitted == Windows(ticks)[..n] && r.timestamps == Starts(Windows(ticks)[..n])
  {
    ExecuteKeepsDelayLine(rate, fixedBuffer, maxTicks, ticks);
  }

  /** The inserted windows are laid out tick by tick before the first pending window, so a contiguous input keeps the
      queue contiguous. */
  lemma QueueStaysContiguous(rate: nat, fixedBuffer: bool, maxTicks: nat, ticks: seq<Tick>)
    requires rate > 0
    requires Contiguous(Windows(ticks))
    ensures var s := Execute(rate, fixedBuffer, maxTicks, ticks).state;
      && Contiguous(s.queue)
      && s.waitTicks <= |s.queue|
      && forall i :: 0 <= i < s.waitTicks ==>
           s.queue[i].start == TickStart(rate, s.bufferedTs, s.waitTicks - i)
  {
    var r := Execute(rate, fixedBuffer, maxTicks, ticks);
    ExecuteKeepsDelayLine(rate, fixedBuffer, maxTicks, ticks);
    InsertedContiguous(rate, r.state.bufferedTs, r.state.waitTicks, Windows(ticks)[|r.emitted|..]);
  }

  lemma {:induction false} InsertedContiguous(rate: nat, bufferedTs: u64, k: nat, pending: seq<Window>)
    requires rate > 0
    requires Contiguous(pending)
    requires k > 0 ==> pending != [] && pending[0].start == bufferedTs
    ensures Contiguous(Inserted(rate, bufferedTs, k) + pending)
    ensures forall i :: 0 <= i < k ==>
      Inserted(rate, bufferedTs, k)[i] == InsertedWindow(rate, bufferedTs, k - i)
  {
    if k == 0 {
    } else {
      InsertedContiguous(rate, bufferedTs, k - 1, pending);
      var rest := Inserted(rate, bufferedTs, k - 1) + pending;
      assert Inserted(rate, bufferedTs, k) + pending == [InsertedWindow(rate, bufferedTs, k)] + rest;
      TickStartAnchor(rate, bufferedTs);
      assert rest[0].start == TickStart(rate, bufferedTs, k - 1);
    }
  }

  // ---------- How far the delay reaches ----------

  lemma StepFixed(rate: nat, s: Buffering, tick: Tick)
    requires rate > 0
    requires s.totalTicks <= s.maxTicks
    ensures var o := Step(rate, true, s, tick);
      var wait := s.waitTicks + s.maxTicks - s.totalTicks;
      o.state.totalTicks == s.maxTicks == o.state.maxTicks && o.state.waitTicks == if wait > 0 then wait - 1 else 0
  {
    var q := s.(queue := s.queue + [tick.window]);
    InsertedLength(rate, q, q.queue[0], s.maxTicks - s.totalTicks);
  }

  /** Fixed buffering delays the output by exactly the maximum number of ticks, from the first tick on. */
  lemma {:induction false} FixedBufferingDelay(rate: nat, maxTicks: nat, ticks: seq<Tick>)
    requires rate > 0
    ensures var r := Execute(rate, true, maxTicks, ticks);
      && r.emitted == Windows(ticks)[..if |ticks| > maxTicks then |ticks| - maxTicks else 0]
      && (ticks != [] ==> r.state.totalTicks == maxTicks)
      && (ticks != [] ==> r.state.waitTicks == if |ticks| > maxTicks then 0 else maxTicks - |ticks|)
    decreases |ticks|
  {
    EmitsInputInOrder(rate, true, maxTicks, ticks);
    ExecuteKeepsDelayLine(rate, true, maxTicks, ticks);
    if ticks == [] {
    } else {
      var before := ticks[..|ticks| - 1];
      FixedBufferingDelay(rate, maxTicks, before);
      ExecuteKeepsDelayLine(rate, true, maxTicks, before);
      StepFixed(rate, Execute(rate, true, maxTicks, before).state, ticks[|ticks| - 1]);
    }
  }

  /**
   How much buffering a tick adds. A source that is not late gets none; a late one gets the least number of ticks that
   covers the frames it lags behind, or, where those exceed the room that is left, all of that room; fixed buffering
   takes all of it at once. The windows added are waited for, and the window in hand starts at the front of them,
   counted from the oldest input window in the queue.
   */
  lemma BufferingAdds(
    rate: nat, fixedBuffer: bool, s: Buffering, minTs: u64, unassignedEnd: u64, pending: seq<Window>)
    requires rate > 0
    requires s.waitTicks <= s.totalTicks <= s.maxTicks
    requires pending != [] && QueueIs(rate, s, pending)
    ensures var (d, inHand) := Buffered(rate, fixedBuffer, s, minTs, unassignedEnd);
      var front, room := s.queue[0].start, s.maxTicks - s.totalTicks;
      var added := d.waitTicks - s.waitTicks;
      && d.totalTicks == s.totalTicks + added
      && |d.queue| == |s.queue| + added
      && inHand.start == TickStart(rate, pending[0].start, d.waitTicks)
      && (fixedBuffer ==> added == room)
      && (!fixedBuffer && front <= minTs ==> (d, inHand) == (s, s.queue[0]))
      && (!fixedBuffer && minTs < front ==>
            var frames := NsToFrames(rate, front - minTs);
            if frames > room * AUDIO_OUTPUT_FRAMES then d.Maxed() && added == room
            else frames <= added * AUDIO_OUTPUT_FRAMES < frames + AUDIO_OUTPUT_FRAMES)
  {
    TickStartAnchor(rate, pending[0].start);
    if Rewrites(fixedBuffer, s, s.queue[0], minTs) {
      var ticks := TicksAdded(rate, fixedBuffer, s, s.queue[0], minTs);
      InsertedLength(rate, s, s.queue[0], ticks);
      DelayAnchor(rate, s, ticks, pending);
      if minTs < s.queue[0].start {
        CeilTicks(NsToFrames(rate, s.queue[0].start - minTs));
      }
    } else if minTs < s.queue[0].start {
      CeilTicks(NsToFrames(rate, s.queue[0].start - minTs));
    }
  }

  /** What is waited for lies before the oldest input window. */
  lemma DelayAnchor(rate: nat, s: Buffering, ticks: nat, pending: seq<Window>)
    requires rate > 0
    requires pending != [] && QueueIs(rate, s, pending)
    ensures Delay(rate, s, s.queue[0], ticks).bufferedTs == pending[0].start
  {
    var anchored := if s.waitTicks == 0 then s.(bufferedTs := s.queue[0].start) else s;
    InsertWindowsFields(rate, anchored.(totalTicks := s.totalTicks + ticks), ticks);
  }

  /** A source one second late, at most 45 ticks of buffering: 47 are needed, 45 are added, and that is the maximum. */
  lemma MaximumReached(s: Buffering, unassignedEnd: u64)
    requires s == Buffering([Window(10_000_000_000, 10_021_333_333)], 0, 0, 0, 45)
    ensures var d := Buffered(48000, false, s, 9_000_000_000, unassignedEnd).0;
      d.Maxed() && d.waitTicks == 45 && |d.queue| == 46
  {
    assert NsToFrames(48000, 1_000_000_000) == 48000;
    assert Inserted(48000, 0, 0) + s.queue == s.queue;
    BufferingAdds(48000, false, s, 9_000_000_000, unassignedEnd, s.queue);
  }

  /** How far the front of the queue moves back when `ticks` windows are put before the `waiting` ones. */
  function MovesBack(rate: nat, waiting: nat, ticks: nat): int
    requires rate > 0
  {
    FramesToNs(rate, (waiting + ticks) * AUDIO_OUTPUT_FRAMES) - FramesToNs(rate, waiting * AUDIO_OUTPUT_FRAMES)
  }

  lemma MovesBackBounds(rate: nat, waiting: nat, ticks: nat)
    requires rate > 0
    ensures var t := FramesToNs(rate, ticks * AUDIO_OUTPUT_FRAMES);
      t <= MovesBack(rate, waiting, ticks) <= t + 1
  {
    MulDistributes(waiting, ticks, AUDIO_OUTPUT_FRAMES);
    FramesToNsAdds(rate, waiting * AUDIO_OUTPUT_FRAMES, ticks * AUDIO_OUTPUT_FRAMES);
  }

  /** The start of the last whole frame in `offset` lies at most one sample period before it, plus rounding. */
  lemma LastFrameStart(rate: nat, offset: nat)
    requires rate > 0
    ensures var f := FramesToNs(rate, NsToFrames(rate, offset));
      f <= offset && (offset - f - 1) * rate < NS_PER_SEC
  {
    var frames := NsToFrames(rate, offset);
    var f := FramesToNs(rate, frames);
    NsToFramesBounds(rate, offset);
    DivBounds(frames * NS_PER_SEC, rate);
    MulDistributes(offset, 1, rate);
    MulCancel(f, offset, rate);
    MulDistributes(frames, 1, NS_PER_SEC);
    MulDistributes(offset, -(f + 1), rate);
    assert -(f + 1) * rate == -((f + 1) * rate);
  }

  /** The ticks computed from an offset move the front back by the offset, to within one sample period one way and one
      tick the other. */
  lemma DelayCoversOffset(rate: nat, waiting: nat, start: u64, minTs: u64)
    requires rate > 0
    requires minTs <= start
    ensures var back := MovesBack(rate, waiting, TicksNeeded(rate, start, minTs));
      && (start - minTs - back - 1) * rate < NS_PER_SEC
      && back <= start - minTs + FramesToNs(rate, AUDIO_OUTPUT_FRAMES - 1) + 2
  {
    var offset := start - minTs;
    var frames := NsToFrames(rate, offset);
    var ticks := TicksNeeded(rate, start, minTs);
    CeilTicks(frames);
    MovesBackBounds(rate, waiting, ticks);
    LastFrameStart(rate, offset);
    FramesToNsMonotone(rate, frames, ticks * AUDIO_OUTPUT_FRAMES);
    FramesToNsMonotone(rate, ticks * AUDIO_OUTPUT_FRAMES, frames + (AUDIO_OUTPUT_FRAMES - 1));
    FramesToNsAdds(rate, frames, AUDIO_OUTPUT_FRAMES - 1);
    MulMonotone(offset - MovesBack(rate, waiting, ticks) - 1, offset - FramesToNs(rate, frames) - 1, rate);
  }

  /**
   Buffering reaches the late source: unless the maximum caps it, the window in hand afterwards starts less than one
   sample period plus one nanosecond after the late timestamp, and goes no more than one tick further back than needed;
   for every sample rate, offset and number of windows already waiting.
   */
  lemma BufferingReachesLateSource(
    rate: nat, s: Buffering, minTs: u64, unassignedEnd: u64, pending: seq<Window>)
    requires rate > 0
    requires s.waitTicks <= s.totalTicks < s.maxTicks
    requires pending != [] && QueueIs(rate, s, pending)
    requires minTs < s.queue[0].start
    requires TicksNeeded(rate, s.queue[0].start, minTs) <= s.maxTicks - s.totalTicks
    requires var anchor := if s.waitTicks == 0 then s.queue[0].start else s.bufferedTs;
      FramesToNs(rate, (s.waitTicks + TicksNeeded(rate, s.queue[0].start, minTs)) * AUDIO_OUTPUT_FRAMES) <= anchor
    ensures var start := Buffered(rate, false, s, minTs, unassignedEnd).1.start;
      && (start - minTs - 1) * rate < NS_PER_SEC
      && start >= minTs - FramesToNs(rate, AUDIO_OUTPUT_FRAMES - 1) - 2
      && start <= s.queue[0].start
  {
    var front := s.queue[0].start;
    var ticks := TicksNeeded(rate, front, minTs);
    var anchor := if s.waitTicks == 0 then front else s.bufferedTs;
    DelayCoversOffset(rate, s.waitTicks, front, minTs);
    MovesBackBounds(rate, s.waitTicks, ticks);
    InsertWindowsFields(rate, s.(bufferedTs := anchor, totalTicks := s.totalTicks + ticks), ticks);
    FrontStart(rate, s, anchor, ticks, pending);
  }

  lemma FrontStart(rate: nat, s: Buffering, anchor: u64, ticks: nat, pending: seq<Window>)
    requires rate > 0
    requires pending != [] && QueueIs(rate, s, pending)
    requires anchor == if s.waitTicks == 0 then s.queue[0].start else s.bufferedTs
    requires FramesToNs(rate, (s.waitTicks + ticks) * AUDIO_OUTPUT_FRAMES) <= anchor
    ensures TickStart(rate, anchor, s.waitTicks + ticks) == s.queue[0].start - MovesBack(rate, s.waitTicks, ticks)
  {
    MovesBackBounds(rate, s.waitTicks, ticks);
    if s.waitTicks == 0 {
      TickStartAnchor(rate, anchor);
    }
  }

  // ---------- The object the audio thread updates ----------

  const INT_MAX: nat := 0x7FFF_FFFF

  class AudioCore {
    const sampleRate: nat
    const fixedBuffer: bool
    const maxBufferingTicks: nat
    var bufferedTs: u64
    var bufferedTimestamps: seq<Window>
    var bufferingWaitTicks: nat
    var totalBufferingTicks: nat

    /** The input windows of all ticks so far, and those that came out again. */
    ghost var fed: seq<Window>
    ghost var emitted: seq<Window>

    ghost function View(): Buffering
      reads this
    {
      Buffering(bufferedTimestamps, bufferedTs, bufferingWaitTicks, totalBufferingTicks, maxBufferingTicks)
    }

    ghost predicate Valid()
      reads this
    {
      sampleRate > 0 && DelayLine(sampleRate, View(), fed, emitted)
    }

    constructor (sampleRate: nat, maxBufferingTicks: nat, fixedBuffer: bool)
      requires sampleRate > 0
      ensures Valid()
      ensures View() == Idle(maxBufferingTicks) && fed == [] && emitted == []
      ensures this.sampleRate == sampleRate && this.fixedBuffer == fixedBuffer
    {
      this.sampleRate := sampleRate;
      this.fixedBuffer := fixedBuffer;
      this.maxBufferingTicks := maxBufferingTicks;
      bufferedTs, bufferedTimestamps, bufferingWaitTicks, totalBufferingTicks := 0, [], 0, 0;
      fed, emitted := [], [];
    }

    /** The loop shared by both ways of adding buffering: one window in front of the queue per tick. */
    method PushFrontWindows(ticks: nat, unassignedEnd: u64) returns (ts: Window)
      requires sampleRate > 0
      modifies this`bufferingWaitTicks, this`bufferedTimestamps
      ensures View() == InsertWindows(sampleRate, old(View()), ticks)
      ensures bufferingWaitTicks == old(bufferingWaitTicks) + ticks
      ensures ts == DelayedWindow(sampleRate, View(), ticks, unassignedEnd)
    {
      ghost var was := View();
      ts := Window(TickStart(sampleRate, bufferedTs, bufferingWaitTicks), unassignedEnd);
      var left := ticks;
      while left > 0
        invariant 0 <= left <= ticks
        invariant InsertWindows(sampleRate, was, ticks) == InsertWindows(sampleRate, View(), left)
        invariant bufferedTs == was.bufferedTs && bufferingWaitTicks == was.waitTicks + (ticks - left)
        invariant ts.start == TickStart(sampleRate, bufferedTs, bufferingWaitTicks)
        invariant ts.end ==
          if left == ticks then unassignedEnd else TickStart(sampleRate, bufferedTs, bufferingWaitTicks - 1)
      {
        bufferingWaitTicks := bufferingWaitTicks + 1;
        ts := Window(TickStart(sampleRate, bufferedTs, bufferingWaitTicks), ts.start);
        bufferedTimestamps := [ts] + bufferedTimestamps;
        left := left - 1;
      }
    }

    method SetFixedAudioBuffering(ts: Window, unassignedEnd: u64) returns (r: Window)
      requires sampleRate > 0 && fixedBuffer
      requires totalBufferingTicks <= maxBufferingTicks
      requires bufferedTimestamps != [] && ts == bufferedTimestamps[0]
      modifies this
      ensures (View(), r) == Buffered(sampleRate, true, old(View()), ts.start, unassignedEnd)
      ensures fed == old(fed) && emitted == old(emitted)
    {
      if totalBufferingTicks == maxBufferingTicks {
        return ts;
      }
      if bufferingWaitTicks == 0 {
        bufferedTs := ts.start;
      }
      var ticks := maxBufferingTicks - totalBufferingTicks;
      totalBufferingTicks := totalBufferingTicks + ticks;
      r := PushFrontWindows(ticks, unassignedEnd);
    }

    method AddAudioBuffering(ts: Window, minTs: u64, unassignedEnd: u64) returns (r: Window)
      requires sampleRate > 0 && !fixedBuffer
      requires totalBufferingTicks <= maxBufferingTicks
      requires bufferedTimestamps != [] && ts == bufferedTimestamps[0]
      requires minTs < ts.start
      requires TicksNeeded(sampleRate, ts.start, minTs) + maxBufferingTicks <= INT_MAX
      modifies this
      ensures (View(), r) == Buffered(sampleRate, false, old(View()), minTs, unassignedEnd)
      ensures fed == old(fed) && emitted == old(emitted)
    {
      if totalBufferingTicks == maxBufferingTicks {
        return ts;
      }
      if bufferingWaitTicks == 0 {
        bufferedTs := ts.start;
      }
      var offset := ts.start - minTs;
      var frames := NsToFrames(sampleRate, offset);
      var ticks := (frames + AUDIO_OUTPUT_FRAMES - 1) / AUDIO_OUTPUT_FRAMES;
      totalBufferingTicks := totalBufferingTicks + ticks;
      if totalBufferingTicks >= maxBufferingTicks {
        ticks := ticks - (totalBufferingTicks - maxBufferingTicks);
        totalBufferingTicks := maxBufferingTicks;
      }
      r := PushFrontWindows(ticks, unassignedEnd);
    }

    predicate OffsetFits(front: Window, minTs: u64)
      requires sampleRate > 0
    {
      minTs < front.start ==> TicksNeeded(sampleRate, front.start, minTs) + maxBufferingTicks <= INT_MAX
    }

    /** The part of the tick that may add buffering. */
    method DecideBuffering(ts: Window, minTs: u64, unassignedEnd: u64) returns (r: Window)
      requires sampleRate > 0
      requires totalBufferingTicks <= maxBufferingTicks
      requires bufferedTimestamps != [] && ts == bufferedTimestamps[0]
      requires OffsetFits(ts, minTs)
      modifies this
      ensures (View(), r) == Buffered(sampleRate, fixedBuffer, old(View()), minTs, unassignedEnd)
      ensures fed == old(fed) && emitted == old(emitted)
    {
      r := ts;
      if fixedBuffer {
        if totalBufferingTicks != maxBufferingTicks {
          r := SetFixedAudioBuffering(ts, unassignedEnd);
        }
      } else if minTs < ts.start {
        r := AddAudioBuffering(ts, minTs, unassignedEnd);
      }
    }

    /** The end of the tick: one window off the queue, and output unless something is left to wait for. */
    method PopFront(ts: Window) returns (ok: bool, ghost popped: Window)
      requires bufferedTimestamps != []
      modifies this`bufferedTimestamps, this`bufferingWaitTicks
      ensures Pop(old(View()), ts) == Outcome(View(), ts, popped, ok)
    {
      popped := bufferedTimestamps[0];
      bufferedTimestamps := bufferedTimestamps[1..];
      if bufferingWaitTicks > 0 {
        bufferingWaitTicks := bufferingWaitTicks - 1;
        return false, popped;
      }
      ok := true;
    }

    /**
     One tick of the audio thread: queue the input window, perhaps add buffering, take one window off the queue.
     Output is produced exactly when nothing is left to wait for, and then it carries the start time of the oldest
     input window that has not come out yet.
     */
    method AudioCallback(input: Window, minTs: u64, unassignedEnd: u64) returns (ok: bool, outTs: u64)
      requires Valid()
      requires OffsetFits((bufferedTimestamps + [input])[0], minTs)
      modifies this
      ensures Valid()
      ensures fed == old(fed) + [input]
      ensures emitted == if ok then old(emitted) + [fed[|old(emitted)|]] else old(emitted)
      ensures ok ==> outTs == fed[|old(emitted)|].start
      ensures var o := Step(sampleRate, fixedBuffer, old(View()), Tick(input, minTs, unassignedEnd));
        View() == o.state && ok == o.emits && outTs == o.reported.start
    {
      ghost var popped;
      StepKeepsDelayLine(sampleRate, fixedBuffer, View(), Tick(input, minTs, unassignedEnd), fed, emitted);
      ok, outTs, popped := RunTick(input, minTs, unassignedEnd);
      fed := fed + [input];
      if ok {
        emitted := emitted + [popped];
      }
    }

    /** The same on the scheduler's own fields. */
    method RunTick(input: Window, minTs: u64, unassignedEnd: u64) returns (ok: bool, outTs: u64, ghost popped: Window)
      requires sampleRate > 0 && totalBufferingTicks <= maxBufferingTicks
      requires OffsetFits((bufferedTimestamps + [input])[0], minTs)
      modifies this
      ensures fed == old(fed) && emitted == old(emitted)
      ensures var o := Step(sampleRate, fixedBuffer, old(View()), Tick(input, minTs, unassignedEnd));
        View() == o.state && ok == o.emits && outTs == o.reported.start && popped == o.popped
    {
      ghost var o := Step(sampleRate, fixedBuffer, View(), Tick(input, minTs, unassignedEnd));
      bufferedTimestamps := bufferedTimestamps + [input];
      var ts := DecideBuffering(bufferedTimestamps[0], minTs, unassignedEnd);
      outTs := ts.start;
      ok, popped := PopFront(ts);
      assert o == Outcome(View(), ts, popped, ok);
    }
  }
}
