/**
 The scheduler's windows as a source sees them (libobs/obs-audio.c): the ticks that wait hand out windows from before
 the next one to be emitted, so they cost late sources their samples and sources that are on time nothing.
 */
module AudioTimeline {
  import opened AudioClock
  import opened AudioBuffering
  import opened AudioSource

  /** The queue a tick looks at. */
  function Queueing(s: Buffering, tick: Tick): Buffering { s.(queue := s.queue + [tick.window]) }

  /** The tick does not meet the one case in which a window's end is unassigned, and its windows do not reach back
      before time 0. */
  ghost predicate Regular(rate: nat, fixedBuffer: bool, s: Buffering, tick: Tick)
    requires rate > 0 && s.totalTicks <= s.maxTicks
  {
    var q := Queueing(s, tick);
    var d := Buffered(rate, fixedBuffer, q, tick.minTs, tick.unassignedEnd).0;
    && !LagBelowOneFrame(rate, fixedBuffer, q, q.queue[0], tick.minTs)
    && (d.waitTicks > 0 ==> FramesToNs(rate, d.waitTicks * AUDIO_OUTPUT_FRAMES) < d.bufferedTs)
  }

  /** The window in hand: the next one to be emitted, or, while the scheduler waits, one that ends before it. */
  lemma WindowInHand(rate: nat, fixedBuffer: bool, s: Buffering, tick: Tick, fed: seq<Window>, emitted: seq<Window>)
    requires 0 < rate <= NS_PER_SEC && DelayLine(rate, s, fed, emitted) && Regular(rate, fixedBuffer, s, tick)
    requires AllShort(rate, fed + [tick.window])
    ensures var o, next := Step(rate, fixedBuffer, s, tick), (fed + [tick.window])[|emitted|];
      && ShortWindow(rate, o.reported)
      && (o.emits ==> o.reported == next)
      && (!o.emits ==> o.reported.end <= next.start)
  {
    var q := Queueing(s, tick);
    var pending := (fed + [tick.window])[|emitted|..];
    assert pending == fed[|emitted|..] + [tick.window];
    assert q.queue == Inserted(rate, s.bufferedTs, s.waitTicks) + pending;
    BufferedKeepsQueue(rate, fixedBuffer, q, tick.minTs, tick.unassignedEnd, pending);
    ReportedWindow(rate, fixedBuffer, q, tick.minTs, tick.unassignedEnd, pending);
    var d := Buffered(rate, fixedBuffer, q, tick.minTs, tick.unassignedEnd).0;
    QueueIsShort(rate, d, pending);
    FrontOfQueue(rate, d, pending);
  }

  lemma FrontOfQueue(rate: nat, d: Buffering, pending: seq<Window>)
    requires rate > 0 && pending != [] && QueueIs(rate, d, pending)
    requires d.waitTicks > 0 ==> FramesToNs(rate, d.waitTicks * AUDIO_OUTPUT_FRAMES) < d.bufferedTs
    ensures d.queue != []
    ensures d.waitTicks == 0 ==> d.queue[0] == pending[0]
    ensures d.waitTicks > 0 ==> d.queue[0].end <= pending[0].start
  {
    if d.waitTicks > 0 {
      FramesToNsMonotone(rate, (d.waitTicks - 1) * AUDIO_OUTPUT_FRAMES, d.waitTicks * AUDIO_OUTPUT_FRAMES);
    }
  }

  // ---------- Runs of the scheduler ----------

  ghost predicate AllRegular(rate: nat, fixedBuffer: bool, maxTicks: nat, ticks: seq<Tick>)
    requires rate > 0
  {
    forall i :: 0 <= i < |ticks| ==>
      Regular(rate, fixedBuffer, Before(rate, fixedBuffer, maxTicks, ticks, i).state, ticks[i])
  }

  /** The run up to the i-th tick. */
  ghost function Before(rate: nat, fixedBuffer: bool, maxTicks: nat, ticks: seq<Tick>, i: nat): (r: Run)
    requires rate > 0 && i <= |ticks|
    ensures r.state.totalTicks <= r.state.maxTicks
  {
    Execute(rate, fixedBuffer, maxTicks, ticks[..i])
  }

  /** What a source sees of the i-th tick. */
  ghost function SeenAt(rate: nat, fixedBuffer: bool, maxTicks: nat, ticks: seq<Tick>, arriving: seq<seq<seq<Sample>>>,
                        i: nat): SourceTick
    requires rate > 0 && i < |ticks| == |arriving|
  {
    var o := Step(rate, fixedBuffer, Before(rate, fixedBuffer, maxTicks, ticks, i).state, ticks[i]);
    SourceTick(arriving[i], o.reported, !o.emits)
  }

  ghost function Seen(rate: nat, fixedBuffer: bool, maxTicks: nat, ticks: seq<Tick>, arriving: seq<seq<seq<Sample>>>)
    : (r: seq<SourceTick>)
    requires rate > 0 && |ticks| == |arriving|
    ensures |r| == |ticks|
  {
    seq(|ticks|, i requires 0 <= i < |ticks| => SeenAt(rate, fixedBuffer, maxTicks, ticks, arriving, i))
  }

  /** Where the n-th window starts, or the last one ends. */
  ghost function StartOf(ticks: seq<Tick>, n: nat): u64
    requires ticks != []
  {
    if n < |ticks| then ticks[n].window.start else ticks[|ticks| - 1].window.end
  }

  lemma StartsFollow(ticks: seq<Tick>, n: nat)
    requires n < |ticks| && Contiguous(Windows(ticks))
    ensures StartOf(ticks, n) == ticks[n].window.start && StartOf(ticks, n + 1) == ticks[n].window.end
  {
    if n + 1 < |ticks| {
      assert Windows(ticks)[n].end == Windows(ticks)[n + 1].start;
    }
  }

  /** Where the next window to be emitted starts, when the i-th tick begins. */
  ghost function NextStart(rate: nat, fixedBuffer: bool, maxTicks: nat, ticks: seq<Tick>, i: nat): u64
    requires rate > 0 && i <= |ticks| && ticks != []
  {
    StartOf(ticks, |Before(rate, fixedBuffer, maxTicks, ticks, i).emitted|)
  }

  lemma EmittedAfter(rate: nat, fixedBuffer: bool, maxTicks: nat, ticks: seq<Tick>, i: nat)
    requires rate > 0 && i < |ticks|
    ensures var before := Before(rate, fixedBuffer, maxTicks, ticks, i);
      |Before(rate, fixedBuffer, maxTicks, ticks, i + 1).emitted|
      == |before.emitted| + if Step(rate, fixedBuffer, before.state, ticks[i]).emits then 1 else 0
  {
    assert ticks[..i + 1][..i] == ticks[..i];
  }

  lemma WindowsUpTo(rate: nat, ticks: seq<Tick>, i: nat)
    requires i < |ticks| && AllShort(rate, Windows(ticks))
    ensures Windows(ticks[..i]) + [ticks[i].window] == Windows(ticks)[..i + 1]
    ensures AllShort(rate, Windows(ticks)[..i + 1])
  {
  }

  /** The window in hand in the i-th tick. */
  lemma HandAt(rate: nat, fixedBuffer: bool, maxTicks: nat, ticks: seq<Tick>, i: nat)
    requires 0 < rate <= NS_PER_SEC && i < |ticks|
    requires AllRegular(rate, fixedBuffer, maxTicks, ticks) && AllShort(rate, Windows(ticks))
    ensures var before := Before(rate, fixedBuffer, maxTicks, ticks, i);
      var o, n := Step(rate, fixedBuffer, before.state, ticks[i]), |before.emitted|;
      && n <= i
      && ShortWindow(rate, o.reported)
      && (o.emits ==> o.reported == ticks[n].window)
      && (!o.emits ==> o.reported.end <= ticks[n].window.start)
  {
    var before, fed := Before(rate, fixedBuffer, maxTicks, ticks, i), Windows(ticks[..i]);
    ExecuteKeepsDelayLine(rate, fixedBuffer, maxTicks, ticks[..i]);
    WindowsUpTo(rate, ticks, i);
    assert Regular(rate, fixedBuffer, before.state, ticks[i]);
    WindowInHand(rate, fixedBuffer, before.state, ticks[i], fed, before.emitted);
    assert Windows(ticks)[..i + 1][|before.emitted|] == ticks[|before.emitted|].window;
  }

  /** One tick of the run: its window lies before the next one to be emitted, or is that one, and then the next but one
      starts where it ends. */
  lemma TickInRun(rate: nat, fixedBuffer: bool, maxTicks: nat, ticks: seq<Tick>, arriving: seq<seq<seq<Sample>>>,
                  i: nat)
    requires 0 < rate <= NS_PER_SEC && i < |ticks| == |arriving|
    requires AllRegular(rate, fixedBuffer, maxTicks, ticks)
    requires Contiguous(Windows(ticks)) && AllShort(rate, Windows(ticks))
    ensures var v := SeenAt(rate, fixedBuffer, maxTicks, ticks, arriving, i);
      var now := NextStart(rate, fixedBuffer, maxTicks, ticks, i);
      var later := NextStart(rate, fixedBuffer, maxTicks, ticks, i + 1);
      && ShortWindow(rate, v.ts)
      && (v.waiting ==> v.ts.end <= now && later == now)
      && (!v.waiting ==> v.ts.start == now && v.ts.end == later)
  {
    HandAt(rate, fixedBuffer, maxTicks, ticks, i);
    EmittedAfter(rate, fixedBuffer, maxTicks, ticks, i);
    StartsFollow(ticks, |Before(rate, fixedBuffer, maxTicks, ticks, i).emitted|);
  }

  // ---------- A source that is on time ----------

  /** Short windows, none of which starts behind the source's timestamp. */
  ghost predicate Timely(rate: nat, audioTs: u64, seen: seq<SourceTick>)
    decreases |seen|
  {
    seen == [] ||
    (ShortWindow(rate, seen[0].ts) && seen[0].ts.start <= audioTs && Timely(rate, NextTs(audioTs, seen[0]), seen[1..]))
  }

  /** A whole tick of samples is there whenever the source's timestamp lies in the window. */
  ghost predicate Supplied(rate: nat, s: SourceState, seen: seq<SourceTick>)
    requires s.Valid()
    decreases |seen|
  {
    seen == [] ||
    (&& Fits(s, seen[0].arriving) && 0 < seen[0].ts.start
     && (s.audioTs < seen[0].ts.end ==> Arrived(s, seen[0].arriving).Queued() >= AUDIO_OUTPUT_FRAMES)
     && Supplied(rate, Ticked(rate, s, seen[0]), seen[1..]))
  }

  lemma {:induction false} SuppliedInTime(rate: nat, s: SourceState, seen: seq<SourceTick>)
    requires s.Valid() && Timely(rate, s.audioTs, seen) && Supplied(rate, s, seen)
    ensures FullRun(rate, s, seen)
    decreases |seen|
  {
    if seen == [] {
    } else {
      TickTakes(rate, s, seen[0], 0);
      SuppliedInTime(rate, Ticked(rate, s, seen[0]), seen[1..]);
    }
  }

  /** From any tick of a run on: a timestamp at the next window to be emitted stays there, and no tick waits on it. */
  lemma {:induction false} StaysOnTime(rate: nat, fixedBuffer: bool, maxTicks: nat, ticks: seq<Tick>,
                                       arriving: seq<seq<seq<Sample>>>, i: nat)
    requires 0 < rate <= NS_PER_SEC && i <= |ticks| == |arriving| && ticks != []
    requires AllRegular(rate, fixedBuffer, maxTicks, ticks)
    requires Contiguous(Windows(ticks)) && AllShort(rate, Windows(ticks))
    ensures var now := NextStart(rate, fixedBuffer, maxTicks, ticks, i);
      var seen := Seen(rate, fixedBuffer, maxTicks, ticks, arriving)[i..];
      && Timely(rate, now, seen) && LosesNone(now, seen)
      && LastTs(now, seen) == NextStart(rate, fixedBuffer, maxTicks, ticks, |ticks|)
    decreases |ticks| - i
  {
    if i == |ticks| {
    } else {
      TickInRun(rate, fixedBuffer, maxTicks, ticks, arriving, i);
      StaysOnTime(rate, fixedBuffer, maxTicks, ticks, arriving, i + 1);
      OneMoreTick(rate, NextStart(rate, fixedBuffer, maxTicks, ticks, i),
                  NextStart(rate, fixedBuffer, maxTicks, ticks, i + 1),
                  Seen(rate, fixedBuffer, maxTicks, ticks, arriving), i,
                  SeenAt(rate, fixedBuffer, maxTicks, ticks, arriving, i));
    }
  }

  lemma OneMoreTick(rate: nat, now: u64, later: u64, seen: seq<SourceTick>, i: nat, v: SourceTick)
    requires i < |seen| && seen[i] == v && ShortWindow(rate, v.ts)
    requires if v.waiting then v.ts.end <= now == later else v.ts.start == now && v.ts.end == later
    requires Timely(rate, later, seen[i + 1..]) && LosesNone(later, seen[i + 1..])
    ensures Timely(rate, now, seen[i..]) && LosesNone(now, seen[i..])
    ensures LastTs(now, seen[i..]) == LastTs(later, seen[i + 1..])
  {
    assert seen[i..][0] == v && seen[i..][1..] == seen[i + 1..];
    assert NextTs(now, v) == later;
  }

  /**
   Whatever buffering is added over a run of ticks, a source that starts with the first window and has a whole tick of
   samples whenever a window holds its timestamp loses none of them: on every channel those mixed, followed by those
   still queued, are those it had at the start followed by those that arrived. At the end its timestamp is at the next
   window to be emitted.
   */
  lemma OnTimeSourceIsMixed(rate: nat, fixedBuffer: bool, maxTicks: nat, ticks: seq<Tick>,
                            arriving: seq<seq<seq<Sample>>>, s: SourceState, ch: nat)
    requires 0 < rate <= NS_PER_SEC && |ticks| == |arriving| && ticks != []
    requires AllRegular(rate, fixedBuffer, maxTicks, ticks)
    requires Contiguous(Windows(ticks)) && AllShort(rate, Windows(ticks))
    requires s.Valid() && ch < |s.buffers| && s.audioTs == ticks[0].window.start
    requires Supplied(rate, s, Seen(rate, fixedBuffer, maxTicks, ticks, arriving))
    ensures var seen := Seen(rate, fixedBuffer, maxTicks, ticks, arriving);
      && FullRun(rate, s, seen)
      && var r := RunTicks(rate, s, seen, ch);
         && |r.state.buffers| == |s.buffers|
         && AllMixed(r.taken) + r.state.buffers[ch] == s.buffers[ch] + r.arrived
         && r.state.audioTs == NextStart(rate, fixedBuffer, maxTicks, ticks, |ticks|)
  {
    var seen := Seen(rate, fixedBuffer, maxTicks, ticks, arriving);
    assert seen[0..] == seen;
    StaysOnTime(rate, fixedBuffer, maxTicks, ticks, arriving, 0);
    SuppliedInTime(rate, s, seen);
    RunTakesStream(rate, s, seen, ch);
    RunMixesEverySample(rate, s, seen, ch);
  }

  // ---------- A source that is late ----------

  /** At 1 MHz a source is a millisecond late with 2000 samples queued. The scheduler buffers one tick for it, hands
      out the window from before, and waits: the 1000 samples in that window are discarded, and none is mixed. */
  lemma LateSourceLoses(s: SourceState, q: Buffering, unassignedEnd: u64)
    requires q == Buffering([Window(10_000_000, 11_024_000)], 0, 0, 0, 45)
    requires s.Valid() && s.Queued() == 2000 && s.audioTs == 9_000_000
    ensures var (d, ts) := Buffered(1_000_000, false, q, s.audioTs, unassignedEnd);
      && d.waitTicks == 1 && ts == Window(8_976_000, 10_000_000) && ShortWindow(1_000_000, ts)
      && Discarded(1_000_000, s, ts).Queued() == 1000 && Discarded(1_000_000, s, ts).audioTs == 10_000_000
      && Mixed(1_000_000, s, ts, d.waitTicks > 0) == 0
  {
    assert NsToFrames(1_000_000, 1_000_000) == 1000 && FramesToNs(1_000_000, AUDIO_OUTPUT_FRAMES) == 1_024_000;
    assert TicksNeeded(1_000_000, 10_000_000, 9_000_000) == 1;
    var anchored := q.(bufferedTs := 10_000_000, totalTicks := 1);
    assert InsertWindows(1_000_000, anchored, 1) == InsertWindows(1_000_000,
      anchored.(waitTicks := 1, queue := [InsertedWindow(1_000_000, 10_000_000, 1)] + q.queue), 0);
    assert NsToFrames(1_000_000, 24_000) == 24;
  }
}
