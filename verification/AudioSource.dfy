/**
 How one source's queued audio is dropped, mixed and discarded, tick by tick (libobs/obs-audio.c).
 `SourceState` carries the specification functions; `Source` is the object whose fields the audio thread updates.
 */
module AudioSource {
  import opened AudioClock
  import opened AudioBuffering

  type Sample = real

  /** The audio fields of `struct obs_source`; buffer sizes are counted in samples per channel. */
  datatype SourceState = SourceState(
    audioTs: u64, buffers: seq<seq<Sample>>, lastSize: nat, pending: bool, pendingStop: bool, timingSet: bool)
  {
    /** All channels hold the same number of samples, so the length of the first is the length of each. */
    predicate Valid() {
      buffers != [] && forall ch :: 0 <= ch < |buffers| ==> |buffers[ch]| == |buffers[0]|
    }

    function Queued(): nat
      requires buffers != []
    {
      |buffers[0]|
    }

    /** Removes the first `n` samples of every channel. */
    function Dropped(n: nat): (r: SourceState)
      requires Valid() && n <= Queued()
      ensures r.Valid() && r.Queued() == Queued() - n
    {
      this.(buffers := seq(|buffers|, ch requires 0 <= ch < |buffers| => buffers[ch][n..]))
    }
  }

  // ---------- Lag recovery ----------

  /** The rounded-up number of frames that `ignore_audio` wants to drop. */
  function FramesBehind(rate: nat, audioTs: nat, startTs: nat): nat
    requires audioTs < startTs
  {
    NsToFrames(rate, startTs - audioTs - 1) + 1
  }

  /** Dropping the rounded-up frames reaches `startTs - 1` and overshoots by less than a sample period; dropping fewer
      never gets past `startTs - 1`. */
  lemma DropReaches(rate: nat, audioTs: nat, startTs: nat, drop: nat)
    requires rate > 0
    requires audioTs < startTs
    requires drop <= FramesBehind(rate, audioTs, startTs)
    ensures var reached := audioTs + FramesToNs(rate, drop);
      && (reached - startTs + 1) * rate <= NS_PER_SEC
      && (drop == FramesBehind(rate, audioTs, startTs) ==> reached >= startTs - 1)
      && (drop < FramesBehind(rate, audioTs, startTs) ==> reached <= startTs - 1)
  {
    var lag := startTs - audioTs - 1;
    var f := FramesToNs(rate, drop);
    NsToFramesBounds(rate, lag);
    DivBounds(drop * NS_PER_SEC, rate);
    MulMonotone(drop, NsToFrames(rate, lag) + 1, NS_PER_SEC);
    MulDistributes(NsToFrames(rate, lag), 1, NS_PER_SEC);
    MulDistributes(f, -lag, rate);
    assert -lag * rate == -(lag * rate);
    MulCancel(lag, f, rate);
    if drop < FramesBehind(rate, audioTs, startTs) {
      MulMonotone(drop, NsToFrames(rate, lag), NS_PER_SEC);
      MulDistributes(lag, 1, rate);
      MulCancel(f, lag, rate);
    }
  }

  /** `ignore_audio` on values. Without a timestamp every channel is to lose what the first one has queued; by the time
      it is another channel's turn that is nothing, so only the first one is emptied. */
  function Ignored(rate: nat, s: SourceState, startTs: u64): (SourceState, bool)
    requires rate > 0
    requires s.Valid() && s.audioTs < startTs
  {
    var n := s.Queued();
    if s.audioTs == 0 && n > 0 then
      (s.(buffers := s.buffers[0 := []], lastSize := 0), false)
    else if n == 0 then
      (s.(pending := true, audioTs := 0, timingSet := false), false)
    else
      var behind := FramesBehind(rate, s.audioTs, startTs);
      var drop := if behind > n then n else behind;
      var reached := s.audioTs + FramesToNs(rate, drop);
      var dropped := s.Dropped(drop).(lastSize := 0);
      if reached >= startTs - 1 then
        (dropped.(audioTs := Wrap64(if reached == startTs - 1 then startTs else reached)), true)
      else
        (dropped.(pending := true, audioTs := 0, timingSet := false), false)
  }

  /**
   Lag recovery is exact. With a running timestamp and enough samples it always succeeds; it succeeds with fewer only
   when they end exactly one nanosecond short. Success leaves the timestamp at or after `startTs` by less than one
   sample period, failure leaves it at zero. The channels stay equally long if and only if there was a timestamp, or
   nothing queued, or only one channel.
   */
  lemma LagRecovery(rate: nat, s: SourceState, startTs: u64)
    requires rate > 0
    requires s.Valid() && s.audioTs < startTs
    requires startTs + NS_PER_SEC < TWO_64
    ensures var (r, ok) := Ignored(rate, s, startTs);
      && |r.buffers| == |s.buffers|
      && (r.Valid() <==> s.audioTs != 0 || s.Queued() == 0 || |s.buffers| == 1)
      && ok == (s.audioTs != 0 && s.Queued() > 0
                && (s.Queued() >= FramesBehind(rate, s.audioTs, startTs)
                    || s.audioTs + FramesToNs(rate, s.Queued()) == startTs - 1))
      && (ok ==> startTs <= r.audioTs && (r.audioTs - startTs) * rate < NS_PER_SEC)
      && (ok ==> s.Queued() - r.Queued() <= FramesBehind(rate, s.audioTs, startTs))
      && (!ok ==> r.audioTs == 0)
  {
    var n := s.Queued();
    if s.audioTs == 0 && n > 0 && |s.buffers| > 1 {
      assert |Ignored(rate, s, startTs).0.buffers[1]| == n;
    }
    if s.audioTs != 0 && n > 0 {
      var behind := FramesBehind(rate, s.audioTs, startTs);
      var drop := if behind > n then n else behind;
      var reached := s.audioTs + FramesToNs(rate, drop);
      DropReaches(rate, s.audioTs, startTs, drop);
      MulDistributes(reached - startTs, 1, rate);
      MulMonotone(1, rate, reached - startTs + 1);
    }
  }

  /** How many samples lag recovery takes off every channel. */
  function IgnoredSamples(rate: nat, s: SourceState, startTs: u64): int
    requires rate > 0 && s.Valid() && 0 < s.audioTs < startTs && startTs + NS_PER_SEC < TWO_64
  {
    LagRecovery(rate, s, startTs);
    s.Queued() - Ignored(rate, s, startTs).0.Queued()
  }

  /**
   What lag recovery does to a source with a timestamp. The same number of samples leaves the front of every channel,
   and the timestamp moves by just their duration, or to `startTs` where that ends one nanosecond short. If it fails
   nothing is left, and the source starts over.
   */
  lemma SamplesIgnored(rate: nat, s: SourceState, startTs: u64)
    requires rate > 0
    requires s.Valid() && 0 < s.audioTs < startTs
    requires startTs + NS_PER_SEC < TWO_64
    ensures var (r, ok) := Ignored(rate, s, startTs);
      var drop := IgnoredSamples(rate, s, startTs);
      && 0 <= drop <= s.Queued() && |r.buffers| == |s.buffers|
      && (forall ch :: 0 <= ch < |s.buffers| ==> r.buffers[ch] == s.buffers[ch][drop..])
      && (drop > 0 ==> r.lastSize == 0)
      && r.pendingStop == s.pendingStop
      && (ok ==>
            var reached := s.audioTs + FramesToNs(rate, drop);
            && startTs <= r.audioTs == (if reached == startTs - 1 then startTs else reached)
            && r.pending == s.pending && r.timingSet == s.timingSet)
      && (!ok ==> r.Queued() == 0 && r.audioTs == 0 && r.pending && !r.timingSet)
  {
    LagRecovery(rate, s, startTs);
    if s.Queued() > 0 {
      var behind := FramesBehind(rate, s.audioTs, startTs);
      var drop := if behind > s.Queued() then s.Queued() else behind;
      assert IgnoredSamples(rate, s, startTs) == drop;
      ReachedFits(rate, s.audioTs, startTs, drop);
    }
  }

  lemma ReachedFits(rate: nat, audioTs: u64, startTs: u64, drop: nat)
    requires rate > 0 && audioTs < startTs && startTs + NS_PER_SEC < TWO_64
    requires drop <= FramesBehind(rate, audioTs, startTs)
    ensures audioTs + FramesToNs(rate, drop) < TWO_64
  {
    DropReaches(rate, audioTs, startTs, drop);
    var reached := audioTs + FramesToNs(rate, drop);
    MulMonotone(1, rate, reached - startTs + 1);
  }

  /** It succeeds if and only if all samples together would do, and then no smaller number gets past `startTs - 1`. */
  lemma IgnoresNoMore(rate: nat, s: SourceState, startTs: u64)
    requires rate > 0
    requires s.Valid() && 0 < s.audioTs < startTs
    requires startTs + NS_PER_SEC < TWO_64
    ensures Ignored(rate, s, startTs).1 <==>
      s.Queued() > 0 && s.audioTs + FramesToNs(rate, s.Queued()) >= startTs - 1
    ensures Ignored(rate, s, startTs).1 ==>
      forall fewer: nat :: fewer < IgnoredSamples(rate, s, startTs) ==>
        s.audioTs + FramesToNs(rate, fewer) <= startTs - 1
  {
    var n, behind := s.Queued(), FramesBehind(rate, s.audioTs, startTs);
    LagRecovery(rate, s, startTs);
    if n > 0 {
      var drop := if behind > n then n else behind;
      DropReaches(rate, s.audioTs, startTs, drop);
      FramesToNsMonotone(rate, drop, n);
    }
    forall fewer: nat | fewer < behind
      ensures s.audioTs + FramesToNs(rate, fewer) <= startTs - 1
    {
      DropReaches(rate, s.audioTs, startTs, fewer);
    }
  }

  /** One sample fewer would do as well, with the nanosecond made up for, if and only if `startTs - 1` lies a whole
      number of sample periods behind the timestamp. */
  lemma OneTooMany(rate: nat, audioTs: u64, startTs: u64)
    requires 0 < rate && audioTs < startTs
    ensures var fewer := FramesBehind(rate, audioTs, startTs) - 1;
      audioTs + FramesToNs(rate, fewer) == startTs - 1 <==> (startTs - 1 - audioTs) * rate % NS_PER_SEC == 0
  {
    var lag := startTs - 1 - audioTs;
    var fewer := NsToFrames(rate, lag);
    var ns := FramesToNs(rate, fewer);
    NsToFramesBounds(rate, lag);
    DivBounds(fewer * NS_PER_SEC, rate);
    MulDistributes(lag, 1, rate);
    MulCancel(ns, lag, rate);
    if ns == lag {
      assert lag * rate == fewer * NS_PER_SEC;
    } else if lag * rate % NS_PER_SEC == 0 {
      assert fewer * NS_PER_SEC == lag * rate;
      MulMonotone(ns + 1, lag, rate);
    }
  }

  /** Ten milliseconds behind at 48 kHz with 1000 samples queued: 480 leave, and the 520 behind them are on time. A
      nanosecond behind, one sample leaves. */
  lemma TenMillisecondsIgnored(s: SourceState)
    requires s.Valid() && s.Queued() == 1000 && s.audioTs == 1_000_000_000
    ensures var (r, ok) := Ignored(48000, s, 1_010_000_000);
      ok && r.audioTs == 1_010_000_000 && r.Valid() && r.Queued() == 520 && r.buffers[0] == s.buffers[0][480..]
    ensures var (r, ok) := Ignored(48000, s, 1_000_000_001);
      ok && r.audioTs == 1_000_020_833 && r.Valid() && r.Queued() == 999
  {
    assert NsToFrames(48000, 9_999_999) == 479;
    assert FramesToNs(48000, 480) == 10_000_000;
    assert FramesToNs(48000, 1) == 20_833;
  }

  /** Two channels of two samples without a timestamp: one is emptied, one is not. */
  lemma OneChannelEmptied(s: SourceState, startTs: u64)
    requires s.buffers == [[1.0, 2.0], [3.0, 4.0]] && s.audioTs == 0 < startTs
    ensures Ignored(48000, s, startTs).0.buffers == [[], [3.0, 4.0]]
  {
  }

  /** The only caller looks at the timestamp first, so that branch is never taken and the channels stay equally long. */
  predicate Lags(maxed: bool, s: SourceState, startTs: u64) { maxed && s.audioTs != 0 && s.audioTs < startTs }

  lemma GuardKeepsChannels(rate: nat, maxed: bool, s: SourceState, startTs: u64)
    requires rate > 0 && s.Valid() && startTs + NS_PER_SEC < TWO_64
    ensures Lags(maxed, s, startTs) ==> Ignored(rate, s, startTs).0.Valid()
  {
    if Lags(maxed, s, startTs) {
      LagRecovery(rate, s, startTs);
    }
  }

  // ---------- Mixing and discarding ----------

  /** The position in the window where a source that starts at `audioTs` sets in. */
  function StartPoint(rate: nat, ts: Window, audioTs: u64): nat
    requires ts.start <= audioTs
  {
    if audioTs == ts.start then 0 else NsToFrames(rate, audioTs - ts.start)
  }

  /** The number of samples per channel that `mix_audio` adds to the mix. */
  function MixCount(rate: nat, ts: Window, audioTs: u64): int {
    if audioTs < ts.start || ts.end <= audioTs then 0
    else AUDIO_OUTPUT_FRAMES - StartPoint(rate, ts, audioTs)
  }

  /** `discard_if_stopped`: the second tick without new samples clears the source. */
  function Stopped(s: SourceState): (SourceState, bool)
    requires s.Valid()
  {
    var n := s.Queued();
    if n == 0 then (s, false)
    else if s.lastSize != n then (s.(lastSize := n), false)
    else if !s.pendingStop then (s.(pendingStop := true), false)
    else (s.Dropped(n).(pendingStop := false, audioTs := 0, lastSize := 0), true)
  }

  /** `discard_audio` for a source that is not a render source. */
  function Discarded(rate: nat, s: SourceState, ts: Window): SourceState
    requires s.Valid() && 0 < ts.start
  {
    if ts.end <= s.audioTs then s
    else if s.audioTs < ts.start - 1 then
      if s.pending && s.Queued() < AUDIO_OUTPUT_FRAMES then Stopped(s).0 else s
    else
      var point := if s.audioTs == ts.start - 1 then 0 else StartPoint(rate, ts, s.audioTs);
      if point == AUDIO_OUTPUT_FRAMES then s
      else
        var needed := Wrap64(AUDIO_OUTPUT_FRAMES - point);
        if s.Queued() < needed then
          var (stopped, cleared) := Stopped(s);
          if cleared then stopped else stopped.(audioTs := ts.end)
        else
          s.Dropped(needed).(lastSize := 0, pendingStop := false, audioTs := ts.end)
  }

  /** A stopped source: as long as nothing arrives its samples stay where they are for two ticks, and the third one
      clears it, at once if the first two have been before; a number of samples not seen before is never cleared. */
  lemma StopsInThree(s: SourceState)
    requires s.Valid() && s.Queued() > 0
    ensures var (first, cleared) := Stopped(s);
      && (s.lastSize != s.Queued() ==> !cleared)
      && (if cleared then first.Valid() && first.Queued() == 0 && first.audioTs == 0 && !first.pendingStop
          else first == s.(lastSize := first.lastSize, pendingStop := first.pendingStop))
    ensures s.lastSize != s.Queued() && !s.pendingStop ==>
      !Stopped(Stopped(s).0).1 && Stopped(Stopped(Stopped(s).0).0).1
    ensures Stopped(s).1 || Stopped(Stopped(s).0).1 || Stopped(Stopped(Stopped(s).0).0).1
  {
    var first := Stopped(s).0;
    if !Stopped(s).1 {
      assert first.Queued() == s.Queued();
    }
  }

  /** A window shorter than 1024 frames plus one nanosecond. */
  predicate ShortWindow(rate: nat, ts: Window) {
    0 < ts.start < ts.end && (ts.end - ts.start - 1) * rate < AUDIO_OUTPUT_FRAMES * NS_PER_SEC
  }

  /** The windows the audio thread feeds in are short. */
  lemma ThreadWindowsAreShort(rate: nat, startTime: u64, samples: nat)
    requires rate > 0
    ensures var t := startTime + FramesToNs(rate, samples);
      var t' := startTime + FramesToNs(rate, samples + AUDIO_OUTPUT_FRAMES);
      (t' - t - 1) * rate < AUDIO_OUTPUT_FRAMES * NS_PER_SEC
  {
    var a, b := FramesToNs(rate, samples), FramesToNs(rate, samples + AUDIO_OUTPUT_FRAMES);
    DivBounds(samples * NS_PER_SEC, rate);
    DivBounds((samples + AUDIO_OUTPUT_FRAMES) * NS_PER_SEC, rate);
    MulDistributes(samples, AUDIO_OUTPUT_FRAMES, NS_PER_SEC);
    MulDistributes(b, -(a + 1), rate);
    assert -(a + 1) * rate == -((a + 1) * rate);
  }

  /** So are the windows that the scheduler puts in front of the queue, unless they reach back before time 0. */
  lemma InsertedWindowIsShort(rate: nat, bufferedTs: u64, k: nat)
    requires 0 < rate <= NS_PER_SEC && k > 0 && FramesToNs(rate, k * AUDIO_OUTPUT_FRAMES) < bufferedTs
    ensures ShortWindow(rate, InsertedWindow(rate, bufferedTs, k))
  {
    var samples := (k - 1) * AUDIO_OUTPUT_FRAMES;
    var a, b := FramesToNs(rate, samples), FramesToNs(rate, samples + AUDIO_OUTPUT_FRAMES);
    assert samples + AUDIO_OUTPUT_FRAMES == k * AUDIO_OUTPUT_FRAMES;
    FramesToNsAdds(rate, samples, AUDIO_OUTPUT_FRAMES);
    TickIsLong(rate);
    ThreadWindowsAreShort(rate, 0, samples);
    var w := InsertedWindow(rate, bufferedTs, k);
    assert w.start == bufferedTs - b && w.end == bufferedTs - a;
  }

  lemma TickIsLong(rate: nat)
    requires 0 < rate <= NS_PER_SEC
    ensures FramesToNs(rate, AUDIO_OUTPUT_FRAMES) >= 1
  {
    DivBounds(AUDIO_OUTPUT_FRAMES * NS_PER_SEC, rate);
    MulCancel(1, FramesToNs(rate, AUDIO_OUTPUT_FRAMES), rate);
  }

  ghost predicate AllShort(rate: nat, windows: seq<Window>) {
    forall i :: 0 <= i < |windows| ==> ShortWindow(rate, windows[i])
  }

  lemma QueueIsShort(rate: nat, s: Buffering, pending: seq<Window>)
    requires 0 < rate <= NS_PER_SEC && QueueIs(rate, s, pending) && AllShort(rate, pending)
    requires s.waitTicks > 0 ==> FramesToNs(rate, s.waitTicks * AUDIO_OUTPUT_FRAMES) < s.bufferedTs
    ensures AllShort(rate, s.queue)
  {
    forall i | 0 <= i < s.waitTicks
      ensures ShortWindow(rate, s.queue[i])
    {
      InsertedAt(rate, s.bufferedTs, s.waitTicks, i);
      FramesToNsMonotone(rate, (s.waitTicks - i) * AUDIO_OUTPUT_FRAMES, s.waitTicks * AUDIO_OUTPUT_FRAMES);
      InsertedWindowIsShort(rate, s.bufferedTs, s.waitTicks - i);
    }
  }

  lemma {:induction false} InsertedAt(rate: nat, bufferedTs: u64, k: nat, i: nat)
    requires rate > 0 && i < k
    ensures Inserted(rate, bufferedTs, k)[i] == InsertedWindow(rate, bufferedTs, k - i)
    decreases k
  {
    if i == 0 {
    } else {
      InsertedAt(rate, bufferedTs, k - 1, i - 1);
    }
  }

  /** Over every run of ticks all windows of the scheduler's queue are short, those fed in and those inserted. */
  lemma QueueWindowsAreShort(rate: nat, fixedBuffer: bool, maxTicks: nat, ticks: seq<Tick>)
    requires 0 < rate <= NS_PER_SEC && AllShort(rate, Windows(ticks))
    requires var s := Execute(rate, fixedBuffer, maxTicks, ticks).state;
      s.waitTicks > 0 ==> FramesToNs(rate, s.waitTicks * AUDIO_OUTPUT_FRAMES) < s.bufferedTs
    ensures AllShort(rate, Execute(rate, fixedBuffer, maxTicks, ticks).state.queue)
  {
    var r := Execute(rate, fixedBuffer, maxTicks, ticks);
    ExecuteKeepsDelayLine(rate, fixedBuffer, maxTicks, ticks);
    QueueIsShort(rate, r.state, Windows(ticks)[|r.emitted|..]);
  }

  /** And so is the window that a tick hands to the mixer, unless the lag is below one frame. */
  lemma ReportedWindowIsShort(rate: nat, fixedBuffer: bool, q: Buffering, minTs: u64, unassignedEnd: u64,
                              pending: seq<Window>)
    requires 0 < rate <= NS_PER_SEC && pending != [] && QueueIs(rate, q, pending) && AllShort(rate, pending)
    requires q.waitTicks <= q.totalTicks <= q.maxTicks
    requires !LagBelowOneFrame(rate, fixedBuffer, q, q.queue[0], minTs)
    requires var d := Buffered(rate, fixedBuffer, q, minTs, unassignedEnd).0;
      d.waitTicks > 0 ==> FramesToNs(rate, d.waitTicks * AUDIO_OUTPUT_FRAMES) < d.bufferedTs
    ensures ShortWindow(rate, Buffered(rate, fixedBuffer, q, minTs, unassignedEnd).1)
  {
    BufferedKeepsQueue(rate, fixedBuffer, q, minTs, unassignedEnd, pending);
    QueueIsShort(rate, Buffered(rate, fixedBuffer, q, minTs, unassignedEnd).0, pending);
    ReportedWindow(rate, fixedBuffer, q, minTs, unassignedEnd, pending);
  }

  lemma StartPointInRange(rate: nat, ts: Window, audioTs: u64)
    requires ShortWindow(rate, ts)
    requires ts.start <= audioTs < ts.end
    ensures var point := StartPoint(rate, ts, audioTs);
      && point < AUDIO_OUTPUT_FRAMES
      && point * NS_PER_SEC <= (audioTs - ts.start) * rate < (point + 1) * NS_PER_SEC
    ensures 0 < MixCount(rate, ts, audioTs) <= AUDIO_OUTPUT_FRAMES
  {
    var ns := audioTs - ts.start;
    MulMonotone(ns, ts.end - ts.start - 1, rate);
    NsToFramesBounds(rate, ns);
    MulCancel(NsToFrames(rate, ns), AUDIO_OUTPUT_FRAMES - 1, NS_PER_SEC);
  }

  /** What mixing takes from a source: nothing while the scheduler waits, and nothing unless a whole tick of samples was
      there to render. */
  function Mixed(rate: nat, s: SourceState, ts: Window, waiting: bool): int
    requires s.Valid()
  {
    if waiting || s.Queued() < AUDIO_OUTPUT_FRAMES then 0 else MixCount(rate, ts, s.audioTs)
  }

  /** How many samples `discard_audio` is after: a source one nanosecond early counts as one at the window's start. */
  function Wanted(rate: nat, ts: Window, audioTs: u64): int {
    if ts.end <= audioTs || audioTs + 1 < ts.start then 0
    else if audioTs + 1 == ts.start then AUDIO_OUTPUT_FRAMES
    else MixCount(rate, ts, audioTs)
  }

  /** The source is cleared as stopped. */
  predicate Cleared(rate: nat, s: SourceState, ts: Window)
    requires s.Valid()
  {
    && s.audioTs < ts.end
    && (if s.audioTs + 1 < ts.start then s.pending && s.Queued() < AUDIO_OUTPUT_FRAMES
        else s.Queued() < Wanted(rate, ts, s.audioTs))
    && Stopped(s).1
  }

  /**
   When mixing and discarding agree. Discarding removes from every channel exactly as many samples as mixing adds if
   and only if the source is not cleared as stopped, and either nothing is wanted from it, or less than that is
   queued, or a whole tick is queued, the source sets in inside the window, and the scheduler does not wait. In all
   other cases samples are lost.
   */
  lemma MixAndDiscardAgree(rate: nat, s: SourceState, ts: Window, waiting: bool)
    requires s.Valid() && ShortWindow(rate, ts)
    ensures var r, wanted := Discarded(rate, s, ts), Wanted(rate, ts, s.audioTs);
      && r.Valid()
      && (s.Queued() - r.Queued() == Mixed(rate, s, ts, waiting) <==>
           !Cleared(rate, s, ts) &&
           (wanted == 0 || s.Queued() < wanted ||
             (s.Queued() >= AUDIO_OUTPUT_FRAMES && ts.start <= s.audioTs && !waiting)))
  {
    if ts.start <= s.audioTs < ts.end {
      StartPointInRange(rate, ts, s.audioTs);
    }
  }

  /**
   Where discarding leaves a source. One that is cleared has no samples and no timestamp; one that lies before or
   behind the window stays as it is; any other is taken to the window's end, with what is wanted off the front of every
   channel, or, where less than that is queued, with nothing taken off.
   */
  lemma DiscardedMeets(rate: nat, s: SourceState, ts: Window)
    requires s.Valid() && ShortWindow(rate, ts)
    ensures var r, wanted := Discarded(rate, s, ts), Wanted(rate, ts, s.audioTs);
      && r.Valid() && |r.buffers| == |s.buffers|
      && r.pending == s.pending && r.timingSet == s.timingSet
      && (Cleared(rate, s, ts) ==> r.Queued() == 0 && r.audioTs == 0)
      && (!Cleared(rate, s, ts) ==>
           && r.audioTs == (if s.audioTs + 1 < ts.start || ts.end <= s.audioTs then s.audioTs else ts.end)
           && 0 <= wanted
           && forall ch :: 0 <= ch < |s.buffers| ==>
                r.buffers[ch] == if wanted <= s.Queued() then s.buffers[ch][wanted..] else s.buffers[ch])
      && (0 < wanted <= s.Queued() ==> r.lastSize == 0 && !r.pendingStop)
      && (s.Queued() < wanted ==> (r.lastSize, r.pendingStop) == (Stopped(s).0.lastSize, Stopped(s).0.pendingStop))
  {
    if ts.start <= s.audioTs < ts.end {
      StartPointInRange(rate, ts, s.audioTs);
    }
  }

  /** A whole tick queued for a source inside the window: exactly what is wanted leaves every channel. */
  lemma FullTick(rate: nat, s: SourceState, ts: Window)
    requires s.Valid() && ShortWindow(rate, ts) && ts.start <= s.audioTs < ts.end && s.Queued() >= AUDIO_OUTPUT_FRAMES
    ensures var n := MixCount(rate, ts, s.audioTs);
      && 0 < n <= s.Queued()
      && Discarded(rate, s, ts) == s.Dropped(n).(lastSize := 0, pendingStop := false, audioTs := ts.end)
  {
    StartPointInRange(rate, ts, s.audioTs);
  }

  /** At 1 MHz, with 600 samples queued and the source setting in 500 samples behind the window's start: 524 samples are
      discarded, and none was mixed. */
  lemma SamplesLost(s: SourceState, ts: Window)
    requires ts == Window(1_000_000, 2_024_000)
    requires s.Valid() && s.Queued() == 600 && s.audioTs == 1_500_000
    ensures ShortWindow(1_000_000, ts)
    ensures Discarded(1_000_000, s, ts).Queued() == 76 && Mixed(1_000_000, s, ts, false) == 0
  {
    assert StartPoint(1_000_000, ts, s.audioTs) == 500;
  }

  /** A source one nanosecond early: a whole tick is discarded, and nothing was mixed. */
  lemma EarlyByOne(s: SourceState, ts: Window)
    requires ts == Window(1_000_000, 2_024_000)
    requires s.Valid() && s.Queued() == 1024 && s.audioTs == 999_999
    ensures Discarded(1_000_000, s, ts).Queued() == 0 && Mixed(1_000_000, s, ts, false) == 0
  {
  }

  // ---------- Runs of windows ----------

  /** One tick as a source sees it: samples arrive on every channel, then the window is mixed, unless the scheduler
      waits, and discarded. */
  datatype SourceTick = SourceTick(arriving: seq<seq<Sample>>, ts: Window, waiting: bool)

  predicate Fits(s: SourceState, arriving: seq<seq<Sample>>) {
    |arriving| == |s.buffers| && forall ch :: 0 <= ch < |arriving| ==> |arriving[ch]| == |arriving[0]|
  }

  function Arrived(s: SourceState, arriving: seq<seq<Sample>>): (r: SourceState)
    requires s.Valid() && Fits(s, arriving)
    ensures r.Valid()
  {
    s.(buffers := seq(|s.buffers|, ch requires 0 <= ch < |s.buffers| => s.buffers[ch] + arriving[ch]))
  }

  function Ticked(rate: nat, s: SourceState, tick: SourceTick): (r: SourceState)
    requires s.Valid() && Fits(s, tick.arriving) && 0 < tick.ts.start
    ensures r.Valid() && |r.buffers| == |s.buffers|
  {
    Discarded(rate, Arrived(s, tick.arriving), tick.ts)
  }

  /** The samples of one channel that a tick takes: those it adds to the mix, and those it drops besides. */
  datatype Taken = Taken(mixed: seq<Sample>, lost: seq<Sample>)

  function TakenBy(rate: nat, s: SourceState, ts: Window, waiting: bool, ch: nat): Taken
    requires s.Valid() && ch < |s.buffers| && 0 < ts.start
    requires 0 <= Mixed(rate, s, ts, waiting) <= s.Queued() - Discarded(rate, s, ts).Queued()
  {
    var n, gone := Mixed(rate, s, ts, waiting), s.Queued() - Discarded(rate, s, ts).Queued();
    Taken(s.buffers[ch][..n], s.buffers[ch][n..gone])
  }

  function AllTaken(ps: seq<Taken>): seq<Sample> {
    if ps == [] then [] else (ps[0].mixed + ps[0].lost) + AllTaken(ps[1..])
  }

  function AllMixed(ps: seq<Taken>): seq<Sample> {
    if ps == [] then [] else ps[0].mixed + AllMixed(ps[1..])
  }

  function AllLost(ps: seq<Taken>): seq<Sample> {
    if ps == [] then [] else ps[0].lost + AllLost(ps[1..])
  }

  /** Short windows, none of which starts behind the source's timestamp, and a whole tick of samples to render
      whenever the timestamp lies in the window. */
  ghost predicate FullRun(rate: nat, s: SourceState, ticks: seq<SourceTick>)
    requires s.Valid()
    decreases |ticks|
  {
    ticks == [] ||
    (&& Fits(s, ticks[0].arriving)
     && ShortWindow(rate, ticks[0].ts) && ticks[0].ts.start <= s.audioTs
     && (s.audioTs < ticks[0].ts.end ==> Arrived(s, ticks[0].arriving).Queued() >= AUDIO_OUTPUT_FRAMES)
     && FullRun(rate, Ticked(rate, s, ticks[0]), ticks[1..]))
  }

  /** The end state of a run, and what it took and received on channel `ch`. */
  datatype MixRun = MixRun(state: SourceState, taken: seq<Taken>, arrived: seq<Sample>)

  ghost function RunTicks(rate: nat, s: SourceState, ticks: seq<SourceTick>, ch: nat): MixRun
    requires s.Valid() && ch < |s.buffers| && FullRun(rate, s, ticks)
    decreases |ticks|
  {
    if ticks == [] then MixRun(s, [], [])
    else
      var a := Arrived(s, ticks[0].arriving);
      TickTakes(rate, s, ticks[0], ch);
      var rest := RunTicks(rate, Ticked(rate, s, ticks[0]), ticks[1..], ch);
      MixRun(rest.state, [TakenBy(rate, a, ticks[0].ts, ticks[0].waiting, ch)] + rest.taken,
             ticks[0].arriving[ch] + rest.arrived)
  }

  /** The source's timestamp after a tick. */
  function NextTs(audioTs: u64, tick: SourceTick): u64 {
    if audioTs < tick.ts.end then tick.ts.end else audioTs
  }

  /** One such tick: nothing is mixed that is not discarded, what leaves a channel comes off its front, and something is
      lost if and only if the tick waits although the timestamp lies in its window. */
  lemma TickTakes(rate: nat, s: SourceState, tick: SourceTick, ch: nat)
    requires s.Valid() && Fits(s, tick.arriving) && ch < |s.buffers|
    requires ShortWindow(rate, tick.ts) && tick.ts.start <= s.audioTs
    requires s.audioTs < tick.ts.end ==> Arrived(s, tick.arriving).Queued() >= AUDIO_OUTPUT_FRAMES
    ensures var a, r := Arrived(s, tick.arriving), Ticked(rate, s, tick);
      && 0 <= Mixed(rate, a, tick.ts, tick.waiting) <= a.Queued() - r.Queued()
      && r.audioTs == NextTs(s.audioTs, tick)
      && r.Valid() && |r.buffers| == |s.buffers|
      && var t := TakenBy(rate, a, tick.ts, tick.waiting, ch);
         && s.buffers[ch] + tick.arriving[ch] == (t.mixed + t.lost) + r.buffers[ch]
         && (t.lost == [] <==> !(tick.waiting && s.audioTs < tick.ts.end))
  {
    var a := Arrived(s, tick.arriving);
    if s.audioTs < tick.ts.end {
      FullTick(rate, a, tick.ts);
      var n, k := MixCount(rate, tick.ts, s.audioTs), Mixed(rate, a, tick.ts, tick.waiting);
      InThree(a.buffers[ch], k, n);
    } else {
      InThree(a.buffers[ch], 0, 0);
    }
  }

  lemma InThree(s: seq<Sample>, k: nat, n: nat)
    requires k <= n <= |s|
    ensures (s[..k] + s[k..n]) + s[n..] == s
  {
  }

  lemma Reassociate(
    first: seq<Sample>, kept: seq<Sample>, more: seq<Sample>, taken: seq<Sample>, left: seq<Sample>, all: seq<Sample>)
    requires all == first + kept
    requires taken + left == kept + more
    ensures (first + taken) + left == all + more
  {
    assert (first + taken) + left == first + (taken + left);
  }

  /** No tick waits while the source's timestamp lies in its window. */
  predicate LosesNone(audioTs: u64, ticks: seq<SourceTick>)
    decreases |ticks|
  {
    ticks == [] ||
    (!(ticks[0].waiting && audioTs < ticks[0].ts.end) && LosesNone(NextTs(audioTs, ticks[0]), ticks[1..]))
  }

  function LastTs(audioTs: u64, ticks: seq<SourceTick>): u64
    decreases |ticks|
  {
    if ticks == [] then audioTs else LastTs(NextTs(audioTs, ticks[0]), ticks[1..])
  }

  /**
   Over every such run the samples mixed, those dropped unmixed and those still queued are, in order and on every
   channel, the samples queued at the start followed by those that arrived. None is dropped unmixed if and only if no
   tick waits while the source's timestamp lies in its window.
   */
  lemma {:induction false} RunTakesStream(rate: nat, s: SourceState, ticks: seq<SourceTick>, ch: nat)
    requires s.Valid() && ch < |s.buffers| && FullRun(rate, s, ticks)
    ensures var r := RunTicks(rate, s, ticks, ch);
      && |r.state.buffers| == |s.buffers|
      && AllTaken(r.taken) + r.state.buffers[ch] == s.buffers[ch] + r.arrived
      && (AllLost(r.taken) == [] <==> LosesNone(s.audioTs, ticks))
      && r.state.audioTs == LastTs(s.audioTs, ticks)
    decreases |ticks|
  {
    if ticks == [] {
    } else {
      var tick := ticks[0];
      var a, next := Arrived(s, tick.arriving), Ticked(rate, s, tick);
      TickTakes(rate, s, tick, ch);
      RunTakesStream(rate, next, ticks[1..], ch);
      var rest, t := RunTicks(rate, next, ticks[1..], ch), TakenBy(rate, a, tick.ts, tick.waiting, ch);
      TakenFirst(t, rest.taken);
      Reassociate(t.mixed + t.lost, next.buffers[ch], rest.arrived, AllTaken(rest.taken), rest.state.buffers[ch],
                  s.buffers[ch] + tick.arriving[ch]);
      Appended(s.buffers[ch], tick.arriving[ch], rest.arrived);
    }
  }

  lemma Appended(a: seq<Sample>, b: seq<Sample>, c: seq<Sample>)
    ensures (a + b) + c == a + (b + c)
  {
  }

  lemma TakenFirst(t: Taken, rest: seq<Taken>)
    ensures AllTaken([t] + rest) == (t.mixed + t.lost) + AllTaken(rest)
    ensures AllMixed([t] + rest) == t.mixed + AllMixed(rest)
    ensures AllLost([t] + rest) == t.lost + AllLost(rest)
  {
    assert ([t] + rest)[1..] == rest;
  }

  lemma {:induction false} NothingLost(ps: seq<Taken>)
    ensures |AllTaken(ps)| == |AllMixed(ps)| + |AllLost(ps)|
    ensures AllLost(ps) == [] ==> AllMixed(ps) == AllTaken(ps)
    decreases |ps|
  {
    if ps == [] {
    } else {
      NothingLost(ps[1..]);
      assert AllLost(ps) == [] ==> ps[0].lost == [] && ps[0].mixed + ps[0].lost == ps[0].mixed;
    }
  }

  /** So a source is mixed without loss or repetition if and only if no tick waits on it. */
  lemma RunMixesEverySample(rate: nat, s: SourceState, ticks: seq<SourceTick>, ch: nat)
    requires s.Valid() && ch < |s.buffers| && FullRun(rate, s, ticks)
    ensures var r := RunTicks(rate, s, ticks, ch);
      && |r.state.buffers| == |s.buffers|
      && (AllMixed(r.taken) + r.state.buffers[ch] == s.buffers[ch] + r.arrived <==> LosesNone(s.audioTs, ticks))
  {
    RunTakesStream(rate, s, ticks, ch);
    NothingLost(RunTicks(rate, s, ticks, ch).taken);
  }

  /** Each window starts where the one before it ends, and the first one holds the timestamp. */
  predicate Contiguously(audioTs: u64, ticks: seq<SourceTick>) {
    && (ticks != [] ==> ticks[0].ts.start <= audioTs < ticks[0].ts.end)
    && (forall i :: 0 <= i < |ticks| ==> ticks[i].ts.start < ticks[i].ts.end)
    && (forall i :: 0 < i < |ticks| ==> ticks[i].ts.start == ticks[i - 1].ts.end)
  }

  /** Over contiguous windows nothing is lost if and only if no tick waits, and the timestamp follows the windows. */
  lemma {:induction false} ContiguousRunLosesNone(audioTs: u64, ticks: seq<SourceTick>)
    requires Contiguously(audioTs, ticks)
    ensures LosesNone(audioTs, ticks) <==> forall i :: 0 <= i < |ticks| ==> !ticks[i].waiting
    ensures LastTs(audioTs, ticks) == if ticks == [] then audioTs else ticks[|ticks| - 1].ts.end
    decreases |ticks|
  {
    if ticks == [] {
    } else {
      var rest := ticks[1..];
      assert forall i :: 0 <= i < |rest| ==> rest[i] == ticks[i + 1];
      ContiguousRunLosesNone(ticks[0].ts.end, rest);
      assert forall i :: 0 < i < |ticks| ==> ticks[i] == rest[i - 1];
    }
  }

  // ---------- The source object ----------

  class Source {
    const audioRender: bool
    var audioTs: u64
    var audioPending: bool
    var pendingStop: bool
    var timingSet: bool
    var audioInputBuf: seq<seq<Sample>>
    var lastAudioInputBufSize: nat

    function State(): SourceState
      reads this
    {
      SourceState(audioTs, audioInputBuf, lastAudioInputBufSize, audioPending, pendingStop, timingSet)
    }

    constructor (audioRender: bool, channels: nat)
      requires channels > 0
      ensures this.audioRender == audioRender
      ensures State().Valid() && State().Queued() == 0 && audioTs == 0
    {
      this.audioRender := audioRender;
      audioTs, audioPending, pendingStop, timingSet, lastAudioInputBufSize := 0, false, false, false, 0;
      audioInputBuf := seq(channels, _ => []);
    }

    /** The loop over the channels that the operations below run: pop `n` samples off each. */
    method PopFront(n: nat)
      requires State().Valid() && n <= State().Queued()
      modifies this`audioInputBuf
      ensures State() == old(State().Dropped(n))
    {
      ghost var was := audioInputBuf;
      var ch := 0;
      while ch < |audioInputBuf|
        invariant 0 <= ch <= |audioInputBuf| == |was|
        invariant forall c :: 0 <= c < ch ==> audioInputBuf[c] == was[c][n..]
        invariant forall c :: ch <= c < |was| ==> audioInputBuf[c] == was[c]
      {
        audioInputBuf := audioInputBuf[ch := audioInputBuf[ch][n..]];
        ch := ch + 1;
      }
    }

    /** The loop that reads the first channel's size anew for each channel. */
    method PopFirstSize()
      requires State().Valid()
      modifies this`audioInputBuf
      ensures audioInputBuf == old(audioInputBuf)[0 := []]
    {
      ghost var was := audioInputBuf;
      var ch := 0;
      while ch < |audioInputBuf|
        invariant 0 <= ch <= |audioInputBuf| == |was|
        invariant audioInputBuf == if ch == 0 then was else was[0 := []]
      {
        audioInputBuf := audioInputBuf[ch := audioInputBuf[ch][|audioInputBuf[0]|..]];
        ch := ch + 1;
      }
    }

    method IgnoreAudio(rate: nat, startTs: u64) returns (ok: bool)
      requires rate > 0
      requires State().Valid() && audioTs < startTs
      requires startTs + NS_PER_SEC < TWO_64
      modifies this
      ensures (State(), ok) == Ignored(rate, old(State()), startTs)
    {
      var numFloats := |audioInputBuf[0]|;
      if audioTs == 0 && numFloats > 0 {
        PopFirstSize();
        lastAudioInputBufSize := 0;
        return false;
      }
      if numFloats > 0 {
        var drop := NsToFrames(rate, startTs - audioTs - 1) + 1;
        if drop > numFloats {
          drop := numFloats;
        }
        LagRecovery(rate, State(), startTs);
        DropReaches(rate, audioTs, startTs, drop);
        PopFront(drop);
        lastAudioInputBufSize := 0;
        audioTs := Wrap64(audioTs + FramesToNs(rate, drop));
        if audioTs == startTs - 1 {
          audioTs := startTs;
        }
        if audioTs >= startTs {
          return true;
        }
      }
      audioPending := true;
      audioTs := 0;
      timingSet := false;
      return false;
    }

    /** What `audio_callback` does about a source that has gone backward in time and can no longer be waited for. */
    method CatchUp(rate: nat, maxed: bool, startTs: u64) returns (rerender: bool)
      requires rate > 0 && State().Valid() && startTs + NS_PER_SEC < TWO_64
      modifies this
      ensures State().Valid()
      ensures if !maxed || old(audioTs) == 0 || startTs <= old(audioTs) then State() == old(State()) && !rerender
        else if audioRender then State() == old(State()).(pending := true) && !rerender
        else (State(), rerender) == Ignored(rate, old(State()), startTs)
    {
      rerender := false;
      if maxed && audioTs != 0 && audioTs < startTs {
        if audioRender {
          audioPending := true;
        } else {
          GuardKeepsChannels(rate, maxed, State(), startTs);
          rerender := IgnoreAudio(rate, startTs);
        }
      }
    }

    method DiscardIfStopped() returns (cleared: bool)
      requires State().Valid()
      modifies this
      ensures (State(), cleared) == Stopped(old(State()))
    {
      var lastSize := lastAudioInputBufSize;
      var size := |audioInputBuf[0]|;
      if size == 0 {
        return false;
      }
      if lastSize == size {
        if !pendingStop {
          pendingStop := true;
          return false;
        }
        PopFront(size);
        pendingStop := false;
        audioTs := 0;
        lastAudioInputBufSize := 0;
        return true;
      } else {
        lastAudioInputBufSize := size;
        return false;
      }
    }

    method DiscardAudio(rate: nat, ts: Window)
      requires State().Valid() && 0 < ts.start
      modifies this
      ensures State() == if audioRender then old(State().(audioTs := 0)) else Discarded(rate, old(State()), ts)
    {
      var totalFloats: int := AUDIO_OUTPUT_FRAMES;
      if audioRender {
        audioTs := 0;
        return;
      }
      if ts.end <= audioTs {
        return;
      }
      if audioTs < ts.start - 1 {
        if audioPending && |audioInputBuf[0]| < AUDIO_OUTPUT_FRAMES {
          var _ := DiscardIfStopped();
        }
        return;
      }
      if audioTs != ts.start && audioTs != ts.start - 1 {
        var startPoint := NsToFrames(rate, audioTs - ts.start);
        if startPoint == AUDIO_OUTPUT_FRAMES {
          return;
        }
        totalFloats := totalFloats - startPoint;
      }
      var size := Wrap64(totalFloats);
      if |audioInputBuf[0]| < size {
        var cleared := DiscardIfStopped();
        if !cleared {
          audioTs := ts.end;
        }
        return;
      }
      PopFront(size);
      lastAudioInputBufSize := 0;
      pendingStop := false;
      audioTs := ts.end;
    }
  }
}
