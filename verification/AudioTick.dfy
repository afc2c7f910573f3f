/**
 The parts of one audio tick that run over all sources: finding the earliest timestamp, and adding a source's rendered
 output to the mix (libobs/obs-audio.c).
 */
module AudioTick {
  import opened AudioClock
  import opened AudioBuffering
  import opened AudioSource
  import opened Bytes

  // ---------- The earliest timestamp ----------

  predicate Live(s: SourceState) { !s.pending && s.audioTs != 0 }

  /** The least timestamp among `bound` and the live sources. */
  function EarliestTs(states: seq<SourceState>, bound: u64): u64
    decreases |states|
  {
    if states == [] then bound
    else
      var min := EarliestTs(states[..|states| - 1], bound);
      var s := states[|states| - 1];
      if Live(s) && s.audioTs < min then s.audioTs else min
  }

  lemma {:induction false} EarliestIsMinimum(states: seq<SourceState>, bound: u64)
    ensures var min := EarliestTs(states, bound);
      && min <= bound
      && (forall i :: 0 <= i < |states| && Live(states[i]) ==> min <= states[i].audioTs)
      && (min == bound || exists i :: 0 <= i < |states| && Live(states[i]) && states[i].audioTs == min)
    decreases |states|
  {
    if states == [] {
    } else {
      var n := |states| - 1;
      EarliestIsMinimum(states[..n], bound);
      assert forall i :: 0 <= i < n ==> states[..n][i] == states[i];
      assert states[n] == states[|states| - 1];
    }
  }

  /** The first live source with the least timestamp, if that is below the bound. */
  predicate FirstEarliest(states: seq<SourceState>, bound: u64, minTs: u64, first: Option<nat>) {
    && (first.None? <==> minTs == bound)
    && (first.Some? ==>
         && first.value < |states| && Live(states[first.value]) && states[first.value].audioTs == minTs
         && forall i :: 0 <= i < first.value && Live(states[i]) ==> minTs < states[i].audioTs)
  }

  /** `audio_buffer_insufficient`: a running source that cannot fill the tick starting at `minTs`. */
  predicate Insufficient(rate: nat, render: bool, s: SourceState, minTs: u64)
    requires s.Valid()
    requires Live(s) ==> minTs <= s.audioTs
  {
    !render && Live(s) &&
    var point := if s.audioTs == minTs then 0 else NsToFrames(rate, s.audioTs - minTs);
    point < AUDIO_OUTPUT_FRAMES && s.Queued() < AUDIO_OUTPUT_FRAMES - point
  }

  /**
   A source inside the window is insufficient exactly if it runs and has less queued than the window holds from its
   start point on. One that runs and is not insufficient gives just that to the window and is taken to its end; one
   that is insufficient, and so is marked, is not mixed, and gives nothing unless it is cleared as stopped.
   */
  lemma InsufficientIsUnfilled(rate: nat, s: SourceState, ts: Window, waiting: bool)
    requires s.Valid() && ShortWindow(rate, ts) && ts.start <= s.audioTs < ts.end
    ensures var n, r := MixCount(rate, ts, s.audioTs), Discarded(rate, s, ts);
      && 0 < n <= AUDIO_OUTPUT_FRAMES
      && |r.buffers| == |s.buffers|
      && (Insufficient(rate, false, s, ts.start) <==> Live(s) && s.Queued() < n)
      && (Live(s) && !Insufficient(rate, false, s, ts.start) ==>
            r.audioTs == ts.end && forall ch :: 0 <= ch < |s.buffers| ==> r.buffers[ch] == s.buffers[ch][n..])
    ensures Insufficient(rate, false, s, ts.start) ==>
      var marked := s.(pending := true);
      && Mixed(rate, marked, ts, waiting) == 0
      && (!Cleared(rate, marked, ts) ==> Discarded(rate, marked, ts).buffers == s.buffers)
  {
    StartPointInRange(rate, ts, s.audioTs);
    DiscardedMeets(rate, s, ts);
  }

  function States(sources: seq<Source>): (r: seq<SourceState>)
    reads set s | s in sources
    ensures |r| == |sources|
  {
    seq(|sources|, i requires 0 <= i < |sources| reads set s | s in sources => sources[i].State())
  }

  ghost predicate Distinct(sources: seq<Source>) {
    forall i, j :: 0 <= i < j < |sources| ==> sources[i] != sources[j]
  }

  ghost predicate AllValid(sources: seq<Source>)
    reads set s | s in sources
  {
    forall i :: 0 <= i < |sources| ==> sources[i].State().Valid()
  }

  /** `find_min_ts`: the name it returns belongs to the first source with the least timestamp, if that is below the
      bound. */
  method FindMinTs(sources: seq<Source>, bound: u64) returns (minTs: u64, buffering: Option<nat>)
    ensures minTs == EarliestTs(States(sources), bound)
    ensures FirstEarliest(States(sources), bound, minTs, buffering)
  {
    minTs, buffering := bound, None;
    var i := 0;
    while i < |sources|
      invariant 0 <= i <= |sources|
      invariant minTs == EarliestTs(States(sources)[..i], bound)
      invariant minTs <= bound
      invariant buffering.None? <==> minTs == bound
      invariant forall j :: 0 <= j < i && Live(sources[j].State()) ==> minTs <= sources[j].audioTs
      invariant buffering.Some? ==>
        && buffering.value < i
        && Live(sources[buffering.value].State()) && sources[buffering.value].audioTs == minTs
        && forall j :: 0 <= j < buffering.value && Live(sources[j].State()) ==> minTs < sources[j].audioTs
    {
      assert States(sources)[..i + 1][..i] == States(sources)[..i];
      if !sources[i].audioPending && sources[i].audioTs != 0 && sources[i].audioTs < minTs {
        minTs, buffering := sources[i].audioTs, Some(i);
      }
      i := i + 1;
    }
    assert States(sources)[..i] == States(sources);
  }

  ghost predicate NoneBefore(sources: seq<Source>, minTs: u64)
    reads set s | s in sources
  {
    forall i :: 0 <= i < |sources| && Live(sources[i].State()) ==> minTs <= sources[i].audioTs
  }

  method MarkIfInsufficient(source: Source, rate: nat, minTs: u64) returns (marked: bool)
    requires source.State().Valid()
    requires Live(source.State()) ==> minTs <= source.audioTs
    modifies source`audioPending
    ensures marked == Insufficient(rate, source.audioRender, old(source.State()), minTs)
    ensures source.State() == old(source.State()).(pending := old(source.audioPending) || marked)
  {
    if source.audioRender || source.audioPending || source.audioTs == 0 {
      return false;
    }
    var totalFloats := AUDIO_OUTPUT_FRAMES;
    if source.audioTs != minTs && source.audioTs != minTs - 1 {
      var startPoint := NsToFrames(rate, source.audioTs - minTs);
      if startPoint >= AUDIO_OUTPUT_FRAMES {
        return false;
      }
      totalFloats := totalFloats - startPoint;
    }
    if |source.audioInputBuf[0]| < totalFloats {
      source.audioPending := true;
      return true;
    }
    return false;
  }

  /** `mark_invalid_sources`: exactly the sources that cannot fill the tick become pending. */
  method MarkInvalidSources(sources: seq<Source>, rate: nat, minTs: u64) returns (recalculate: bool)
    requires Distinct(sources) && AllValid(sources) && NoneBefore(sources, minTs)
    modifies (set s | s in sources)`audioPending
    ensures AllValid(sources)
    ensures forall i :: 0 <= i < |sources| ==>
      sources[i].State() == old(sources[i].State()).(pending :=
        old(sources[i].audioPending) || Insufficient(rate, sources[i].audioRender, old(sources[i].State()), minTs))
    ensures recalculate == exists i ::
      0 <= i < |sources| && Insufficient(rate, sources[i].audioRender, old(sources[i].State()), minTs)
  {
    recalculate := false;
    var k := 0;
    while k < |sources|
      invariant 0 <= k <= |sources|
      invariant forall i :: k <= i < |sources| ==> sources[i].State() == old(sources[i].State())
      invariant forall i :: 0 <= i < k ==>
        sources[i].State() == old(sources[i].State()).(pending :=
          old(sources[i].audioPending) || Insufficient(rate, sources[i].audioRender, old(sources[i].State()), minTs))
      invariant recalculate == exists i ::
        0 <= i < k && Insufficient(rate, sources[i].audioRender, old(sources[i].State()), minTs)
    {
      var marked := MarkIfInsufficient(sources[k], rate, minTs);
      recalculate := recalculate || marked;
      k := k + 1;
    }
  }

  /** Nothing live lies before the minimum, however many sources have become pending since it was taken. */
  lemma MinimumSurvivesMarking(before: seq<SourceState>, after: seq<SourceState>, minTs: u64)
    requires |before| == |after|
    requires forall i :: 0 <= i < |before| && Live(after[i]) ==>
      Live(before[i]) && after[i].audioTs == before[i].audioTs
    requires forall i :: 0 <= i < |before| && Live(before[i]) ==> minTs <= before[i].audioTs
    ensures EarliestTs(after, minTs) == minTs
  {
    EarliestIsMinimum(after, minTs);
  }

  /** The sources that `mark_invalid_sources` will mark. */
  predicate AnyInsufficient(sources: seq<Source>, rate: nat, minTs: u64)
    requires AllValid(sources) && NoneBefore(sources, minTs)
    reads set s | s in sources
  {
    exists i :: 0 <= i < |sources| && Insufficient(rate, sources[i].audioRender, sources[i].State(), minTs)
  }

  /** The minimum, and the marks that follow from it. */
  method FindAndMark(sources: seq<Source>, rate: nat, bound: u64)
    returns (minTs: u64, buffering: Option<nat>, recalculate: bool)
    requires Distinct(sources) && AllValid(sources)
    modifies (set s | s in sources)`audioPending
    ensures minTs == EarliestTs(old(States(sources)), bound) && old(NoneBefore(sources, minTs))
    ensures FirstEarliest(old(States(sources)), bound, minTs, buffering)
    ensures recalculate == old(AnyInsufficient(sources, rate, minTs))
    ensures forall i :: 0 <= i < |sources| ==>
      sources[i].State() == old(sources[i].State()).(pending :=
        old(sources[i].audioPending) || Insufficient(rate, sources[i].audioRender, old(sources[i].State()), minTs))
  {
    ghost var before := States(sources);
    minTs, buffering := FindMinTs(sources, bound);
    EarliestIsMinimum(before, bound);
    assert NoneBefore(sources, minTs) by {
      assert forall i :: 0 <= i < |sources| ==> before[i] == sources[i].State();
    }
    recalculate := MarkInvalidSources(sources, rate, minTs);
  }

  /**
   `calc_min_ts`. The recalculation after marking starts from the minimum already found, so it never changes the
   timestamp: that is the earliest among the sources that were live on entry, marked or not. All the recalculation does
   is forget the name of the source, which is that of the first such source if none is marked.
   */
  method CalcMinTs(sources: seq<Source>, rate: nat, bound: u64) returns (minTs: u64, buffering: Option<nat>)
    requires Distinct(sources) && AllValid(sources)
    modifies (set s | s in sources)`audioPending
    ensures minTs == EarliestTs(old(States(sources)), bound)
    ensures old(NoneBefore(sources, minTs))
    ensures if old(AnyInsufficient(sources, rate, minTs)) then buffering.None?
      else FirstEarliest(old(States(sources)), bound, minTs, buffering)
    ensures forall i :: 0 <= i < |sources| ==>
      sources[i].State() == old(sources[i].State()).(pending :=
        old(sources[i].audioPending) || Insufficient(rate, sources[i].audioRender, old(sources[i].State()), minTs))
  {
    ghost var before := States(sources);
    EarliestIsMinimum(before, bound);
    var recalculate;
    minTs, buffering, recalculate := FindAndMark(sources, rate, bound);
    if recalculate {
      MinimumSurvivesMarking(before, States(sources), minTs);
      minTs, buffering := FindMinTs(sources, minTs);
    }
  }

  // ---------- Mixing ----------

  /** The sample that a source adds at position `i` of the window. */
  function Contribution(output: array3<Sample>, rate: nat, audioTs: u64, ts: Window, m: nat, ch: nat, i: nat): Sample
    requires m < output.Length0 && ch < output.Length1 && i < output.Length2
    reads output
  {
    if audioTs < ts.start || ts.end <= audioTs || i < StartPoint(rate, ts, audioTs) then 0.0
    else output[m, ch, i - StartPoint(rate, ts, audioTs)]
  }

  /** What is mixed is the beginning of the source's output, as many samples as `MixCount` says, in order, and it ends
      with the window; in front of it nothing is added, nor anywhere if the source does not set in inside the window.
      */
  lemma MixedInOrder(output: array3<Sample>, rate: nat, audioTs: u64, ts: Window, m: nat, ch: nat)
    requires m < output.Length0 && ch < output.Length1 && output.Length2 == AUDIO_OUTPUT_FRAMES && ShortWindow(rate, ts)
    ensures var n := MixCount(rate, ts, audioTs);
      && 0 <= n <= AUDIO_OUTPUT_FRAMES
      && (n > 0 <==> ts.start <= audioTs < ts.end)
      && forall i :: 0 <= i < AUDIO_OUTPUT_FRAMES ==>
           Contribution(output, rate, audioTs, ts, m, ch, i) ==
             if i < AUDIO_OUTPUT_FRAMES - n then 0.0 else output[m, ch, i - (AUDIO_OUTPUT_FRAMES - n)]
  {
    if ts.start <= audioTs < ts.end {
      StartPointInRange(rate, ts, audioTs);
    }
  }

  /** `mix_audio`: adds the source's rendered output to every mix and channel, from its start point on. */
  method MixAudio(mixes: array3<Sample>, output: array3<Sample>, rate: nat, audioTs: u64, ts: Window)
    requires mixes != output
    requires mixes.Length0 == output.Length0 && mixes.Length1 == output.Length1
    requires mixes.Length2 == AUDIO_OUTPUT_FRAMES == output.Length2
    requires ts.start <= audioTs < ts.end ==> StartPoint(rate, ts, audioTs) <= AUDIO_OUTPUT_FRAMES
    modifies mixes
    ensures forall m, ch, i ::
      0 <= m < mixes.Length0 && 0 <= ch < mixes.Length1 && 0 <= i < mixes.Length2 ==>
        mixes[m, ch, i] == old(mixes[m, ch, i]) + Contribution(output, rate, audioTs, ts, m, ch, i)
  {
    var totalFloats := AUDIO_OUTPUT_FRAMES;
    var startPoint := 0;
    if audioTs < ts.start || ts.end <= audioTs {
      return;
    }
    if audioTs != ts.start {
      startPoint := NsToFrames(rate, audioTs - ts.start);
      if startPoint == AUDIO_OUTPUT_FRAMES {
        return;
      }
      totalFloats := totalFloats - startPoint;
    }
    var mixIdx := 0;
    while mixIdx < mixes.Length0
      invariant 0 <= mixIdx <= mixes.Length0
      invariant forall m, ch, i ::
        0 <= m < mixes.Length0 && 0 <= ch < mixes.Length1 && 0 <= i < mixes.Length2 ==>
          mixes[m, ch, i] == old(mixes[m, ch, i])
            + if m < mixIdx then Contribution(output, rate, audioTs, ts, m, ch, i) else 0.0
    {
      var ch := 0;
      while ch < mixes.Length1
        invariant 0 <= ch <= mixes.Length1
        invariant forall m, c, i ::
          0 <= m < mixes.Length0 && 0 <= c < mixes.Length1 && 0 <= i < mixes.Length2 ==>
            mixes[m, c, i] == old(mixes[m, c, i])
              + if m < mixIdx || (m == mixIdx && c < ch) then Contribution(output, rate, audioTs, ts, m, c, i) else 0.0
      {
        MixChannel(mixes, output, mixIdx, ch, startPoint, totalFloats);
        ch := ch + 1;
      }
      mixIdx := mixIdx + 1;
    }
  }

  /** The innermost loop: one channel of one mix. */
  method MixChannel(mixes: array3<Sample>, output: array3<Sample>, m: nat, ch: nat, startPoint: nat, totalFloats: nat)
    requires mixes != output
    requires m < mixes.Length0 == output.Length0 && ch < mixes.Length1 == output.Length1
    requires mixes.Length2 == output.Length2 == startPoint + totalFloats
    modifies mixes
    ensures forall m', c, i | 0 <= m' < mixes.Length0 && 0 <= c < mixes.Length1 && 0 <= i < mixes.Length2 ::
      mixes[m', c, i] == old(mixes[m', c, i])
        + if m' == m && c == ch && startPoint <= i then output[m, ch, i - startPoint] else 0.0
  {
    var aud := 0;
    while aud < totalFloats
      invariant 0 <= aud <= totalFloats
      invariant forall m', c, i | 0 <= m' < mixes.Length0 && 0 <= c < mixes.Length1 && 0 <= i < mixes.Length2 ::
        mixes[m', c, i] == old(mixes[m', c, i])
          + if m' == m && c == ch && startPoint <= i < startPoint + aud then output[m, ch, i - startPoint] else 0.0
    {
      mixes[m, ch, startPoint + aud] := mixes[m, ch, startPoint + aud] + output[m, ch, aud];
      aud := aud + 1;
    }
  }
}
