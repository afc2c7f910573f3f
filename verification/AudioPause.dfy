/**
 Pausing: audio chunks from the pause's start to its end are cut out of the stream (libobs/obs-encoder.c,
 libobs/obs-output.c).
 */
module AudioPause {
  import opened AudioClock
  import opened Bytes

  /** The size of the samples that `unpause_audio` skips. */
  const FLOAT_SIZE: nat := 4

  /** `struct audio_data`: every plane holds at least `frames` frames. */
  datatype Audio = Audio(planes: seq<bytes>, frames: nat, timestamp: u64)
  {
    predicate Readable(planeCount: nat, blocksize: nat) {
      |planes| == planeCount && forall p :: 0 <= p < planeCount ==> frames * blocksize <= |planes[p]|
    }

    /** The bytes of plane `p` that belong to the chunk. */
    function Data(p: nat, blocksize: nat): (r: bytes)
      requires p < |planes| && Readable(|planes|, blocksize)
      ensures |r| == frames * blocksize
    {
      planes[p][..frames * blocksize]
    }

    /** The time right after the chunk, as the code computes it. */
    function EndTs(rate: nat): nat
      requires rate > 0
    {
      timestamp + FramesToNs(rate, frames)
    }
  }

  // ---------- Streams of chunks ----------

  ghost predicate AllReadable(chunks: seq<Audio>, planeCount: nat, blocksize: nat) {
    forall i :: 0 <= i < |chunks| ==> chunks[i].Readable(planeCount, blocksize)
  }

  function FramesIn(chunks: seq<Audio>): nat
    decreases |chunks|
  {
    if chunks == [] then 0 else FramesIn(chunks[..|chunks| - 1]) + chunks[|chunks| - 1].frames
  }

  /** What a list of chunks holds in plane `p`. */
  ghost function Stream(chunks: seq<Audio>, planeCount: nat, blocksize: nat, p: nat): (r: bytes)
    requires p < planeCount && AllReadable(chunks, planeCount, blocksize)
    ensures |r| == FramesIn(chunks) * blocksize
    decreases |chunks|
  {
    if chunks == [] then []
    else
      var rest, last := chunks[..|chunks| - 1], chunks[|chunks| - 1];
      MulDistributes(FramesIn(rest), last.frames, blocksize);
      Stream(rest, planeCount, blocksize, p) + last.Data(p, blocksize)
  }

  ghost predicate InTime(rate: nat, chunks: seq<Audio>)
    requires rate > 0
  {
    forall i :: 0 <= i < |chunks| ==> chunks[i].EndTs(rate) < TWO_64
  }

  /** Each chunk starts where the one before it ends, and no time wraps around. */
  ghost predicate Contiguous(rate: nat, chunks: seq<Audio>)
    requires rate > 0
  {
    && InTime(rate, chunks)
    && (forall i :: 0 < i < |chunks| ==> Follows(rate, chunks, i))
  }

  ghost predicate Follows(rate: nat, chunks: seq<Audio>, i: nat)
    requires rate > 0 && 0 < i < |chunks|
  {
    chunks[i].timestamp == chunks[i - 1].EndTs(rate)
  }

  // ---------- Checking one chunk ----------

  /** `struct pause_data`; zero stands for a time that is not set. */
  datatype Pause = Pause(start: u64, end: u64, offset: u64)

  /** `end_pause` */
  function Ended(pause: Pause, ts: u64): Pause {
    if pause.end == 0 then Pause(pause.start, ts, Wrap64(pause.offset + Wrap64(ts - pause.start))) else pause
  }

  datatype Checked = Checked(pause: Pause, audio: Audio, ignored: bool)

  /** `unpause_audio` leaves this of the chunk's planes. */
  function Skipped(planes: seq<bytes>, n: nat): (r: seq<bytes>)
    requires forall p :: 0 <= p < |planes| ==> n <= |planes[p]|
    ensures |r| == |planes|
  {
    seq(|planes|, p requires 0 <= p < |planes| => planes[p][n..])
  }

  /** What is left of a plane has the size of the frames that are left exactly for frames of the size of a float. */
  lemma SkipMatchesFrames(plane: bytes, frames: nat, cut: nat, blocksize: nat)
    requires |plane| == frames * blocksize && cut <= frames && cut * FLOAT_SIZE <= |plane|
    ensures |Skipped([plane], cut * FLOAT_SIZE)[0]| == (frames - cut) * blocksize <==>
      blocksize == FLOAT_SIZE || cut == 0
  {
    MulDistributes(frames - cut, cut, blocksize);
    if cut > 0 && cut * blocksize == cut * FLOAT_SIZE {
      MulCancel(blocksize, FLOAT_SIZE, cut);
      MulCancel(FLOAT_SIZE, blocksize, cut);
    }
  }

  /** Two of five 16-bit frames are skipped as four: two bytes are left for three frames. */
  lemma ShortFramesSkipped(plane: bytes)
    requires |plane| == 5 * 2
    ensures |Skipped([plane], 2 * FLOAT_SIZE)[0]| == 2 && (5 - 2) * 2 == 6
  {
    SkipMatchesFrames(plane, 5, 2, 2);
  }

  /** A pause point inside the chunk cuts at most the whole chunk. */
  lemma CutInRange(rate: nat, audio: Audio, ts: nat)
    requires rate > 0
    requires audio.timestamp <= ts <= audio.EndTs(rate)
    ensures NsToFrames(rate, ts - audio.timestamp) <= audio.frames
  {
    var lag := ts - audio.timestamp;
    NsToFramesBounds(rate, lag);
    DivBounds(audio.frames * NS_PER_SEC, rate);
    MulMonotone(lag, FramesToNs(rate, audio.frames), rate);
    MulCancel(NsToFrames(rate, lag), audio.frames, NS_PER_SEC);
  }

  /** `audio_pause_check_internal` */
  function CheckInternal(rate: nat, pause: Pause, audio: Audio): Checked
    requires rate > 0 && (pause.start != 0 ==> audio.Readable(|audio.planes|, FLOAT_SIZE))
    requires audio.EndTs(rate) < TWO_64
  {
    if pause.start == 0 then Checked(pause, audio, false)
    else if pause.start >= audio.timestamp then
      if pause.start <= audio.EndTs(rate) then
        var cut := NsToFrames(rate, pause.start - audio.timestamp);
        Checked(pause, audio.(frames := cut), cut == 0)
      else
        Checked(pause, audio, false)
    else if audio.timestamp <= pause.end <= audio.EndTs(rate) then
      var cut := NsToFrames(rate, pause.end - audio.timestamp);
      CutInRange(rate, audio, pause.end);
      var rest := Audio(Skipped(audio.planes, cut * FLOAT_SIZE), audio.frames - cut, pause.start);
      Checked(pause.(start := 0, end := 0), rest, rest.frames == 0)
    else
      Checked(pause, audio, true)
  }

  /** `audio_pause_check` */
  function Check(rate: nat, pause: Pause, audio: Audio): Checked
    requires rate > 0 && (pause.start != 0 ==> audio.Readable(|audio.planes|, FLOAT_SIZE))
    requires audio.EndTs(rate) < TWO_64
  {
    var r := CheckInternal(rate, pause, audio);
    r.(audio := r.audio.(timestamp := Wrap64(r.audio.timestamp - pause.offset)))
  }

  // ---------- A pause over a run of chunks ----------

  datatype PauseRun = PauseRun(pause: Pause, passed: seq<Audio>)

  /** The chunks that get through, when the pause's end becomes known as `end` right before chunk `moment`. */
  ghost function Run(rate: nat, pause: Pause, chunks: seq<Audio>, moment: nat, end: u64): PauseRun
    requires rate > 0 && (forall i :: 0 <= i < |chunks| ==> chunks[i].Readable(|chunks[i].planes|, FLOAT_SIZE))
    requires InTime(rate, chunks)
    decreases |chunks|
  {
    if chunks == [] then PauseRun(pause, [])
    else
      var n := |chunks| - 1;
      var before := Run(rate, pause, chunks[..n], moment, end);
      var r := Check(rate, if n == moment then Ended(before.pause, end) else before.pause, chunks[n]);
      PauseRun(r.pause, if r.ignored then before.passed else before.passed + [r.audio])
  }

  /** The chunk that ends the pause: the first one after `start` that holds `end`, once that is known. */
  ghost function Release(rate: nat, chunks: seq<Audio>, start: u64, moment: nat, end: u64): Option<nat>
    requires rate > 0
    decreases |chunks|
  {
    if chunks == [] then None
    else
      var n := |chunks| - 1;
      var before := Release(rate, chunks[..n], start, moment, end);
      if before.Some? then before
      else if n >= moment && start < chunks[n].timestamp <= end <= chunks[n].EndTs(rate) then Some(n)
      else None
  }

  /** Time `ts` lies in chunk `i`, `frame` frames into the run. */
  ghost predicate IsPoint(rate: nat, chunks: seq<Audio>, i: nat, ts: nat, frame: nat)
    requires rate > 0
  {
    && i < |chunks|
    && chunks[i].timestamp <= ts <= chunks[i].EndTs(rate)
    && frame == FramesIn(chunks[..i]) + NsToFrames(rate, ts - chunks[i].timestamp)
  }

  /** Measured in its chunk, the frame starts within one sample period before the time, and never after it. */
  lemma PointIsClose(rate: nat, chunks: seq<Audio>, i: nat, ts: nat, frame: nat)
    requires rate > 0 && IsPoint(rate, chunks, i, ts, frame)
    ensures FramesIn(chunks[..i]) <= frame <= FramesIn(chunks[..i]) + chunks[i].frames
    ensures (frame - FramesIn(chunks[..i])) * NS_PER_SEC
         <= (ts - chunks[i].timestamp) * rate
         < (frame - FramesIn(chunks[..i]) + 1) * NS_PER_SEC
  {
    CutInRange(rate, chunks[i], ts);
    NsToFramesBounds(rate, ts - chunks[i].timestamp);
  }

  /** The number of frames of chunk `c` that lie before the pause's start. */
  ghost function FramesBefore(rate: nat, c: Audio, start: u64): nat
    requires rate > 0
  {
    if start < c.timestamp then 0
    else if start <= c.EndTs(rate) then NsToFrames(rate, start - c.timestamp)
    else c.frames
  }

  /** Where the part before the pause ends. */
  ghost function CutFrame(rate: nat, chunks: seq<Audio>, start: u64): nat
    requires rate > 0
    decreases |chunks|
  {
    if chunks == [] then 0
    else
      var n := |chunks| - 1;
      CutFrame(rate, chunks[..n], start) + FramesBefore(rate, chunks[n], start)
  }

  /** Where the part after the pause starts. */
  ghost function ResumeFrame(rate: nat, chunks: seq<Audio>, k: nat, end: u64): nat
    requires rate > 0 && k < |chunks| && chunks[k].timestamp <= end
  {
    FramesIn(chunks[..k]) + NsToFrames(rate, end - chunks[k].timestamp)
  }

  lemma ContiguousPrefix(rate: nat, chunks: seq<Audio>, n: nat)
    requires rate > 0 && Contiguous(rate, chunks) && n <= |chunks|
    ensures Contiguous(rate, chunks[..n])
  {
    forall i | 0 < i < n
      ensures Follows(rate, chunks[..n], i)
    {
      assert Follows(rate, chunks, i);
    }
  }

  lemma PointOfPrefix(rate: nat, chunks: seq<Audio>, n: nat, i: nat, ts: nat, frame: nat)
    requires rate > 0 && n <= |chunks| && IsPoint(rate, chunks[..n], i, ts, frame)
    ensures IsPoint(rate, chunks, i, ts, frame)
  {
    assert chunks[..n][..i] == chunks[..i];
  }

  lemma {:induction false} CutStep(rate: nat, chunks: seq<Audio>, start: u64)
    requires rate > 0 && Contiguous(rate, chunks) && chunks != [] && chunks[0].timestamp <= start
    ensures var n := |chunks| - 1;
      var before := CutFrame(rate, chunks[..n], start);
      && before <= FramesIn(chunks[..n])
      && FramesBefore(rate, chunks[n], start) <= chunks[n].frames
      && (before == FramesIn(chunks[..n]) || FramesBefore(rate, chunks[n], start) == 0)
      && (chunks[n].EndTs(rate) < start ==> CutFrame(rate, chunks, start) == FramesIn(chunks))
    decreases |chunks|
  {
    var n := |chunks| - 1;
    if chunks[n].timestamp <= start <= chunks[n].EndTs(rate) {
      CutInRange(rate, chunks[n], start);
    }
    if n == 0 {
    } else {
      ContiguousPrefix(rate, chunks, n);
      CutStep(rate, chunks[..n], start);
      assert chunks[..n][n - 1] == chunks[n - 1];
      assert Follows(rate, chunks, n);
      assert NsToFrames(rate, 0) == 0;
    }
  }

  /** The cut is where the pause starts, to within one frame; or nothing is cut yet. */
  lemma {:induction false} CutIsPoint(rate: nat, chunks: seq<Audio>, start: u64) returns (i: nat)
    requires rate > 0 && Contiguous(rate, chunks) && chunks != [] && chunks[0].timestamp <= start
    ensures start <= chunks[|chunks| - 1].EndTs(rate) ==>
      IsPoint(rate, chunks, i, start, CutFrame(rate, chunks, start))
    ensures start > chunks[|chunks| - 1].EndTs(rate) ==> CutFrame(rate, chunks, start) == FramesIn(chunks)
    decreases |chunks|
  {
    var n := |chunks| - 1;
    i := n;
    CutStep(rate, chunks, start);
    if n > 0 && start <= chunks[n].timestamp {
      ContiguousPrefix(rate, chunks, n);
      i := CutIsPoint(rate, chunks[..n], start);
      assert Follows(rate, chunks, n) && chunks[..n][n - 1] == chunks[n - 1];
      assert NsToFrames(rate, 0) == 0;
      PointOfPrefix(rate, chunks, n, i, start, CutFrame(rate, chunks[..n], start));
    } else if start <= chunks[n].EndTs(rate) {
      if n > 0 {
        ContiguousPrefix(rate, chunks, n);
        CutStep(rate, chunks[..n], start);
        assert Follows(rate, chunks, n) && chunks[..n][n - 1] == chunks[n - 1];
      }
    }
  }

  lemma StreamAppend(chunks: seq<Audio>, last: Audio, planeCount: nat, blocksize: nat, p: nat)
    requires p < planeCount && AllReadable(chunks, planeCount, blocksize) && last.Readable(planeCount, blocksize)
    ensures AllReadable(chunks + [last], planeCount, blocksize)
    ensures Stream(chunks + [last], planeCount, blocksize, p)
         == Stream(chunks, planeCount, blocksize, p) + last.Data(p, blocksize)
  {
    assert (chunks + [last])[..|chunks|] == chunks;
  }

  lemma FramesUpTo(chunks: seq<Audio>, i: nat)
    requires i < |chunks|
    ensures FramesIn(chunks[..i]) + chunks[i].frames <= FramesIn(chunks)
    decreases |chunks|
  {
    var n := |chunks| - 1;
    if i < n {
      FramesUpTo(chunks[..n], i);
      assert chunks[..n][..i] == chunks[..i];
    }
  }

  lemma {:induction false} ReleaseInRange(rate: nat, chunks: seq<Audio>, start: u64, moment: nat, end: u64)
    requires rate > 0
    ensures var r := Release(rate, chunks, start, moment, end);
      && (r.Some? ==> moment <= r.value < |chunks|)
      && (r.Some? ==> start < chunks[r.value].timestamp <= end <= chunks[r.value].EndTs(rate))
      && (r.None? ==> forall k :: moment <= k < |chunks| ==>
            !(start < chunks[k].timestamp <= end <= chunks[k].EndTs(rate)))
    decreases |chunks|
  {
    if chunks == [] {
    } else {
      ReleaseInRange(rate, chunks[..|chunks| - 1], start, moment, end);
    }
  }

  lemma {:induction false} TimesOrdered(rate: nat, chunks: seq<Audio>, i: nat, j: nat)
    requires rate > 0 && Contiguous(rate, chunks) && i <= j < |chunks|
    ensures chunks[i].timestamp <= chunks[j].timestamp
    decreases j
  {
    if i == j {
    } else {
      TimesOrdered(rate, chunks, i, j - 1);
      assert Follows(rate, chunks, j);
    }
  }

  /** The stream without the pause. */
  ghost function Spliced(all: bytes, cut: nat, resume: Option<nat>): bytes
    requires cut * FLOAT_SIZE <= |all| && (resume.Some? ==> resume.value * FLOAT_SIZE <= |all|)
  {
    all[..cut * FLOAT_SIZE] + (if resume.Some? then all[resume.value * FLOAT_SIZE..] else [])
  }

  /** Where the stream goes on, if it does. */
  ghost function Resume(rate: nat, chunks: seq<Audio>, start: u64, moment: nat, end: u64): (r: Option<nat>)
    requires rate > 0
    ensures r.Some? ==> r.value <= FramesIn(chunks)
  {
    var k := Release(rate, chunks, start, moment, end);
    if k.None? then None
    else
      ReleaseInRange(rate, chunks, start, moment, end);
      CutInRange(rate, chunks[k.value], end);
      FramesUpTo(chunks, k.value);
      Some(ResumeFrame(rate, chunks, k.value, end))
  }

  /** What one more chunk adds. */
  lemma SplicedStep(all: bytes, cut: nat, resume: Option<nat>, data: bytes, more: nat, resume': Option<nat>)
    requires cut * FLOAT_SIZE <= |all| && (resume.Some? ==> resume.value * FLOAT_SIZE <= |all|)
    requires more * FLOAT_SIZE <= |data| && (cut * FLOAT_SIZE == |all| || more == 0)
    requires resume.Some? ==> more == 0 && resume' == resume
    requires resume.None? && resume'.Some? ==> more == 0 && |all| <= resume'.value * FLOAT_SIZE <= |all| + |data|
    ensures Spliced(all + data, cut + more, resume') == Spliced(all, cut, resume) +
      (if resume.Some? then data
       else if resume'.Some? then data[resume'.value * FLOAT_SIZE - |all|..]
       else data[..more * FLOAT_SIZE])
  {
    assert (all + data)[..(cut + more) * FLOAT_SIZE] == all[..cut * FLOAT_SIZE] + data[..more * FLOAT_SIZE];
    if resume.Some? {
      assert (all + data)[resume.value * FLOAT_SIZE..] == all[resume.value * FLOAT_SIZE..] + data;
    } else if resume'.Some? {
      assert (all + data)[resume'.value * FLOAT_SIZE..] == data[resume'.value * FLOAT_SIZE - |all|..];
    }
  }

  /** `piece` is what the check against `now` lets through of the chunk's `data`. */
  ghost predicate IsPiece(rate: nat, now: Pause, c: Audio, data: bytes, piece: bytes)
    requires rate > 0 && |data| == c.frames * FLOAT_SIZE
  {
    if now.start == 0 then piece == data
    else if now.start < c.timestamp <= now.end <= c.EndTs(rate) then
      var n := NsToFrames(rate, now.end - c.timestamp);
      n <= c.frames && piece == data[n * FLOAT_SIZE..]
    else
      var n := FramesBefore(rate, c, now.start);
      n <= c.frames && piece == data[..n * FLOAT_SIZE]
  }

  /** What one check lets through of plane `p`. */
  ghost function Piece(r: Checked, planeCount: nat, p: nat): bytes
    requires p < planeCount && r.audio.Readable(planeCount, FLOAT_SIZE)
  {
    if r.ignored then [] else r.audio.Data(p, FLOAT_SIZE)
  }

  lemma CheckedData(rate: nat, pause: Pause, audio: Audio, planeCount: nat, p: nat)
    requires rate > 0 && p < planeCount && audio.Readable(planeCount, FLOAT_SIZE) && audio.EndTs(rate) < TWO_64
    ensures var r := Check(rate, pause, audio);
      var data := audio.Data(p, FLOAT_SIZE);
      && r.audio.Readable(planeCount, FLOAT_SIZE)
      && IsPiece(rate, pause, audio, data, Piece(r, planeCount, p))
  {
    if 0 < pause.start && audio.timestamp <= pause.start <= audio.EndTs(rate) {
      CutInRange(rate, audio, pause.start);
    } else if 0 < pause.start < audio.timestamp <= pause.end <= audio.EndTs(rate) {
      CutInRange(rate, audio, pause.end);
    }
  }

  /** How one more chunk changes where the stream goes on. */
  lemma ResumeStep(rate: nat, chunks: seq<Audio>, start: u64, moment: nat, end: u64)
    requires rate > 0 && Contiguous(rate, chunks) && chunks != []
    ensures var n := |chunks| - 1;
      var resume := Resume(rate, chunks[..n], start, moment, end);
      Resume(rate, chunks, start, moment, end) ==
        if resume.Some? then resume
        else if n >= moment && start < chunks[n].timestamp <= end <= chunks[n].EndTs(rate) then
          Some(FramesIn(chunks[..n]) + NsToFrames(rate, end - chunks[n].timestamp))
        else None
    ensures Resume(rate, chunks[..|chunks| - 1], start, moment, end).Some? ==> start < chunks[|chunks| - 1].timestamp
  {
    var n := |chunks| - 1;
    var k := Release(rate, chunks[..n], start, moment, end);
    ReleaseInRange(rate, chunks[..n], start, moment, end);
    if k.Some? {
      TimesOrdered(rate, chunks, k.value, n);
      assert chunks[..n][..k.value] == chunks[..k.value];
    }
  }

  ghost function PauseAfter(pause: Pause, n: nat, moment: nat, end: u64, released: bool): Pause {
    var known := if n > moment then Ended(pause, end) else pause;
    if released then known.(start := 0, end := 0) else known
  }

  /** The pause that the last chunk is checked against. */
  ghost function PauseNow(pause: Pause, n: nat, moment: nat, end: u64, released: bool): Pause {
    var before := PauseAfter(pause, n, moment, end, released);
    if n == moment then Ended(before, end) else before
  }

  /** What has passed of plane `p` is the stream without the pause. */
  ghost predicate PlaneCut(rate: nat, start: u64, chunks: seq<Audio>, moment: nat, end: u64, planeCount: nat, p: nat,
                           passed: seq<Audio>)
    requires rate > 0 && p < planeCount && AllReadable(chunks, planeCount, FLOAT_SIZE)
  {
    && AllReadable(passed, planeCount, FLOAT_SIZE)
    && CutFrame(rate, chunks, start) <= FramesIn(chunks)
    && Stream(passed, planeCount, FLOAT_SIZE, p) ==
         Spliced(Stream(chunks, planeCount, FLOAT_SIZE, p), CutFrame(rate, chunks, start),
                 Resume(rate, chunks, start, moment, end))
  }

  lemma CheckedPause(rate: nat, pause: Pause, audio: Audio)
    requires rate > 0 && audio.Readable(|audio.planes|, FLOAT_SIZE) && audio.EndTs(rate) < TWO_64
    ensures Check(rate, pause, audio).pause ==
      if 0 < pause.start < audio.timestamp <= pause.end <= audio.EndTs(rate) then pause.(start := 0, end := 0)
      else pause
  {
  }

  lemma PauseAfterStep(pause: Pause, n: nat, moment: nat, end: u64, released: bool, now: bool)
    requires pause.start > 0 && pause.end == 0 && (now ==> !released && n >= moment) && (released ==> n > moment)
    ensures var before := PauseNow(pause, n, moment, end, released);
      && PauseAfter(pause, n + 1, moment, end, released || now)
           == (if now then before.(start := 0, end := 0) else before)
      && before.start == (if released then 0 else pause.start)
      && (!released && n >= moment ==> before.end == end)
      && (!released && n < moment ==> before.end == 0)
  {
  }

  /** The pause is cleared by the chunk that holds its end, and by no other. */
  lemma {:induction false} PauseState(rate: nat, pause: Pause, chunks: seq<Audio>, moment: nat, end: u64,
                                      planeCount: nat)
    requires rate > 0 && AllReadable(chunks, planeCount, FLOAT_SIZE) && Contiguous(rate, chunks)
    requires pause.start > 0 && pause.end == 0 && (chunks != [] ==> chunks[0].timestamp <= pause.start)
    ensures Run(rate, pause, chunks, moment, end).pause
      == PauseAfter(pause, |chunks|, moment, end, Resume(rate, chunks, pause.start, moment, end).Some?)
    decreases |chunks|
  {
    if chunks == [] {
    } else {
      var n := |chunks| - 1;
      ContiguousPrefix(rate, chunks, n);
      PauseState(rate, pause, chunks[..n], moment, end, planeCount);
      ResumeStep(rate, chunks, pause.start, moment, end);
      var released := Resume(rate, chunks[..n], pause.start, moment, end).Some?;
      var now := !released && n >= moment && pause.start < chunks[n].timestamp <= end <= chunks[n].EndTs(rate);
      ReleaseInRange(rate, chunks[..n], pause.start, moment, end);
      PauseAfterStep(pause, n, moment, end, released, now);
      CheckedPause(rate, PauseNow(pause, n, moment, end, released), chunks[n]);
    }
  }

  lemma PlaneStep(rate: nat, pause: Pause, chunks: seq<Audio>, moment: nat, end: u64, planeCount: nat, p: nat,
                  passed: seq<Audio>)
    requires rate > 0 && AllReadable(chunks, planeCount, FLOAT_SIZE) && Contiguous(rate, chunks) && chunks != []
    requires pause.start > 0 && pause.end == 0 && chunks[0].timestamp <= pause.start && p < planeCount
    requires PlaneCut(rate, pause.start, chunks[..|chunks| - 1], moment, end, planeCount, p, passed)
    ensures var n := |chunks| - 1;
      var released := Resume(rate, chunks[..n], pause.start, moment, end).Some?;
      var r := Check(rate, PauseNow(pause, n, moment, end, released), chunks[n]);
      PlaneCut(rate, pause.start, chunks, moment, end, planeCount, p, if r.ignored then passed else passed + [r.audio])
  {
    var n := |chunks| - 1;
    var released := Resume(rate, chunks[..n], pause.start, moment, end).Some?;
    var now := PauseNow(pause, n, moment, end, released);
    ReleaseInRange(rate, chunks[..n], pause.start, moment, end);
    PauseAfterStep(pause, n, moment, end, released, false);
    CheckedData(rate, now, chunks[n], planeCount, p);
    PassStep(rate, pause.start, chunks, moment, end, planeCount, p, now,
             Piece(Check(rate, now, chunks[n]), planeCount, p));
    PassAppend(passed, Check(rate, now, chunks[n]), planeCount, p);
  }

  lemma PassAppend(passed: seq<Audio>, r: Checked, planeCount: nat, p: nat)
    requires p < planeCount && AllReadable(passed, planeCount, FLOAT_SIZE) && r.audio.Readable(planeCount, FLOAT_SIZE)
    ensures var passed' := if r.ignored then passed else passed + [r.audio];
      && AllReadable(passed', planeCount, FLOAT_SIZE)
      && Stream(passed', planeCount, FLOAT_SIZE, p)
         == Stream(passed, planeCount, FLOAT_SIZE, p) + Piece(r, planeCount, p)
  {
    if !r.ignored {
      StreamAppend(passed, r.audio, planeCount, FLOAT_SIZE, p);
    }
  }

  lemma StreamUnfolds(rate: nat, chunks: seq<Audio>, start: u64, planeCount: nat, p: nat, blocksize: nat)
    requires rate > 0 && AllReadable(chunks, planeCount, blocksize) && chunks != [] && p < planeCount
    ensures var n := |chunks| - 1;
      && FramesIn(chunks) == FramesIn(chunks[..n]) + chunks[n].frames
      && Stream(chunks, planeCount, blocksize, p)
         == Stream(chunks[..n], planeCount, blocksize, p) + chunks[n].Data(p, blocksize)
      && CutFrame(rate, chunks, start) == CutFrame(rate, chunks[..n], start) + FramesBefore(rate, chunks[n], start)
  {
  }

  /** The last chunk adds to one plane what belongs there. */
  lemma PassStep(rate: nat, start: u64, chunks: seq<Audio>, moment: nat, end: u64, planeCount: nat, p: nat, now: Pause,
                 piece: bytes)
    requires rate > 0 && AllReadable(chunks, planeCount, FLOAT_SIZE) && Contiguous(rate, chunks) && chunks != []
    requires start > 0 && chunks[0].timestamp <= start && p < planeCount
    requires CutFrame(rate, chunks[..|chunks| - 1], start) <= FramesIn(chunks[..|chunks| - 1])
    requires var n := |chunks| - 1;
      if Resume(rate, chunks[..n], start, moment, end).Some? then now.start == 0
      else now.start == start && now.end == if n >= moment then end else 0
    requires IsPiece(rate, now, chunks[|chunks| - 1], chunks[|chunks| - 1].Data(p, FLOAT_SIZE), piece)
    ensures CutFrame(rate, chunks, start) <= FramesIn(chunks)
    ensures var n := |chunks| - 1;
      Spliced(Stream(chunks, planeCount, FLOAT_SIZE, p), CutFrame(rate, chunks, start),
              Resume(rate, chunks, start, moment, end))
      == Spliced(Stream(chunks[..n], planeCount, FLOAT_SIZE, p), CutFrame(rate, chunks[..n], start),
                 Resume(rate, chunks[..n], start, moment, end))
         + piece
  {
    var n := |chunks| - 1;
    var all, data := Stream(chunks[..n], planeCount, FLOAT_SIZE, p), chunks[n].Data(p, FLOAT_SIZE);
    var resume, resume' := Resume(rate, chunks[..n], start, moment, end), Resume(rate, chunks, start, moment, end);
    assert Stream(chunks, planeCount, FLOAT_SIZE, p) == all + data
        && CutFrame(rate, chunks, start) == CutFrame(rate, chunks[..n], start) + FramesBefore(rate, chunks[n], start)
        && FramesIn(chunks) == FramesIn(chunks[..n]) + chunks[n].frames by {
      StreamUnfolds(rate, chunks, start, planeCount, p, FLOAT_SIZE);
    }
    ResumeStep(rate, chunks, start, moment, end);
    CutStep(rate, chunks, start);
    PieceStep(rate, chunks[n], all, data, FramesIn(chunks[..n]), CutFrame(rate, chunks[..n], start), start, resume,
              resume', now, piece, n >= moment, end, Stream(chunks, planeCount, FLOAT_SIZE, p),
              CutFrame(rate, chunks, start));
  }

  lemma PieceStep(rate: nat, c: Audio, all: bytes, data: bytes, frames: nat, cut: nat, start: u64,
                  resume: Option<nat>, resume': Option<nat>, now: Pause, piece: bytes, known: bool, end: u64,
                  whole: bytes, cutAll: nat)
    requires rate > 0 && start > 0
    requires |all| == frames * FLOAT_SIZE && |data| == c.frames * FLOAT_SIZE
    requires cut <= frames && (cut == frames || FramesBefore(rate, c, start) == 0)
    requires FramesBefore(rate, c, start) <= c.frames
    requires resume.Some? ==> resume.value <= frames && resume' == resume && start < c.timestamp && now.start == 0
    requires resume.None? ==> now.start == start && now.end == (if known then end else 0)
    requires
      var released := known && start < c.timestamp <= end <= c.EndTs(rate);
      resume.None? ==> resume' == if released then Some(frames + NsToFrames(rate, end - c.timestamp)) else None
    requires whole == all + data && cutAll == cut + FramesBefore(rate, c, start)
    requires IsPiece(rate, now, c, data, piece)
    ensures resume'.Some? ==> resume'.value <= frames + c.frames
    ensures Spliced(whole, cutAll, resume') == Spliced(all, cut, resume) + piece
  {
    SplicedStep(all, cut, resume, data, FramesBefore(rate, c, start), resume');
  }

  lemma {:induction false} PlaneIsCut(rate: nat, pause: Pause, chunks: seq<Audio>, moment: nat, end: u64,
                                      planeCount: nat, p: nat)
    requires rate > 0 && AllReadable(chunks, planeCount, FLOAT_SIZE) && Contiguous(rate, chunks)
    requires pause.start > 0 && pause.end == 0 && (chunks != [] ==> chunks[0].timestamp <= pause.start)
    requires p < planeCount
    ensures PlaneCut(rate, pause.start, chunks, moment, end, planeCount, p,
                     Run(rate, pause, chunks, moment, end).passed)
    decreases |chunks|
  {
    if chunks == [] {
    } else {
      var n := |chunks| - 1;
      var run := Run(rate, pause, chunks[..n], moment, end);
      ContiguousPrefix(rate, chunks, n);
      PlaneIsCut(rate, pause, chunks[..n], moment, end, planeCount, p);
      PauseState(rate, pause, chunks[..n], moment, end, planeCount);
      PlaneStep(rate, pause, chunks, moment, end, planeCount, p, run.passed);
    }
  }

  /**
   Pausing cuts the right samples. What gets through is the stream up to the pause's start and, once a later chunk
   holds the pause's end, the stream from there on; the pause is cleared by that chunk, and by no other. If the end
   lies in no chunk after the one that holds the start, nothing gets through any more.
   */
  lemma PauseCutsSamples(rate: nat, pause: Pause, chunks: seq<Audio>, moment: nat, end: u64, planeCount: nat)
    requires rate > 0 && AllReadable(chunks, planeCount, FLOAT_SIZE) && Contiguous(rate, chunks)
    requires pause.start > 0 && pause.end == 0 && (chunks != [] ==> chunks[0].timestamp <= pause.start)
    ensures var run := Run(rate, pause, chunks, moment, end);
      var resume := Resume(rate, chunks, pause.start, moment, end);
      && (forall p :: 0 <= p < planeCount ==>
            PlaneCut(rate, pause.start, chunks, moment, end, planeCount, p, run.passed))
      && run.pause == PauseAfter(pause, |chunks|, moment, end, resume.Some?)
      && (resume.Some? <==>
            exists k :: moment <= k < |chunks| && pause.start < chunks[k].timestamp <= end <= chunks[k].EndTs(rate))
  {
    PauseState(rate, pause, chunks, moment, end, planeCount);
    ReleaseInRange(rate, chunks, pause.start, moment, end);
    forall p | 0 <= p < planeCount
      ensures PlaneCut(rate, pause.start, chunks, moment, end, planeCount, p,
                       Run(rate, pause, chunks, moment, end).passed)
    {
      PlaneIsCut(rate, pause, chunks, moment, end, planeCount, p);
    }
  }

  lemma OffsetGrows(offset: u64, start: u64, end: u64)
    ensures Wrap64(offset + Wrap64(end - start)) == Wrap64(offset + end - start)
  {
  }

  lemma CheckedStamp(rate: nat, pause: Pause, audio: Audio)
    requires rate > 0 && audio.Readable(|audio.planes|, FLOAT_SIZE) && audio.EndTs(rate) < TWO_64
    ensures var r := Check(rate, pause, audio);
      && r.pause.offset == pause.offset
      && r.audio.timestamp == Wrap64((if 0 < pause.start < audio.timestamp <= pause.end <= audio.EndTs(rate)
           then pause.start else audio.timestamp) - pause.offset)
  {
  }

  /** The pause that the last chunk of a run is checked against. */
  ghost function InForce(rate: nat, pause: Pause, chunks: seq<Audio>, moment: nat, end: u64, planeCount: nat): Pause
    requires rate > 0 && AllReadable(chunks, planeCount, FLOAT_SIZE) && InTime(rate, chunks) && chunks != []
  {
    var n := |chunks| - 1;
    var before := Run(rate, pause, chunks[..n], moment, end).pause;
    if n == moment then Ended(before, end) else before
  }

  lemma LastChunkChecked(rate: nat, pause: Pause, chunks: seq<Audio>, moment: nat, end: u64, planeCount: nat,
                         r: Checked)
    requires rate > 0 && AllReadable(chunks, planeCount, FLOAT_SIZE) && InTime(rate, chunks) && chunks != []
    requires r == Check(rate, InForce(rate, pause, chunks, moment, end, planeCount), chunks[|chunks| - 1])
    ensures var before := Run(rate, pause, chunks[..|chunks| - 1], moment, end);
      Run(rate, pause, chunks, moment, end) ==
      PauseRun(r.pause, if r.ignored then before.passed else before.passed + [r.audio])
  {
  }

  lemma PauseNowIs(pause: Pause, n: nat, moment: nat, end: u64, released: bool)
    requires pause.start > 0 && pause.end == 0 && (released ==> n > moment)
    ensures var now := PauseNow(pause, n, moment, end, released);
      && now.offset == (if n < moment then pause.offset else Wrap64(pause.offset + end - pause.start))
      && now.start == (if released then 0 else pause.start)
      && (!released ==> now.end == if n < moment then 0 else end)
  {
    OffsetGrows(pause.offset, pause.start, end);
  }

  lemma ReleasedLast(rate: nat, chunks: seq<Audio>, start: u64, moment: nat, end: u64, c: Audio)
    requires rate > 0 && chunks != [] && c == chunks[|chunks| - 1]
    ensures var n := |chunks| - 1;
      var before := Release(rate, chunks[..n], start, moment, end);
      && (before.Some? ==> moment <= before.value < n)
      && (Release(rate, chunks, start, moment, end) == Some(n) <==>
           before.None? && n >= moment && start < c.timestamp <= end <= c.EndTs(rate))
  {
    ReleaseInRange(rate, chunks[..|chunks| - 1], start, moment, end);
  }

  lemma PauseInForce(rate: nat, pause: Pause, chunks: seq<Audio>, moment: nat, end: u64, planeCount: nat, now: Pause,
                     c: Audio)
    requires rate > 0 && AllReadable(chunks, planeCount, FLOAT_SIZE) && Contiguous(rate, chunks)
    requires pause.start > 0 && pause.end == 0 && chunks != [] && chunks[0].timestamp <= pause.start
    requires now == InForce(rate, pause, chunks, moment, end, planeCount) && c == chunks[|chunks| - 1]
    ensures var n := |chunks| - 1;
      && now.offset == (if n < moment then pause.offset else Wrap64(pause.offset + end - pause.start))
      && (0 < now.start < c.timestamp <= now.end <= c.EndTs(rate) <==>
           Release(rate, chunks, pause.start, moment, end) == Some(n))
      && (now.start > 0 ==> now.start == pause.start)
  {
    var n := |chunks| - 1;
    var released := Release(rate, chunks[..n], pause.start, moment, end).Some?;
    assert now == PauseNow(pause, n, moment, end, released) by {
      ContiguousPrefix(rate, chunks, n);
      PauseState(rate, pause, chunks[..n], moment, end, planeCount);
    }
    ReleasedLast(rate, chunks, pause.start, moment, end, c);
    PauseNowIs(pause, n, moment, end, released);
  }

  /** The time stamp of a chunk that gets through: its own, or the pause's start if it ends the pause, less the length
      of all pauses; that of this one counts from the moment its end is known. */
  ghost function Stamp(rate: nat, pause: Pause, chunks: seq<Audio>, moment: nat, end: u64): u64
    requires rate > 0 && chunks != []
  {
    var n := |chunks| - 1;
    var time := if Release(rate, chunks, pause.start, moment, end) == Some(n) then pause.start else chunks[n].timestamp;
    Wrap64(time - if n < moment then pause.offset else Wrap64(pause.offset + end - pause.start))
  }

  /** Every chunk that gets through is stamped like that, and goes behind those before it. */
  lemma ChunkStamped(rate: nat, pause: Pause, chunks: seq<Audio>, moment: nat, end: u64, planeCount: nat)
    requires rate > 0 && AllReadable(chunks, planeCount, FLOAT_SIZE) && Contiguous(rate, chunks)
    requires pause.start > 0 && pause.end == 0 && chunks != [] && chunks[0].timestamp <= pause.start
    ensures var before := Run(rate, pause, chunks[..|chunks| - 1], moment, end).passed;
      var passed := Run(rate, pause, chunks, moment, end).passed;
      passed == before || (
        && |passed| == |before| + 1 && passed[..|before|] == before
        && passed[|before|].timestamp == Stamp(rate, pause, chunks, moment, end))
  {
    var now, c := InForce(rate, pause, chunks, moment, end, planeCount), chunks[|chunks| - 1];
    var r := Check(rate, now, c);
    assert r.audio.timestamp == Stamp(rate, pause, chunks, moment, end) by {
      PauseInForce(rate, pause, chunks, moment, end, planeCount, now, c);
      CheckedStamp(rate, now, c);
    }
    LastChunkChecked(rate, pause, chunks, moment, end, planeCount, r);
  }

  /** A pause that ends before the chunk in which it starts does is never over. */
  lemma NeverReleased(rate: nat, chunks: seq<Audio>, i: nat, start: u64, moment: nat, end: u64)
    requires rate > 0 && Contiguous(rate, chunks) && i < |chunks|
    requires chunks[i].timestamp <= start <= end < chunks[i].EndTs(rate)
    ensures Resume(rate, chunks, start, moment, end) == None
  {
    ReleaseInRange(rate, chunks, start, moment, end);
    var k := Release(rate, chunks, start, moment, end);
    if k.Some? {
      if k.value <= i {
        TimesOrdered(rate, chunks, k.value, i);
      } else {
        assert Follows(rate, chunks, i + 1);
        TimesOrdered(rate, chunks, i + 1, k.value);
      }
      assert false;
    }
  }

  /** At 1000 frames a second, a pause from 102 to 105 ms within the chunk from 100 to 110 ms: the first two frames get
      through, and then nothing. */
  lemma PauseInsideOneChunk(plane: bytes, a: Audio, b: Audio, pause: Pause)
    requires |plane| == 40
    requires a == Audio([plane], 10, 100_000_000) && b == Audio([plane], 10, 110_000_000)
    requires pause == Pause(102_000_000, 0, 0)
    ensures InTime(1000, [a, b])
    ensures forall i :: 0 <= i < 2 ==> [a, b][i].Readable(|[a, b][i].planes|, FLOAT_SIZE)
    ensures var run := Run(1000, pause, [a, b], 1, 105_000_000);
      run.passed == [a.(frames := 2)] && run.pause == Pause(102_000_000, 105_000_000, 3_000_000)
  {
    var chunks := [a, b];
    assert a.EndTs(1000) == 110_000_000 && b.EndTs(1000) == 120_000_000;
    assert NsToFrames(1000, 2_000_000) == 2;
    assert chunks[..1] == [a] && [a][..0] == [];
    assert Run(1000, pause, [], 1, 105_000_000) == PauseRun(pause, []);
    assert Check(1000, pause, a) == Checked(pause, a.(frames := 2), false);
    assert Run(1000, pause, [a], 1, 105_000_000) == PauseRun(pause, [a.(frames := 2)]);
    assert Check(1000, Ended(pause, 105_000_000), b).ignored;
  }

  // ---------- Several pauses ----------

  /** The chunks from the end of one pause to the end of the next, which starts at `start` and whose end becomes known
      as `end` right before chunk `moment`. */
  datatype Stretch = Stretch(chunks: seq<Audio>, start: u64, moment: nat, end: u64)

  ghost predicate HasPause(rate: nat, st: Stretch, planeCount: nat)
    requires rate > 0
  {
    && AllReadable(st.chunks, planeCount, FLOAT_SIZE) && Contiguous(rate, st.chunks)
    && st.start > 0 && (st.chunks != [] ==> st.chunks[0].timestamp <= st.start)
  }

  /** A pause can only start when the one before it is over. */
  ghost predicate PausesInTurn(rate: nat, sts: seq<Stretch>, planeCount: nat)
    requires rate > 0
  {
    && (forall i :: 0 <= i < |sts| ==> HasPause(rate, sts[i], planeCount))
    && (forall i :: 0 <= i < |sts| - 1 ==> Over(rate, sts[i]))
  }

  ghost predicate Over(rate: nat, st: Stretch)
    requires rate > 0
  {
    Resume(rate, st.chunks, st.start, st.moment, st.end).Some?
  }

  ghost function RunAll(rate: nat, pause: Pause, sts: seq<Stretch>, planeCount: nat): PauseRun
    requires rate > 0 && PausesInTurn(rate, sts, planeCount)
    decreases |sts|
  {
    if sts == [] then PauseRun(pause, [])
    else
      var last := sts[|sts| - 1];
      InTurnPrefix(rate, sts, planeCount);
      var before := RunAll(rate, pause, sts[..|sts| - 1], planeCount);
      var r := Run(rate, before.pause.(start := last.start), last.chunks, last.moment, last.end);
      PauseRun(r.pause, before.passed + r.passed)
  }

  lemma InTurnPrefix(rate: nat, sts: seq<Stretch>, planeCount: nat)
    requires rate > 0 && PausesInTurn(rate, sts, planeCount) && sts != []
    ensures PausesInTurn(rate, sts[..|sts| - 1], planeCount) && HasPause(rate, sts[|sts| - 1], planeCount)
    ensures |sts| > 1 ==> Over(rate, sts[|sts| - 2])
  {
    assert forall i :: 0 <= i < |sts| - 1 ==> sts[..|sts| - 1][i] == sts[i];
  }

  lemma StretchFits(rate: nat, st: Stretch, planeCount: nat, p: nat)
    requires rate > 0 && HasPause(rate, st, planeCount) && p < planeCount
    ensures CutFrame(rate, st.chunks, st.start) <= FramesIn(st.chunks)
  {
    PlaneIsCut(rate, Pause(st.start, 0, 0), st.chunks, st.moment, st.end, planeCount, p);
  }

  /** A stretch without its pause. */
  ghost function Remaining(rate: nat, st: Stretch, planeCount: nat, p: nat): bytes
    requires rate > 0 && HasPause(rate, st, planeCount) && p < planeCount
  {
    StretchFits(rate, st, planeCount, p);
    Spliced(Stream(st.chunks, planeCount, FLOAT_SIZE, p), CutFrame(rate, st.chunks, st.start),
            Resume(rate, st.chunks, st.start, st.moment, st.end))
  }

  /** The stretches without their pauses, one behind the other. */
  ghost function AllRemaining(rate: nat, sts: seq<Stretch>, planeCount: nat, p: nat): bytes
    requires rate > 0 && PausesInTurn(rate, sts, planeCount) && p < planeCount
    decreases |sts|
  {
    if sts == [] then []
    else
      InTurnPrefix(rate, sts, planeCount);
      AllRemaining(rate, sts[..|sts| - 1], planeCount, p) + Remaining(rate, sts[|sts| - 1], planeCount, p)
  }

  lemma StretchCut(rate: nat, pause: Pause, st: Stretch, planeCount: nat, p: nat, run: PauseRun)
    requires rate > 0 && HasPause(rate, st, planeCount) && p < planeCount
    requires pause.start == st.start && pause.end == 0
    requires run == Run(rate, pause, st.chunks, st.moment, st.end)
    ensures AllReadable(run.passed, planeCount, FLOAT_SIZE)
    ensures Stream(run.passed, planeCount, FLOAT_SIZE, p) == Remaining(rate, st, planeCount, p)
    ensures Over(rate, st) ==> run.pause.start == 0 && run.pause.end == 0
  {
    PlaneIsCut(rate, pause, st.chunks, st.moment, st.end, planeCount, p);
    PauseState(rate, pause, st.chunks, st.moment, st.end, planeCount);
  }

  lemma {:induction false} StreamConcat(a: seq<Audio>, b: seq<Audio>, planeCount: nat, p: nat)
    requires p < planeCount && AllReadable(a, planeCount, FLOAT_SIZE) && AllReadable(b, planeCount, FLOAT_SIZE)
    ensures AllReadable(a + b, planeCount, FLOAT_SIZE)
    ensures Stream(a + b, planeCount, FLOAT_SIZE, p)
         == Stream(a, planeCount, FLOAT_SIZE, p) + Stream(b, planeCount, FLOAT_SIZE, p)
    decreases |b|
  {
    if b == [] {
      assert a + b == a;
    } else {
      var n := |b| - 1;
      StreamConcat(a, b[..n], planeCount, p);
      LastApart(a, b);
      ConcatStep(a, b[..n], b[n], a + b[..n], planeCount, p);
    }
  }

  lemma LastApart(a: seq<Audio>, b: seq<Audio>)
    requires b != []
    ensures (a + b[..|b| - 1]) + [b[|b| - 1]] == a + b && b[..|b| - 1] + [b[|b| - 1]] == b
  {
  }

  lemma ConcatStep(a: seq<Audio>, front: seq<Audio>, last: Audio, all: seq<Audio>, planeCount: nat, p: nat)
    requires p < planeCount && last.Readable(planeCount, FLOAT_SIZE) && AllReadable(all, planeCount, FLOAT_SIZE)
    requires AllReadable(a, planeCount, FLOAT_SIZE) && AllReadable(front, planeCount, FLOAT_SIZE)
    requires Stream(all, planeCount, FLOAT_SIZE, p)
          == Stream(a, planeCount, FLOAT_SIZE, p) + Stream(front, planeCount, FLOAT_SIZE, p)
    ensures AllReadable(all + [last], planeCount, FLOAT_SIZE) && AllReadable(front + [last], planeCount, FLOAT_SIZE)
    ensures Stream(all + [last], planeCount, FLOAT_SIZE, p)
         == Stream(a, planeCount, FLOAT_SIZE, p) + Stream(front + [last], planeCount, FLOAT_SIZE, p)
  {
    StreamAppend(all, last, planeCount, FLOAT_SIZE, p);
    StreamAppend(front, last, planeCount, FLOAT_SIZE, p);
    Joined(Stream(a, planeCount, FLOAT_SIZE, p), Stream(front, planeCount, FLOAT_SIZE, p), last.Data(p, FLOAT_SIZE));
  }

  lemma Joined(a: bytes, b: bytes, c: bytes)
    ensures (a + b) + c == a + (b + c)
  {
  }

  /** Any number of pauses, one after the other: what gets through is what remains of each stretch, in order. */
  lemma {:induction false} PausesCutSamples(rate: nat, pause: Pause, sts: seq<Stretch>, planeCount: nat, p: nat)
    requires rate > 0 && PausesInTurn(rate, sts, planeCount) && p < planeCount
    requires pause.start == 0 && pause.end == 0
    ensures var run := RunAll(rate, pause, sts, planeCount);
      && AllReadable(run.passed, planeCount, FLOAT_SIZE)
      && Stream(run.passed, planeCount, FLOAT_SIZE, p) == AllRemaining(rate, sts, planeCount, p)
      && (sts == [] || Over(rate, sts[|sts| - 1]) ==> run.pause.start == 0 && run.pause.end == 0)
    decreases |sts|
  {
    if sts == [] {
    } else {
      InTurnPrefix(rate, sts, planeCount);
      PausesCutSamples(rate, pause, sts[..|sts| - 1], planeCount, p);
      OneMoreStretch(rate, sts[|sts| - 1], planeCount, p, RunAll(rate, pause, sts[..|sts| - 1], planeCount));
    }
  }

  lemma OneMoreStretch(rate: nat, st: Stretch, planeCount: nat, p: nat, before: PauseRun)
    requires rate > 0 && HasPause(rate, st, planeCount) && p < planeCount && before.pause.end == 0
    requires AllReadable(before.passed, planeCount, FLOAT_SIZE)
    ensures var r := Run(rate, before.pause.(start := st.start), st.chunks, st.moment, st.end);
      && AllReadable(before.passed + r.passed, planeCount, FLOAT_SIZE)
      && Stream(before.passed + r.passed, planeCount, FLOAT_SIZE, p)
         == Stream(before.passed, planeCount, FLOAT_SIZE, p) + Remaining(rate, st, planeCount, p)
      && (Over(rate, st) ==> r.pause.start == 0 && r.pause.end == 0)
  {
    var r := Run(rate, before.pause.(start := st.start), st.chunks, st.moment, st.end);
    StretchCut(rate, before.pause.(start := st.start), st, planeCount, p, r);
    StreamConcat(before.passed, r.passed, planeCount, p);
  }

  // ---------- The pause object ----------

  /** `struct pause_data` */
  class PauseData {
    var tsStart: u64
    var tsEnd: u64
    var tsOffset: u64

    function State(): Pause
      reads this
    {
      Pause(tsStart, tsEnd, tsOffset)
    }

    constructor ()
      ensures State() == Pause(0, 0, 0)
    {
      tsStart, tsEnd, tsOffset := 0, 0, 0;
    }

    method EndPause(ts: u64)
      modifies this
      ensures State() == Ended(old(State()), ts)
    {
      if tsEnd == 0 {
        tsEnd := ts;
        tsOffset := Wrap64(tsOffset + Wrap64(tsEnd - tsStart));
      }
    }

    method PauseAudio(rate: nat, data: Audio) returns (cut: Audio)
      requires tsStart >= data.timestamp
      ensures cut == data.(frames := NsToFrames(rate, tsStart - data.timestamp))
    {
      var cutoffFrames := NsToFrames(rate, tsStart - data.timestamp);
      cut := data.(frames := cutoffFrames);
    }

    method UnpauseAudio(rate: nat, data: Audio) returns (rest: Audio)
      requires rate > 0 && data.Readable(|data.planes|, FLOAT_SIZE)
      requires data.timestamp <= tsEnd <= data.EndTs(rate)
      modifies this
      ensures var n := NsToFrames(rate, old(tsEnd) - data.timestamp);
        && n <= data.frames
        && rest.frames == data.frames - n
        && rest.timestamp == old(tsStart)
        && |rest.planes| == |data.planes|
        && (forall p :: 0 <= p < |data.planes| ==>
              n * FLOAT_SIZE <= |data.planes[p]| && rest.planes[p] == data.planes[p][n * FLOAT_SIZE..])
      ensures tsStart == 0 && tsEnd == 0 && tsOffset == old(tsOffset)
    {
      var cutoffFrames := NsToFrames(rate, tsEnd - data.timestamp);
      CutInRange(rate, data, tsEnd);
      var planes := data.planes;
      for i := 0 to |planes|
        invariant |planes| == |data.planes|
        invariant forall p :: 0 <= p < i ==> planes[p] == data.planes[p][cutoffFrames * FLOAT_SIZE..]
        invariant forall p :: i <= p < |planes| ==> planes[p] == data.planes[p]
      {
        planes := planes[i := planes[i][cutoffFrames * FLOAT_SIZE..]];
      }
      rest := Audio(planes, data.frames - cutoffFrames, tsStart);
      tsStart := 0;
      tsEnd := 0;
    }

    method AudioPauseCheckInternal(rate: nat, data: Audio) returns (left: Audio, ignored: bool)
      requires rate > 0 && (tsStart != 0 ==> data.Readable(|data.planes|, FLOAT_SIZE)) && data.EndTs(rate) < TWO_64
      modifies this
      ensures Checked(State(), left, ignored) == CheckInternal(rate, old(State()), data)
    {
      left := data;
      if tsStart == 0 {
        return data, false;
      }
      var endTs := data.timestamp + FramesToNs(rate, data.frames);
      if tsStart >= data.timestamp {
        if tsStart <= endTs {
          left := PauseAudio(rate, data);
          return left, left.frames == 0;
        }
      } else {
        if tsEnd >= data.timestamp && tsEnd <= endTs {
          left := UnpauseAudio(rate, data);
          return left, left.frames == 0;
        }
        return data, true;
      }
      return data, false;
    }

    method AudioPauseCheck(rate: nat, data: Audio) returns (left: Audio, ignored: bool)
      requires rate > 0 && (tsStart != 0 ==> data.Readable(|data.planes|, FLOAT_SIZE)) && data.EndTs(rate) < TWO_64
      modifies this
      ensures Checked(State(), left, ignored) == Check(rate, old(State()), data)
    {
      left, ignored := AudioPauseCheckInternal(rate, data);
      left := left.(timestamp := Wrap64(left.timestamp - tsOffset));
    }
  }
}
