/**
 The audio side of an encoder: it waits for the first video frame, starts the audio there, and cuts what it keeps into
 frames of the encoder's size (libobs/obs-encoder.c).
 */
module AudioEncoder {
  import opened AudioClock
  import opened AudioPause
  import opened Bytes

  datatype Format = Format(rate: nat, planes: nat, blocksize: nat, framesize: nat)
  {
    predicate Valid() { rate > 0 && planes > 0 && blocksize > 0 && framesize > 0 }

    function FrameBytes(): nat { blocksize * framesize }
  }

  /** A frame handed to the encoder, and whether the encoder took it. */
  datatype Frame = Frame(planes: seq<bytes>, pts: nat, accepted: bool)

  /** The audio fields of `struct obs_encoder`, and the frames sent so far; zero stands for a time that is not set. */
  datatype State = State(
    buffer: seq<bytes>, startTs: u64, firstRawTs: u64, firstReceived: bool, curPts: nat, sent: seq<Frame>)
  {
    /** All planes have queued the same number of bytes. */
    predicate Lockstep(planes: nat) {
      |buffer| == planes && planes > 0 && forall p :: 0 <= p < planes ==> |buffer[p]| == |buffer[0]|
    }
  }

  // ---------- The start of the audio ----------

  function Cleared(planes: nat): (r: seq<bytes>)
    ensures |r| == planes && forall p :: 0 <= p < planes ==> r[p] == []
  {
    seq(planes, _ => [])
  }

  /** `push_back_audio` */
  function Pushed(buffer: seq<bytes>, data: seq<bytes>, size: nat, offset: nat): (r: seq<bytes>)
    requires |buffer| <= |data| && forall p :: 0 <= p < |buffer| ==> size <= |data[p]|
    ensures |r| == |buffer|
    ensures forall p :: 0 <= p < |r| ==> r[p] == if offset >= size then buffer[p] else buffer[p] + data[p][offset..size]
  {
    if offset >= size then buffer
    else seq(|buffer|, p requires 0 <= p < |buffer| => buffer[p] + data[p][offset..size])
  }

  /** `calc_offset_size` */
  function OffsetSize(f: Format, videoTs: nat, audioTs: nat): nat
    requires audioTs <= videoTs
  {
    NsToFrames(f.rate, videoTs - audioTs) * f.blocksize
  }

  /** `start_from_buffer`, on what is queued. */
  function FromBuffer(f: Format, s: State, videoTs: u64): (r: seq<bytes>)
    requires s.Lockstep(f.planes)
    ensures |r| == f.planes
  {
    var offset := if s.firstRawTs < videoTs then OffsetSize(f, videoTs, s.firstRawTs) else 0;
    Pushed(Cleared(f.planes), s.buffer, |s.buffer[0]|, offset)
  }

  /** `buffer_audio`; `video` is the start of the paired video encoder, if there is one. */
  function Buffered(f: Format, s: State, d: Audio, video: Option<u64>): (r: (State, bool))
    requires f.Valid() && s.Lockstep(f.planes) && d.Readable(f.planes, f.blocksize)
    requires s.startTs == 0 ==> d.EndTs(f.rate) < TWO_64
    ensures |r.0.buffer| == f.planes
  {
    var size := d.frames * f.blocksize;
    if s.startTs == 0 && video.Some? then
      var v := video.value;
      if v == 0 || d.EndTs(f.rate) <= v then
        (s.(buffer := Pushed(s.buffer, d.planes, size, 0)), false)
      else
        var offset := if d.timestamp < v then OffsetSize(f, v, d.timestamp) else 0;
        var queued := if d.timestamp <= v then Cleared(f.planes) else FromBuffer(f, s, v);
        (s.(buffer := Pushed(queued, d.planes, size, offset), startTs := v), true)
    else
      var start := if s.startTs == 0 then d.timestamp else s.startTs;
      (s.(buffer := Pushed(s.buffer, d.planes, size, 0), startTs := start), true)
  }

  // ---------- Cutting frames ----------

  /** `send_audio_data`; `accepted` is what `do_encode` returns. */
  function Send(f: Format, s: State, accepted: bool): (r: State)
    requires f.Valid() && s.Lockstep(f.planes) && |s.buffer[0]| >= f.FrameBytes()
    ensures r.Lockstep(f.planes) && |r.buffer[0]| == |s.buffer[0]| - f.FrameBytes()
  {
    var frame := seq(f.planes, p requires 0 <= p < f.planes => s.buffer[p][..f.FrameBytes()]);
    var rest := seq(f.planes, p requires 0 <= p < f.planes => s.buffer[p][f.FrameBytes()..]);
    s.(buffer := rest, sent := s.sent + [Frame(frame, s.curPts, accepted)],
       curPts := if accepted then s.curPts + f.framesize else s.curPts)
  }

  /** The loop of `receive_audio`; `accept` says of each frame, by its number, whether the encoder takes it. */
  function SendAll(f: Format, s: State, accept: nat -> bool): (r: State)
    requires f.Valid() && s.Lockstep(f.planes)
    ensures r.Lockstep(f.planes)
    decreases |s.buffer[0]|
  {
    if |s.buffer[0]| >= f.FrameBytes() then
      FrameNotEmpty(f);
      var accepted := accept(|s.sent|);
      if accepted then SendAll(f, Send(f, s, accepted), accept) else Send(f, s, accepted)
    else s
  }

  lemma FrameNotEmpty(f: Format)
    requires f.Valid()
    ensures f.FrameBytes() > 0
  {
    MulMonotone(1, f.blocksize, f.framesize);
  }

  /** The first thing `receive_audio` does with a chunk. */
  function First(f: Format, s: State, timestamp: u64): State {
    if s.firstReceived then s else s.(firstRawTs := timestamp, firstReceived := true, buffer := Cleared(f.planes))
  }

  predicate Even(buffer: seq<bytes>) {
    forall p :: 0 <= p < |buffer| ==> |buffer[p]| == |buffer[0]|
  }

  lemma PushedEven(buffer: seq<bytes>, data: seq<bytes>, size: nat, offset: nat)
    requires |buffer| <= |data| && forall p :: 0 <= p < |buffer| ==> size <= |data[p]|
    requires Even(buffer)
    ensures Even(Pushed(buffer, data, size, offset))
  {
  }

  lemma BufferedLockstep(f: Format, s: State, d: Audio, video: Option<u64>)
    requires f.Valid() && s.Lockstep(f.planes) && d.Readable(f.planes, f.blocksize)
    requires s.startTs == 0 ==> d.EndTs(f.rate) < TWO_64
    ensures Buffered(f, s, d, video).0.Lockstep(f.planes)
  {
    var size := d.frames * f.blocksize;
    if s.startTs != 0 || video.None? || video.value == 0 || d.EndTs(f.rate) <= video.value {
      PushedEven(s.buffer, d.planes, size, 0);
    } else {
      var v := video.value;
      var offset := if d.timestamp < v then OffsetSize(f, v, d.timestamp) else 0;
      if d.timestamp <= v {
        PushedEven(Cleared(f.planes), d.planes, size, offset);
      } else {
        var rest := if s.firstRawTs < v then OffsetSize(f, v, s.firstRawTs) else 0;
        PushedEven(Cleared(f.planes), s.buffer, |s.buffer[0]|, rest);
        PushedEven(FromBuffer(f, s, v), d.planes, size, offset);
      }
    }
  }

  /** The rest of `receive_audio`, for a chunk that gets past the pause. */
  function Taken(f: Format, s: State, d: Audio, video: Option<u64>, accept: nat -> bool): (r: State)
    requires f.Valid() && s.Lockstep(f.planes) && d.Readable(f.planes, f.blocksize)
    requires s.startTs == 0 ==> d.EndTs(f.rate) < TWO_64
    ensures r.Lockstep(f.planes)
  {
    var (queued, ready) := Buffered(f, s, d, video);
    BufferedLockstep(f, s, d, video);
    if ready then SendAll(f, queued, accept) else queued
  }

  // ---------- What is sent ----------

  function Accepted(sent: seq<Frame>): nat
    decreases |sent|
  {
    if sent == [] then 0
    else Accepted(sent[..|sent| - 1]) + if sent[|sent| - 1].accepted then 1 else 0
  }

  /** Every frame has full planes, and is stamped with the frames taken before it. */
  ghost predicate WellSent(f: Format, sent: seq<Frame>) {
    forall k :: 0 <= k < |sent| ==>
      && |sent[k].planes| == f.planes
      && (forall p :: 0 <= p < f.planes ==> |sent[k].planes[p]| == f.FrameBytes())
      && sent[k].pts == Accepted(sent[..k]) * f.framesize
  }

  ghost function SentData(f: Format, sent: seq<Frame>, p: nat): bytes
    requires p < f.planes && WellSent(f, sent)
    decreases |sent|
  {
    if sent == [] then []
    else
      var rest := sent[..|sent| - 1];
      WellSentPrefix(f, sent, |sent| - 1);
      SentData(f, rest, p) + sent[|sent| - 1].planes[p]
  }

  lemma WellSentPrefix(f: Format, sent: seq<Frame>, n: nat)
    requires WellSent(f, sent) && n <= |sent|
    ensures WellSent(f, sent[..n])
  {
    assert forall k :: 0 <= k < n ==> sent[..n][k] == sent[k] && sent[..n][..k] == sent[..k];
  }

  /** The state is in step: planes, frames and time stamps. */
  ghost predicate InStep(f: Format, s: State) {
    s.Lockstep(f.planes) && WellSent(f, s.sent) && s.curPts == Accepted(s.sent) * f.framesize
  }

  /** Everything that was kept of plane `p`: sent, then queued. */
  ghost function Kept(f: Format, s: State, p: nat): bytes
    requires InStep(f, s) && p < f.planes
  {
    SentData(f, s.sent, p) + s.buffer[p]
  }

  lemma AppendWellSent(f: Format, sent: seq<Frame>, frame: Frame)
    requires WellSent(f, sent) && |frame.planes| == f.planes && frame.pts == Accepted(sent) * f.framesize
    requires forall p :: 0 <= p < f.planes ==> |frame.planes[p]| == f.FrameBytes()
    ensures WellSent(f, sent + [frame])
    ensures Accepted(sent + [frame]) == Accepted(sent) + if frame.accepted then 1 else 0
  {
    var all := sent + [frame];
    assert all[..|sent|] == sent;
    forall k | 0 <= k < |sent|
      ensures all[k] == sent[k] && all[..k] == sent[..k]
    {
    }
  }

  lemma SendInStep(f: Format, s: State, accepted: bool)
    requires f.Valid() && InStep(f, s) && |s.buffer[0]| >= f.FrameBytes()
    ensures InStep(f, Send(f, s, accepted))
  {
    var r := Send(f, s, accepted);
    AppendWellSent(f, s.sent, r.sent[|s.sent|]);
    MulDistributes(Accepted(s.sent), 1, f.framesize);
  }

  lemma SendKeeps(f: Format, s: State, accepted: bool, p: nat)
    requires f.Valid() && InStep(f, s) && |s.buffer[0]| >= f.FrameBytes() && p < f.planes
    requires InStep(f, Send(f, s, accepted))
    ensures Kept(f, Send(f, s, accepted), p) == Kept(f, s, p)
  {
    var r := Send(f, s, accepted);
    assert r.sent[..|s.sent|] == s.sent;
    assert s.buffer[p] == r.sent[|s.sent|].planes[p] + r.buffer[p];
  }

  /** Less than a frame is queued, unless the encoder refused one. */
  ghost predicate Drained(f: Format, s: State)
    requires s.Lockstep(f.planes)
  {
    |s.buffer[0]| < f.FrameBytes() || (s.sent != [] && !s.sent[|s.sent| - 1].accepted)
  }

  lemma {:induction false} SendAllInStep(f: Format, s: State, accept: nat -> bool)
    requires f.Valid() && InStep(f, s)
    ensures var r := SendAll(f, s, accept);
      && InStep(f, r) && Drained(f, r)
      && r.startTs == s.startTs && r.firstRawTs == s.firstRawTs && r.firstReceived == s.firstReceived
    decreases |s.buffer[0]|
  {
    if |s.buffer[0]| < f.FrameBytes() {
    } else {
      FrameNotEmpty(f);
      var next := Send(f, s, accept(|s.sent|));
      SendInStep(f, s, accept(|s.sent|));
      if accept(|s.sent|) {
        SendAllInStep(f, next, accept);
      }
    }
  }

  /** The loop asks the encoder about each frame in turn, stops at the first one that is refused, and else goes on until
      less than a frame is queued. */
  lemma {:induction false} StopsAtRefusal(f: Format, s: State, accept: nat -> bool)
    requires f.Valid() && s.Lockstep(f.planes)
    ensures var r, n := SendAll(f, s, accept), |s.sent|;
      && n <= |r.sent| && r.sent[..n] == s.sent
      && (forall k :: n <= k < |r.sent| ==> r.sent[k].accepted == accept(k))
      && (forall k :: n <= k < |r.sent| - 1 ==> r.sent[k].accepted)
      && (|r.sent| == n || r.sent[|r.sent| - 1].accepted ==> |r.buffer[0]| < f.FrameBytes())
    decreases |s.buffer[0]|
  {
    if |s.buffer[0]| < f.FrameBytes() {
    } else {
      FrameNotEmpty(f);
      var next := Send(f, s, accept(|s.sent|));
      assert next.sent[..|s.sent|] == s.sent;
      if accept(|s.sent|) {
        StopsAtRefusal(f, next, accept);
        var r := SendAll(f, next, accept);
        assert r.sent[..|next.sent|][..|s.sent|] == r.sent[..|s.sent|];
        assert r.sent[|s.sent|] == r.sent[..|next.sent|][|s.sent|];
      }
    }
  }

  /** Cutting frames loses and moves nothing. */
  lemma {:induction false} SendAllKeeps(f: Format, s: State, accept: nat -> bool, p: nat)
    requires f.Valid() && InStep(f, s) && p < f.planes
    ensures InStep(f, SendAll(f, s, accept)) && Kept(f, SendAll(f, s, accept), p) == Kept(f, s, p)
    decreases |s.buffer[0]|
  {
    SendAllInStep(f, s, accept);
    if |s.buffer[0]| < f.FrameBytes() {
    } else {
      FrameNotEmpty(f);
      var accepted := accept(|s.sent|);
      SendInStep(f, s, accepted);
      SendKeeps(f, s, accepted, p);
      if accepted {
        SendAllKeeps(f, Send(f, s, accepted), accept, p);
      }
    }
  }

  // ---------- A run from the first chunk ----------

  function Initial(f: Format): State { State(Cleared(f.planes), 0, 0, false, 0, []) }

  ghost predicate Playable(f: Format, chunks: seq<Audio>) {
    f.Valid() && AllReadable(chunks, f.planes, f.blocksize) && InTime(f.rate, chunks)
  }

  /** The encoder after these chunks, when the video's start becomes known as `v` right before chunk `moment`. */
  ghost function Run(f: Format, chunks: seq<Audio>, moment: nat, v: u64, accept: nat -> bool): (r: State)
    requires Playable(f, chunks)
    ensures r.Lockstep(f.planes)
    decreases |chunks|
  {
    if chunks == [] then Initial(f)
    else
      var n := |chunks| - 1;
      var s := Run(f, chunks[..n], moment, v, accept);
      Taken(f, First(f, s, chunks[n].timestamp), chunks[n], Some(if n < moment then 0 else v), accept)
  }

  /** The chunk with which the audio starts: the first one that ends after the video's start, once that is known. */
  ghost function Begin(f: Format, chunks: seq<Audio>, moment: nat, v: u64): Option<nat>
    requires f.Valid()
    decreases |chunks|
  {
    if chunks == [] then None
    else
      var n := |chunks| - 1;
      var before := Begin(f, chunks[..n], moment, v);
      if before.Some? then before
      else if n >= moment && chunks[n].EndTs(f.rate) > v then Some(n)
      else None
  }

  lemma {:induction false} BeginInRange(f: Format, chunks: seq<Audio>, moment: nat, v: u64)
    requires f.Valid()
    ensures var r := Begin(f, chunks, moment, v);
      && (r.Some? ==> moment <= r.value < |chunks| && chunks[r.value].EndTs(f.rate) > v)
      && (forall k :: moment <= k < |chunks| && (r.None? || k < r.value) ==> chunks[k].EndTs(f.rate) <= v)
    decreases |chunks|
  {
    if chunks == [] {
    } else {
      BeginInRange(f, chunks[..|chunks| - 1], moment, v);
    }
  }

  /** The first frame that is kept, if the audio starts with chunk `i`. */
  ghost function FirstKept(f: Format, chunks: seq<Audio>, i: nat, v: u64): nat
    requires f.Valid() && i < |chunks|
  {
    var before := FramesIn(chunks[..i]);
    if chunks[i].timestamp <= v then before + NsToFrames(f.rate, v - chunks[i].timestamp)
    else if chunks[0].timestamp < v then
      var n := NsToFrames(f.rate, v - chunks[0].timestamp);
      if n < before then n else before
    else 0
  }

  lemma OffsetInChunk(f: Format, d: Audio, v: u64)
    requires f.Valid() && d.timestamp <= v < d.EndTs(f.rate)
    ensures NsToFrames(f.rate, v - d.timestamp) < d.frames
    ensures OffsetSize(f, v, d.timestamp) < d.frames * f.blocksize
  {
    var lag := v - d.timestamp;
    NsToFramesBounds(f.rate, lag);
    DivBounds(d.frames * NS_PER_SEC, f.rate);
    MulMonotone(lag + 1, FramesToNs(f.rate, d.frames), f.rate);
    MulDistributes(lag, 1, f.rate);
    MulCancel(d.frames, NsToFrames(f.rate, lag), NS_PER_SEC);
    MulMonotone(NsToFrames(f.rate, lag) + 1, d.frames, f.blocksize);
    MulDistributes(NsToFrames(f.rate, lag), 1, f.blocksize);
  }

  /** How `buffer_audio` changes what is kept of plane `p`, before and after the start. */
  lemma BufferedKeeps(f: Format, s: State, d: Audio, video: Option<u64>, p: nat)
    requires f.Valid() && InStep(f, s) && d.Readable(f.planes, f.blocksize)
    requires s.startTs == 0 ==> d.EndTs(f.rate) < TWO_64
    requires p < f.planes && InStep(f, Buffered(f, s, d, video).0)
    requires s.startTs != 0 || video.None? || video.value == 0 || d.EndTs(f.rate) <= video.value
    ensures Kept(f, Buffered(f, s, d, video).0, p) == Kept(f, s, p) + d.Data(p, f.blocksize)
  {
    var data := d.Data(p, f.blocksize);
    assert d.planes[p][0..d.frames * f.blocksize] == data;
    assert SentData(f, s.sent, p) + (s.buffer[p] + data) == (SentData(f, s.sent, p) + s.buffer[p]) + data;
    assert d.frames * f.blocksize == 0 ==> data == [];
  }

  lemma BufferedInStep(f: Format, s: State, d: Audio, video: Option<u64>)
    requires f.Valid() && InStep(f, s) && d.Readable(f.planes, f.blocksize)
    requires s.startTs == 0 ==> d.EndTs(f.rate) < TWO_64
    ensures InStep(f, Buffered(f, s, d, video).0)
    ensures Buffered(f, s, d, video).0.sent == s.sent
  {
    BufferedLockstep(f, s, d, video);
  }

  lemma NoOffset(f: Format, ts: nat)
    ensures OffsetSize(f, ts, ts) == 0
  {
    assert NsToFrames(f.rate, 0) == 0;
  }

  /** The audio starts in the chunk at hand. */
  lemma StartInChunk(f: Format, s: State, d: Audio, v: u64, p: nat)
    requires f.Valid() && s.Lockstep(f.planes) && d.Readable(f.planes, f.blocksize) && d.EndTs(f.rate) < TWO_64
    requires p < f.planes && s.startTs == 0 && 0 < v && d.timestamp <= v < d.EndTs(f.rate)
    ensures OffsetSize(f, v, d.timestamp) < d.frames * f.blocksize
    ensures var (r, ready) := Buffered(f, s, d, Some(v));
      ready && r.startTs == v && r.buffer[p] == d.Data(p, f.blocksize)[OffsetSize(f, v, d.timestamp)..]
  {
    OffsetInChunk(f, d, v);
    NoOffset(f, d.timestamp);
    var offset, size := OffsetSize(f, v, d.timestamp), d.frames * f.blocksize;
    assert d.planes[p][offset..size] == d.planes[p][..size][offset..];
    assert [] + d.planes[p][offset..size] == d.planes[p][offset..size];
  }

  /** What is left of a queued plane if the audio starts `offset` bytes into it. */
  ghost function Behind(queued: bytes, offset: nat): bytes {
    if offset < |queued| then queued[offset..] else []
  }

  /** The audio starts in what is queued. */
  lemma StartInQueue(f: Format, s: State, d: Audio, v: u64, p: nat)
    requires f.Valid() && s.Lockstep(f.planes) && d.Readable(f.planes, f.blocksize) && d.EndTs(f.rate) < TWO_64
    requires p < f.planes && s.startTs == 0 && 0 < v < d.timestamp
    ensures v < d.EndTs(f.rate)
    ensures var (r, ready) := Buffered(f, s, d, Some(v));
      var offset := if s.firstRawTs < v then OffsetSize(f, v, s.firstRawTs) else 0;
      ready && r.startTs == v && r.buffer[p] == Behind(s.buffer[p], offset) + d.Data(p, f.blocksize)
  {
    EndAfterStart(f, d);
    FromBufferIs(f, s, v, p);
    var size := d.frames * f.blocksize;
    assert d.planes[p][0..size] == d.Data(p, f.blocksize);
    PushedAt(FromBuffer(f, s, v), d.planes, size, p);
  }

  lemma PushedAt(buffer: seq<bytes>, data: seq<bytes>, size: nat, p: nat)
    requires |buffer| <= |data| && (forall p :: 0 <= p < |buffer| ==> size <= |data[p]|) && p < |buffer|
    ensures Pushed(buffer, data, size, 0)[p] == buffer[p] + data[p][..size]
  {
    assert data[p][0..size] == data[p][..size];
  }

  lemma EndAfterStart(f: Format, d: Audio)
    requires f.Valid()
    ensures d.timestamp <= d.EndTs(f.rate)
  {
    DivBounds(d.frames * NS_PER_SEC, f.rate);
  }

  lemma FromBufferIs(f: Format, s: State, v: u64, p: nat)
    requires f.Valid() && s.Lockstep(f.planes) && p < f.planes
    ensures var offset := if s.firstRawTs < v then OffsetSize(f, v, s.firstRawTs) else 0;
      FromBuffer(f, s, v)[p] == Behind(s.buffer[p], offset)
  {
    var offset := if s.firstRawTs < v then OffsetSize(f, v, s.firstRawTs) else 0;
    assert |s.buffer[p]| == |s.buffer[0]|;
    if offset < |s.buffer[p]| {
      assert [] + s.buffer[p][offset..|s.buffer[p]|] == s.buffer[p][offset..];
    }
  }

  lemma DropsFront(all: bytes, data: bytes, n: nat)
    requires n <= |all|
    ensures (all + data)[n..] == all[n..] + data
  {
  }

  /** The first byte that is kept of every plane; all of them while the encoder waits. */
  ghost function StartByte(f: Format, chunks: seq<Audio>, begin: Option<nat>, v: u64): nat
    requires f.Valid() && (begin.Some? ==> begin.value < |chunks|)
  {
    if begin.None? then 0 else FirstKept(f, chunks, begin.value, v) * f.blocksize
  }

  lemma StartByteStays(f: Format, chunks: seq<Audio>, begin: Option<nat>, v: u64)
    requires f.Valid() && chunks != [] && (begin.Some? ==> begin.value < |chunks| - 1)
    ensures StartByte(f, chunks[..|chunks| - 1], begin, v) == StartByte(f, chunks, begin, v)
  {
    if begin.Some? {
      assert chunks[..|chunks| - 1][..begin.value] == chunks[..begin.value];
    }
  }

  /** What is kept of a plane when the audio starts with the last chunk. */
  lemma StreamStarts(f: Format, chunks: seq<Audio>, v: u64, queued: bytes, data: bytes)
    requires f.Valid() && chunks != [] && v < chunks[|chunks| - 1].EndTs(f.rate)
    requires |queued| == FramesIn(chunks[..|chunks| - 1]) * f.blocksize
    requires |data| == chunks[|chunks| - 1].frames * f.blocksize
    ensures var n := |chunks| - 1;
      var at := StartByte(f, chunks, Some(n), v);
      && at <= |queued + data|
      && (chunks[n].timestamp <= v ==>
           OffsetSize(f, v, chunks[n].timestamp) <= |data| &&
           (queued + data)[at..] == data[OffsetSize(f, v, chunks[n].timestamp)..])
      && (chunks[n].timestamp > v ==>
           var offset := if chunks[0].timestamp < v then OffsetSize(f, v, chunks[0].timestamp) else 0;
           (queued + data)[at..] == Behind(queued, offset) + data)
  {
    var n := |chunks| - 1;
    var before := FramesIn(chunks[..n]);
    if chunks[n].timestamp <= v {
      OffsetInChunk(f, chunks[n], v);
      MulDistributes(before, NsToFrames(f.rate, v - chunks[n].timestamp), f.blocksize);
    } else {
      var m := if chunks[0].timestamp < v then NsToFrames(f.rate, v - chunks[0].timestamp) else 0;
      StartsInQueue(f, before, m, queued, data);
    }
  }

  lemma StartsInQueue(f: Format, before: nat, m: nat, queued: bytes, data: bytes)
    requires f.Valid() && |queued| == before * f.blocksize
    ensures var first := if m < before then m else before;
      && first * f.blocksize <= |queued|
      && (queued + data)[first * f.blocksize..] == Behind(queued, m * f.blocksize) + data
  {
    MulMonotone(before, m, f.blocksize);
    MulMonotone(m + 1, before, f.blocksize);
    MulDistributes(m, 1, f.blocksize);
    DropsFront(queued, data, if m < before then m * f.blocksize else |queued|);
  }

  // ----- The invariant of the run -----

  ghost predicate HoldsPlane(f: Format, chunks: seq<Audio>, begin: Option<nat>, v: u64, s: State, p: nat)
    requires Playable(f, chunks) && InStep(f, s) && p < f.planes && (begin.Some? ==> begin.value < |chunks|)
  {
    var all := Stream(chunks, f.planes, f.blocksize, p);
    StartByte(f, chunks, begin, v) <= |all| && Kept(f, s, p) == all[StartByte(f, chunks, begin, v)..]
  }

  ghost predicate Holds(f: Format, chunks: seq<Audio>, begin: Option<nat>, v: u64, s: State)
    requires Playable(f, chunks) && (begin.Some? ==> begin.value < |chunks|)
  {
    && InStep(f, s)
    && s.firstReceived == (chunks != [])
    && (chunks != [] ==> s.firstRawTs == chunks[0].timestamp)
    && s.startTs == (if begin.Some? then v else 0)
    && (begin.None? ==> s.sent == [])
    && forall p :: 0 <= p < f.planes ==> HoldsPlane(f, chunks, begin, v, s, p)
  }

  lemma FirstInStep(f: Format, s: State, timestamp: u64)
    requires f.Valid() && InStep(f, s)
    ensures InStep(f, First(f, s, timestamp))
  {
  }

  /** The chunk is queued, the audio starts, or it goes on. */
  lemma BufferedHolds(f: Format, chunks: seq<Audio>, begin: Option<nat>, begin': Option<nat>, v: u64, s: State,
                      video: u64, p: nat)
    requires Playable(f, chunks) && chunks != [] && v > 0 && p < f.planes
    requires begin.Some? ==> begin.value < |chunks| - 1
    requires InStep(f, s) && s.firstReceived && s.firstRawTs == chunks[0].timestamp
    requires s.startTs == (if begin.Some? then v else 0) && (begin.None? ==> s.sent == [])
    requires HoldsPlane(f, chunks[..|chunks| - 1], begin, v, s, p)
    requires var n := |chunks| - 1;
      if begin.Some? then begin' == begin
      else if video > 0 && chunks[n].EndTs(f.rate) > v then begin' == Some(n) && video == v
      else begin' == None && (video == 0 || chunks[n].EndTs(f.rate) <= video)
    ensures var (r, ready) := Buffered(f, s, chunks[|chunks| - 1], Some(video));
      && InStep(f, r)
      && ready == begin'.Some?
      && r.startTs == (if begin'.Some? then v else 0)
      && HoldsPlane(f, chunks, begin', v, r, p)
  {
    var n := |chunks| - 1;
    var d := chunks[n];
    var queued, data := Stream(chunks[..n], f.planes, f.blocksize, p), d.Data(p, f.blocksize);
    BufferedInStep(f, s, d, Some(video));
    StreamUnfolds(f.rate, chunks, 0, f.planes, p, f.blocksize);
    if begin'.None? || begin.Some? {
      BufferedKeeps(f, s, d, Some(video), p);
      StartByteStays(f, chunks, begin, v);
      DropsFront(queued, data, StartByte(f, chunks, begin, v));
    } else {
      StreamStarts(f, chunks, v, queued, data);
      if d.timestamp <= v {
        StartInChunk(f, s, d, v, p);
      } else {
        StartInQueue(f, s, d, v, p);
      }
    }
  }

  lemma FirstHolds(f: Format, chunks: seq<Audio>, begin: Option<nat>, v: u64, s: State, timestamp: u64, p: nat)
    requires Playable(f, chunks) && (begin.Some? ==> begin.value < |chunks|) && Holds(f, chunks, begin, v, s)
    requires p < f.planes
    ensures InStep(f, First(f, s, timestamp)) && HoldsPlane(f, chunks, begin, v, First(f, s, timestamp), p)
  {
    FirstInStep(f, s, timestamp);
    assert HoldsPlane(f, chunks, begin, v, s, p);
  }

  lemma SendAllHolds(f: Format, chunks: seq<Audio>, begin: Option<nat>, v: u64, s: State, accept: nat -> bool, p: nat)
    requires Playable(f, chunks) && InStep(f, s) && p < f.planes && (begin.Some? ==> begin.value < |chunks|)
    requires HoldsPlane(f, chunks, begin, v, s, p)
    ensures var r := SendAll(f, s, accept);
      && InStep(f, r) && Drained(f, r) && HoldsPlane(f, chunks, begin, v, r, p)
      && r.startTs == s.startTs && r.firstReceived == s.firstReceived && r.firstRawTs == s.firstRawTs
  {
    SendAllInStep(f, s, accept);
    SendAllKeeps(f, s, accept, p);
  }

  /** The last chunk of the run, for one plane. */
  lemma TakenHolds(f: Format, chunks: seq<Audio>, begin: Option<nat>, begin': Option<nat>, v: u64, s: State,
                   video: u64, accept: nat -> bool, p: nat)
    requires Playable(f, chunks) && chunks != [] && v > 0 && p < f.planes
    requires begin.Some? ==> begin.value < |chunks| - 1
    requires InStep(f, s) && s.firstReceived && s.firstRawTs == chunks[0].timestamp
    requires s.startTs == (if begin.Some? then v else 0) && (begin.None? ==> s.sent == [])
    requires HoldsPlane(f, chunks[..|chunks| - 1], begin, v, s, p)
    requires var n := |chunks| - 1;
      if begin.Some? then begin' == begin
      else if video > 0 && chunks[n].EndTs(f.rate) > v then begin' == Some(n) && video == v
      else begin' == None && (video == 0 || chunks[n].EndTs(f.rate) <= video)
    ensures var r := Taken(f, s, chunks[|chunks| - 1], Some(video), accept);
      && InStep(f, r)
      && r.startTs == (if begin'.Some? then v else 0)
      && r.firstReceived && r.firstRawTs == s.firstRawTs
      && (begin'.None? ==> r.sent == [])
      && (begin'.Some? ==> Drained(f, r))
      && HoldsPlane(f, chunks, begin', v, r, p)
  {
    var d := chunks[|chunks| - 1];
    var (queued, ready) := Buffered(f, s, d, Some(video));
    BufferedHolds(f, chunks, begin, begin', v, s, video, p);
    BufferedInStep(f, s, d, Some(video));
    SendAllHolds(f, chunks, begin', v, queued, accept, p);
  }

  /** One more chunk in a run, for one plane. */
  lemma RunStep(f: Format, chunks: seq<Audio>, moment: nat, v: u64, accept: nat -> bool, p: nat)
    requires Playable(f, chunks) && chunks != [] && v > 0 && p < f.planes
    requires var n := |chunks| - 1;
      var begin := Begin(f, chunks[..n], moment, v);
      (begin.Some? ==> begin.value < n) && Holds(f, chunks[..n], begin, v, Run(f, chunks[..n], moment, v, accept))
    ensures var begin' := Begin(f, chunks, moment, v);
      var r := Run(f, chunks, moment, v, accept);
      && (begin'.Some? ==> begin'.value < |chunks|)
      && InStep(f, r)
      && r.startTs == (if begin'.Some? then v else 0)
      && r.firstReceived && r.firstRawTs == chunks[0].timestamp
      && (begin'.None? ==> r.sent == [])
      && (begin'.Some? ==> Drained(f, r))
      && HoldsPlane(f, chunks, begin', v, r, p)
  {
    var n := |chunks| - 1;
    var before, begin := Run(f, chunks[..n], moment, v, accept), Begin(f, chunks[..n], moment, v);
    FirstHolds(f, chunks[..n], begin, v, before, chunks[n].timestamp, p);
    TakenHolds(f, chunks, begin, Begin(f, chunks, moment, v), v, First(f, before, chunks[n].timestamp),
               if n < moment then 0 else v, accept, p);
  }

  /**
   Over any run, the frames sent and what is still queued make up, in every plane alike, the received audio from the
   first kept frame on, or all of it while the encoder waits; every frame is full, its time stamp counts the frames
   taken before it, and less than a frame stays queued.
   */
  lemma {:induction false} EncodesFromStart(f: Format, chunks: seq<Audio>, moment: nat, v: u64, accept: nat -> bool)
    requires Playable(f, chunks) && v > 0
    ensures var begin := Begin(f, chunks, moment, v);
      var s := Run(f, chunks, moment, v, accept);
      && (begin.Some? ==> begin.value < |chunks|)
      && Holds(f, chunks, begin, v, s)
      && (begin.Some? ==> Drained(f, s))
    decreases |chunks|
  {
    var begin' := Begin(f, chunks, moment, v);
    BeginInRange(f, chunks, moment, v);
    if chunks == [] {
      assert SentData(f, [], 0) == [];
    } else {
      EncodesFromStart(f, chunks[..|chunks| - 1], moment, v, accept);
      forall p | 0 <= p < f.planes
        ensures InStep(f, Run(f, chunks, moment, v, accept))
        ensures HoldsPlane(f, chunks, begin', v, Run(f, chunks, moment, v, accept), p)
      {
        RunStep(f, chunks, moment, v, accept, p);
      }
      RunStep(f, chunks, moment, v, accept, 0);
    }
  }

  /** An encoder that is not paired with a video encoder, after these chunks. */
  ghost function RunAlone(f: Format, chunks: seq<Audio>, accept: nat -> bool): (r: State)
    requires Playable(f, chunks)
    ensures r.Lockstep(f.planes)
    decreases |chunks|
  {
    if chunks == [] then Initial(f)
    else
      var n := |chunks| - 1;
      Taken(f, First(f, RunAlone(f, chunks[..n], accept), chunks[n].timestamp), chunks[n], None, accept)
  }

  /** It starts with its first chunk and keeps everything. */
  lemma {:induction false} EncodesAllAlone(f: Format, chunks: seq<Audio>, accept: nat -> bool)
    requires Playable(f, chunks)
    ensures var s := RunAlone(f, chunks, accept);
      && InStep(f, s)
      && s.firstReceived == (chunks != [])
      && (chunks != [] ==> Drained(f, s))
      && (chunks == [] ==> s == Initial(f))
      && (chunks != [] && chunks[0].timestamp != 0 ==> s.startTs == chunks[0].timestamp)
      && forall p :: 0 <= p < f.planes ==> Kept(f, s, p) == Stream(chunks, f.planes, f.blocksize, p)
    decreases |chunks|
  {
    if chunks == [] {
    } else {
      var n := |chunks| - 1;
      EncodesAllAlone(f, chunks[..n], accept);
      var s := First(f, RunAlone(f, chunks[..n], accept), chunks[n].timestamp);
      FirstInStep(f, RunAlone(f, chunks[..n], accept), chunks[n].timestamp);
      var queued := Buffered(f, s, chunks[n], None).0;
      BufferedInStep(f, s, chunks[n], None);
      SendAllInStep(f, queued, accept);
      forall p | 0 <= p < f.planes
        ensures Kept(f, RunAlone(f, chunks, accept), p) == Stream(chunks, f.planes, f.blocksize, p)
      {
        StreamUnfolds(f.rate, chunks, 0, f.planes, p, f.blocksize);
        BufferedKeeps(f, s, chunks[n], None, p);
        SendAllKeeps(f, queued, accept, p);
      }
    }
  }

  /** If the encoder takes every frame, the time stamps are the multiples of the frame size. */
  lemma {:induction false} PtsCountFrames(f: Format, s: State, k: nat)
    requires InStep(f, s) && k < |s.sent| && forall i :: 0 <= i < |s.sent| ==> s.sent[i].accepted
    ensures s.sent[k].pts == k * f.framesize
  {
    AllTaken(s.sent[..k]);
  }

  lemma {:induction false} AllTaken(sent: seq<Frame>)
    requires forall i :: 0 <= i < |sent| ==> sent[i].accepted
    ensures Accepted(sent) == |sent|
    decreases |sent|
  {
    if sent == [] {
    } else {
      AllTaken(sent[..|sent| - 1]);
    }
  }

  // ----- Alignment -----

  /** Every chunk carries the time at which its first frame lies, counted from the first chunk. */
  ghost predicate OnClock(f: Format, chunks: seq<Audio>)
    requires f.Valid()
  {
    forall i :: 0 <= i < |chunks| ==>
      chunks[i].timestamp == chunks[0].timestamp + FramesToNs(f.rate, FramesIn(chunks[..i]))
  }

  /** The first kept frame, in the chunk that holds it or counted from the first chunk, starts within one sample period
      before the video, and not after it; it is the very first one if the audio began later. */
  lemma StartIsAligned(f: Format, chunks: seq<Audio>, moment: nat, v: u64)
    requires Playable(f, chunks) && OnClock(f, chunks) && Begin(f, chunks, moment, v).Some?
    ensures var i := Begin(f, chunks, moment, v).value;
      && i < |chunks|
      && var first := FirstKept(f, chunks, i, v);
         if chunks[0].timestamp > v then first == 0
         else if chunks[i].timestamp <= v then
           var inChunk := first - FramesIn(chunks[..i]);
           && 0 <= inChunk < chunks[i].frames
           && inChunk * NS_PER_SEC <= (v - chunks[i].timestamp) * f.rate < (inChunk + 1) * NS_PER_SEC
         else
           && first <= FramesIn(chunks[..i])
           && first * NS_PER_SEC <= (v - chunks[0].timestamp) * f.rate < (first + 1) * NS_PER_SEC
  {
    BeginInRange(f, chunks, moment, v);
    var i := Begin(f, chunks, moment, v).value;
    if chunks[i].timestamp <= v {
      OffsetInChunk(f, chunks[i], v);
      NsToFramesBounds(f.rate, v - chunks[i].timestamp);
    } else if chunks[0].timestamp <= v {
      var before, lag := FramesIn(chunks[..i]), v - chunks[0].timestamp;
      NsToFramesBounds(f.rate, lag);
      DivBounds(before * NS_PER_SEC, f.rate);
      MulMonotone(lag, FramesToNs(f.rate, before), f.rate);
      MulCancel(NsToFrames(f.rate, lag), before, NS_PER_SEC);
    }
  }

  /** Frames before a chunk and frames in it, against the rounded time of the one and the exact time of the other. */
  lemma ClockSum(rate: nat, before: nat, inChunk: nat, ns: nat)
    requires rate > 0 && inChunk * NS_PER_SEC <= ns * rate < (inChunk + 1) * NS_PER_SEC
    ensures var t := FramesToNs(rate, before) + ns;
      t * rate < (before + inChunk + 1) * NS_PER_SEC && (before + inChunk) * NS_PER_SEC < (t + 1) * rate
  {
    var t := FramesToNs(rate, before);
    DivBounds(before * NS_PER_SEC, rate);
    MulDistributes(t, ns, rate);
    MulDistributes(t + 1, ns, rate);
    assert t + 1 + ns == t + ns + 1;
  }

  /** Counted from the first chunk, rounded time stamps shift the first kept frame by less than a nanosecond. */
  lemma StartFromClock(f: Format, chunks: seq<Audio>, moment: nat, v: u64)
    requires Playable(f, chunks) && OnClock(f, chunks) && Begin(f, chunks, moment, v).Some?
    requires chunks[0].timestamp <= v
    ensures var i := Begin(f, chunks, moment, v).value;
      && i < |chunks|
      && var first := FirstKept(f, chunks, i, v);
         && (v - chunks[0].timestamp) * f.rate < (first + 1) * NS_PER_SEC
         && first * NS_PER_SEC < (v - chunks[0].timestamp + 1) * f.rate
  {
    StartIsAligned(f, chunks, moment, v);
    BeginInRange(f, chunks, moment, v);
    var i := Begin(f, chunks, moment, v).value;
    if chunks[i].timestamp <= v {
      var before := FramesIn(chunks[..i]);
      assert chunks[i].timestamp == chunks[0].timestamp + FramesToNs(f.rate, before);
      ClockSum(f.rate, before, FirstKept(f, chunks, i, v) - before, v - chunks[i].timestamp);
    } else {
      MulDistributes(v - chunks[0].timestamp, 1, f.rate);
    }
  }

  // ---------- Pauses behind the start ----------

  /** The encoder and its pause. */
  datatype Paused = Paused(pause: Pause, state: State)

  /** `receive_audio` once the audio has started. */
  function Received(f: Format, b: Paused, d: Audio, video: Option<u64>, accept: nat -> bool): (r: Paused)
    requires f.Valid() && b.state.Lockstep(f.planes) && b.state.startTs != 0
    requires d.Readable(f.planes, f.blocksize) && d.EndTs(f.rate) < TWO_64 && f.blocksize == FLOAT_SIZE
    ensures r.state.Lockstep(f.planes)
  {
    var c := Check(f.rate, b.pause, d);
    var first := First(f, b.state, d.timestamp);
    CheckedReadable(f.rate, b.pause, d, f.planes, f.blocksize);
    Paused(c.pause, if c.ignored then first else Taken(f, first, c.audio, video, accept))
  }

  /** The audio has started, nothing is out of step, and less than a frame is queued. */
  ghost predicate Running(f: Format, s: State) { InStep(f, s) && s.startTs != 0 && s.firstReceived && Drained(f, s) }

  /** A chunk that gets past the pause. */
  lemma TakenKeeps(f: Format, s: State, d: Audio, video: Option<u64>, accept: nat -> bool, p: nat)
    requires f.Valid() && Running(f, s) && d.Readable(f.planes, f.blocksize) && p < f.planes
    ensures var r := Taken(f, s, d, video, accept);
      && Running(f, r)
      && Kept(f, r, p) == Kept(f, s, p) + d.Data(p, f.blocksize)
  {
    var queued := Buffered(f, s, d, video).0;
    BufferedInStep(f, s, d, video);
    BufferedKeeps(f, s, d, video, p);
    SendAllInStep(f, queued, accept);
    SendAllKeeps(f, queued, accept, p);
  }

  /** The encoder over a stretch with one pause. */
  ghost function RunStretch(f: Format, b: Paused, chunks: seq<Audio>, moment: nat, end: u64, video: Option<u64>,
                            accept: nat -> bool): (r: Paused)
    requires Playable(f, chunks) && f.blocksize == FLOAT_SIZE && Running(f, b.state)
    ensures Running(f, r.state)
    decreases |chunks|
  {
    if chunks == [] then b
    else
      var n := |chunks| - 1;
      var before := RunStretch(f, b, chunks[..n], moment, end, video, accept);
      var now := if n == moment then Ended(before.pause, end) else before.pause;
      ReceivedKeeps(f, Paused(now, before.state), chunks[n], video, accept, 0);
      Received(f, Paused(now, before.state), chunks[n], video, accept)
  }

  lemma ReceivedKeeps(f: Format, b: Paused, d: Audio, video: Option<u64>, accept: nat -> bool, p: nat)
    requires f.Valid() && Running(f, b.state) && p < f.planes
    requires d.Readable(f.planes, f.blocksize) && d.EndTs(f.rate) < TWO_64 && f.blocksize == FLOAT_SIZE
    ensures var r, c := Received(f, b, d, video, accept), Check(f.rate, b.pause, d);
      && c.audio.Readable(f.planes, FLOAT_SIZE)
      && r.pause == c.pause && Running(f, r.state)
      && Kept(f, r.state, p) == Kept(f, b.state, p) + Piece(c, f.planes, p)
  {
    var c := Check(f.rate, b.pause, d);
    CheckedReadable(f.rate, b.pause, d, f.planes, f.blocksize);
    if c.ignored {
      assert Kept(f, b.state, p) + [] == Kept(f, b.state, p);
    } else {
      TakenKeeps(f, b.state, c.audio, video, accept, p);
    }
  }

  /** Over a stretch what is kept grows by exactly what the pause lets through. */
  lemma {:induction false} StretchKeeps(f: Format, b: Paused, chunks: seq<Audio>, moment: nat, end: u64,
                                        video: Option<u64>, accept: nat -> bool, p: nat)
    requires Playable(f, chunks) && f.blocksize == FLOAT_SIZE && Running(f, b.state) && p < f.planes
    ensures var r := RunStretch(f, b, chunks, moment, end, video, accept);
      var run := AudioPause.Run(f.rate, b.pause, chunks, moment, end);
      && r.pause == run.pause
      && AllReadable(run.passed, f.planes, FLOAT_SIZE)
      && Kept(f, r.state, p) == Kept(f, b.state, p) + Stream(run.passed, f.planes, FLOAT_SIZE, p)
    decreases |chunks|
  {
    if chunks == [] {
      assert Kept(f, b.state, p) + [] == Kept(f, b.state, p);
    } else {
      var n := |chunks| - 1;
      StretchKeeps(f, b, chunks[..n], moment, end, video, accept, p);
      var before := RunStretch(f, b, chunks[..n], moment, end, video, accept);
      var passed := AudioPause.Run(f.rate, b.pause, chunks[..n], moment, end).passed;
      var now := if n == moment then Ended(before.pause, end) else before.pause;
      var c := Check(f.rate, now, chunks[n]);
      ReceivedKeeps(f, Paused(now, before.state), chunks[n], video, accept, p);
      PassAppend(passed, c, f.planes, p);
      Regrouped(Kept(f, b.state, p), Stream(passed, f.planes, FLOAT_SIZE, p), Piece(c, f.planes, p));
    }
  }

  lemma Regrouped(a: bytes, b: bytes, c: bytes)
    ensures (a + b) + c == a + (b + c)
  {
  }

  /** The encoder over any number of pauses, one after the other. */
  ghost function RunStretches(f: Format, b: Paused, sts: seq<Stretch>, video: Option<u64>, accept: nat -> bool)
    : (r: Paused)
    requires f.Valid() && f.blocksize == FLOAT_SIZE && PausesInTurn(f.rate, sts, f.planes) && Running(f, b.state)
    ensures Running(f, r.state)
    decreases |sts|
  {
    if sts == [] then b
    else
      var last := sts[|sts| - 1];
      InTurnPrefix(f.rate, sts, f.planes);
      var before := RunStretches(f, b, sts[..|sts| - 1], video, accept);
      RunStretch(f, Paused(before.pause.(start := last.start), before.state), last.chunks, last.moment, last.end, video,
                 accept)
  }

  lemma {:induction false} StretchesKeep(f: Format, b: Paused, sts: seq<Stretch>, video: Option<u64>,
                                         accept: nat -> bool, p: nat)
    requires f.Valid() && f.blocksize == FLOAT_SIZE && PausesInTurn(f.rate, sts, f.planes) && Running(f, b.state)
    requires b.pause.start == 0 && b.pause.end == 0 && p < f.planes
    ensures var r := RunStretches(f, b, sts, video, accept);
      && (sts == [] || Over(f.rate, sts[|sts| - 1]) ==> r.pause.start == 0 && r.pause.end == 0)
      && Kept(f, r.state, p) == Kept(f, b.state, p) + AllRemaining(f.rate, sts, f.planes, p)
    decreases |sts|
  {
    if sts == [] {
      assert Kept(f, b.state, p) + [] == Kept(f, b.state, p);
    } else {
      var front := sts[..|sts| - 1];
      InTurnPrefix(f.rate, sts, f.planes);
      StretchesKeep(f, b, front, video, accept, p);
      OneMoreStretchKept(f, RunStretches(f, b, front, video, accept), sts[|sts| - 1], video, accept, p);
      Regrouped(Kept(f, b.state, p), AllRemaining(f.rate, front, f.planes, p),
                Remaining(f.rate, sts[|sts| - 1], f.planes, p));
    }
  }

  lemma OneMoreStretchKept(f: Format, before: Paused, st: Stretch, video: Option<u64>, accept: nat -> bool, p: nat)
    requires f.Valid() && f.blocksize == FLOAT_SIZE && HasPause(f.rate, st, f.planes) && Running(f, before.state)
    requires before.pause.end == 0 && p < f.planes
    ensures
      var now := Paused(before.pause.(start := st.start), before.state);
      var r := RunStretch(f, now, st.chunks, st.moment, st.end, video, accept);
      && (Over(f.rate, st) ==> r.pause.start == 0 && r.pause.end == 0)
      && Kept(f, r.state, p) == Kept(f, before.state, p) + Remaining(f.rate, st, f.planes, p)
  {
    var now := Paused(before.pause.(start := st.start), before.state);
    StretchKeeps(f, now, st.chunks, st.moment, st.end, video, accept, p);
    StretchCut(f.rate, now.pause, st, f.planes, p, AudioPause.Run(f.rate, now.pause, st.chunks, st.moment, st.end));
  }

  /**
   From the start of the audio through any number of pauses: in every plane the frames sent and what is still queued
   make up the received audio from the first kept frame on, and then what remains of each stretch with its pause taken
   out. Frames are full, their time stamps count the frames taken before, and less than a frame stays queued.
   */
  lemma EncodesThroughPauses(f: Format, chunks: seq<Audio>, moment: nat, v: u64, accept: nat -> bool, offset: u64,
                             sts: seq<Stretch>, video: Option<u64>, p: nat)
    requires Playable(f, chunks) && f.blocksize == FLOAT_SIZE && v > 0 && Begin(f, chunks, moment, v).Some?
    requires PausesInTurn(f.rate, sts, f.planes) && p < f.planes
    ensures var begin := Begin(f, chunks, moment, v);
      var start := Run(f, chunks, moment, v, accept);
      && begin.value < |chunks| && Running(f, start)
      && var r := RunStretches(f, Paused(Pause(0, 0, offset), start), sts, video, accept).state;
         var all := Stream(chunks, f.planes, f.blocksize, p);
         && Running(f, r) && StartByte(f, chunks, begin, v) <= |all|
         && Kept(f, r, p) == all[StartByte(f, chunks, begin, v)..] + AllRemaining(f.rate, sts, f.planes, p)
  {
    var begin, start := Begin(f, chunks, moment, v), Run(f, chunks, moment, v, accept);
    EncodesFromStart(f, chunks, moment, v, accept);
    assert HoldsPlane(f, chunks, begin, v, start, p);
    StretchesKeep(f, Paused(Pause(0, 0, offset), start), sts, video, accept, p);
  }

  // ---------- The encoder object ----------

  /** Skipping a float for each frame cut leaves enough of frames that are no smaller. */
  lemma SkipLeavesEnough(len: nat, frames: nat, cut: nat, blocksize: nat)
    requires frames * blocksize <= len && cut <= frames && blocksize >= FLOAT_SIZE
    ensures cut * FLOAT_SIZE <= len && (frames - cut) * blocksize <= len - cut * FLOAT_SIZE
  {
    MulDistributes(frames - cut, cut, blocksize);
    MulMonotone(FLOAT_SIZE, blocksize, cut);
    MulMonotone(0, frames - cut, blocksize);
  }

  lemma ReadableFloats(d: Audio, planes: nat, blocksize: nat)
    requires d.Readable(planes, blocksize) && blocksize >= FLOAT_SIZE
    ensures d.Readable(planes, FLOAT_SIZE)
  {
    MulMonotone(FLOAT_SIZE, blocksize, d.frames);
  }

  lemma CutReadable(d: Audio, cut: nat, planes: nat, blocksize: nat)
    requires d.Readable(planes, blocksize) && cut <= d.frames
    ensures d.(frames := cut).Readable(planes, blocksize)
  {
    MulMonotone(cut, d.frames, blocksize);
  }

  lemma SkippedReadable(d: Audio, cut: nat, ts: u64, planes: nat, blocksize: nat)
    requires d.Readable(planes, blocksize) && d.Readable(planes, FLOAT_SIZE)
    requires blocksize >= FLOAT_SIZE && cut <= d.frames
    ensures forall p :: 0 <= p < planes ==> cut * FLOAT_SIZE <= |d.planes[p]|
    ensures Audio(Skipped(d.planes, cut * FLOAT_SIZE), d.frames - cut, ts).Readable(planes, blocksize)
  {
    forall p | 0 <= p < planes
      ensures cut * FLOAT_SIZE <= |d.planes[p]| && (d.frames - cut) * blocksize <= |d.planes[p]| - cut * FLOAT_SIZE
    {
      SkipLeavesEnough(|d.planes[p]|, d.frames, cut, blocksize);
    }
  }

  lemma CheckedReadable(rate: nat, pause: Pause, d: Audio, planes: nat, blocksize: nat)
    requires rate > 0 && planes > 0 && d.Readable(planes, blocksize) && d.EndTs(rate) < TWO_64
    requires pause.start != 0 ==> blocksize >= FLOAT_SIZE
    ensures pause.start != 0 ==> d.Readable(planes, FLOAT_SIZE)
    ensures Check(rate, pause, d).audio.Readable(planes, blocksize)
  {
    if pause.start == 0 {
    } else {
      ReadableFloats(d, planes, blocksize);
      if d.timestamp <= pause.start <= d.EndTs(rate) {
        CutInRange(rate, d, pause.start);
        CutReadable(d, NsToFrames(rate, pause.start - d.timestamp), planes, blocksize);
      } else if pause.start < d.timestamp <= pause.end <= d.EndTs(rate) {
        CutInRange(rate, d, pause.end);
        SkippedReadable(d, NsToFrames(rate, pause.end - d.timestamp), pause.start, planes, blocksize);
      }
    }
  }

  /** The audio fields of `struct obs_encoder`. */
  class Encoder {
    const format: Format
    const pause: PauseData
    var audioInputBuffer: seq<bytes>
    var startTs: u64
    var firstRawTs: u64
    var firstReceived: bool
    var curPts: nat

    /** What was handed to `do_encode`. */
    var sent: seq<Frame>

    ghost function View(): State
      reads this
    {
      State(audioInputBuffer, startTs, firstRawTs, firstReceived, curPts, sent)
    }

    ghost predicate Valid()
      reads this
    {
      format.Valid() && View().Lockstep(format.planes)
    }

    constructor (format: Format)
      requires format.Valid()
      ensures Valid() && this.format == format && View() == Initial(format)
      ensures fresh(pause) && pause.State() == Pause(0, 0, 0)
    {
      this.format := format;
      pause := new PauseData();
      audioInputBuffer := Cleared(format.planes);
      startTs, firstRawTs, firstReceived, curPts, sent := 0, 0, false, 0, [];
    }

    method ClearAudio()
      requires |audioInputBuffer| == format.planes
      modifies this`audioInputBuffer
      ensures audioInputBuffer == Cleared(format.planes)
    {
      for i := 0 to format.planes
        invariant |audioInputBuffer| == format.planes
        invariant forall p :: 0 <= p < i ==> audioInputBuffer[p] == []
      {
        audioInputBuffer := audioInputBuffer[i := []];
      }
    }

    method PushBackAudio(data: seq<bytes>, size: nat, offsetSize: nat)
      requires |audioInputBuffer| == format.planes <= |data|
      requires forall p :: 0 <= p < format.planes ==> size <= |data[p]|
      modifies this`audioInputBuffer
      ensures audioInputBuffer == Pushed(old(audioInputBuffer), data, size, offsetSize)
    {
      if offsetSize >= size {
        return;
      }
      ghost var was := audioInputBuffer;
      for i := 0 to format.planes
        invariant |audioInputBuffer| == format.planes
        invariant forall p :: 0 <= p < i ==> audioInputBuffer[p] == was[p] + data[p][offsetSize..size]
        invariant forall p :: i <= p < format.planes ==> audioInputBuffer[p] == was[p]
      {
        audioInputBuffer := audioInputBuffer[i := audioInputBuffer[i] + data[i][offsetSize..size]];
      }
    }

    method StartFromBuffer(vStartTs: u64)
      requires Valid()
      modifies this`audioInputBuffer
      ensures audioInputBuffer == FromBuffer(format, old(View()), vStartTs)
    {
      var size := |audioInputBuffer[0]|;
      var audio := audioInputBuffer;
      ClearAudio();
      var offsetSize := 0;
      if firstRawTs < vStartTs {
        offsetSize := OffsetSize(format, vStartTs, firstRawTs);
      }
      PushBackAudio(audio, size, offsetSize);
    }

    /** `video` is the start of the paired video encoder, if there is one. */
    method BufferAudio(data: Audio, video: Option<u64>) returns (success: bool)
      requires Valid() && data.Readable(format.planes, format.blocksize)
      requires startTs == 0 ==> data.EndTs(format.rate) < TWO_64
      modifies this`audioInputBuffer, this`startTs
      ensures Valid()
      ensures (View(), success) == Buffered(format, old(View()), data, video)
    {
      BufferedLockstep(format, View(), data, video);
      var size := data.frames * format.blocksize;
      var offsetSize := 0;
      success := true;
      if startTs == 0 && video.Some? {
        var vStartTs := video.value;
        if vStartTs == 0 {
          success := false;
        } else {
          var endTs := data.timestamp + FramesToNs(format.rate, data.frames);
          if endTs <= vStartTs {
            success := false;
          } else {
            if data.timestamp < vStartTs {
              offsetSize := OffsetSize(format, vStartTs, data.timestamp);
            }
            if data.timestamp <= vStartTs {
              ClearAudio();
            }
            startTs := vStartTs;
            if vStartTs < data.timestamp {
              StartFromBuffer(vStartTs);
            }
          }
        }
      } else if startTs == 0 && video.None? {
        startTs := data.timestamp;
      }
      PushBackAudio(data.planes, size, offsetSize);
    }

    /** `accepted` is what `do_encode` returns for the frame. */
    method SendAudioData(accepted: bool)
      requires Valid() && |audioInputBuffer[0]| >= format.FrameBytes()
      modifies this`audioInputBuffer, this`sent, this`curPts
      ensures Valid()
      ensures View() == Send(format, old(View()), accepted)
    {
      var framesizeBytes := format.FrameBytes();
      var output := Cleared(format.planes);
      ghost var was := audioInputBuffer;
      for i := 0 to format.planes
        invariant |audioInputBuffer| == |output| == format.planes
        invariant sent == old(sent) && curPts == old(curPts)
        invariant forall p :: 0 <= p < i ==> output[p] == was[p][..framesizeBytes]
        invariant forall p :: 0 <= p < i ==> audioInputBuffer[p] == was[p][framesizeBytes..]
        invariant forall p :: i <= p < format.planes ==> audioInputBuffer[p] == was[p]
      {
        output := output[i := audioInputBuffer[i][..framesizeBytes]];
        audioInputBuffer := audioInputBuffer[i := audioInputBuffer[i][framesizeBytes..]];
      }
      ghost var next := Send(format, old(View()), accepted);
      assert audioInputBuffer == next.buffer && output == next.sent[|sent|].planes;
      sent := sent + [Frame(output, curPts, accepted)];
      if accepted {
        curPts := curPts + format.framesize;
      }
    }

    /** The loop of `receive_audio`. */
    method SendFrames(accept: nat -> bool)
      requires Valid()
      modifies this`audioInputBuffer, this`sent, this`curPts
      ensures Valid()
      ensures View() == SendAll(format, old(View()), accept)
    {
      ghost var all := SendAll(format, View(), accept);
      FrameNotEmpty(format);
      while |audioInputBuffer[0]| >= format.FrameBytes()
        invariant Valid()
        invariant SendAll(format, View(), accept) == all
        decreases |audioInputBuffer[0]|
      {
        var accepted := accept(|sent|);
        SendAudioData(accepted);
        if !accepted {
          return;
        }
      }
    }

    /** What `receive_audio` does with the very first chunk. */
    method ReceiveFirst(ts: u64)
      requires Valid()
      modifies this`audioInputBuffer, this`firstRawTs, this`firstReceived
      ensures Valid() && View() == First(format, old(View()), ts)
    {
      if !firstReceived {
        firstRawTs := ts;
        firstReceived := true;
        ClearAudio();
      }
    }

    /** Buffering and sending. */
    method TakeAudio(audio: Audio, video: Option<u64>, accept: nat -> bool)
      requires Valid() && audio.Readable(format.planes, format.blocksize)
      requires startTs == 0 ==> audio.EndTs(format.rate) < TWO_64
      modifies this`audioInputBuffer, this`startTs, this`sent, this`curPts
      ensures Valid() && View() == Taken(format, old(View()), audio, video, accept)
    {
      var ready := BufferAudio(audio, video);
      if ready {
        SendFrames(accept);
      }
    }

    method ReceiveAudio(data: Audio, video: Option<u64>, accept: nat -> bool)
      requires Valid() && data.Readable(format.planes, format.blocksize) && data.EndTs(format.rate) < TWO_64
      requires pause.tsStart != 0 ==> format.blocksize >= FLOAT_SIZE && data.Readable(format.planes, FLOAT_SIZE)
      requires startTs == 0 ==> Check(format.rate, pause.State(), data).audio.EndTs(format.rate) < TWO_64
      modifies this, pause
      ensures Valid()
      ensures var checked := Check(format.rate, old(pause.State()), data);
        var first := First(format, old(View()), data.timestamp);
        && pause.State() == checked.pause
        && checked.audio.Readable(format.planes, format.blocksize)
        && View() == if checked.ignored then first else Taken(format, first, checked.audio, video, accept)
      ensures old(startTs) != 0 && format.blocksize == FLOAT_SIZE ==>
        Paused(pause.State(), View())
        == Received(format, Paused(old(pause.State()), old(View())), data, video, accept)
    {
      CheckedReadable(format.rate, pause.State(), data, format.planes, format.blocksize);
      ReceiveFirst(data.timestamp);
      var audio, ignored := pause.AudioPauseCheck(format.rate, data);
      if !ignored {
        TakeAudio(audio, video, accept);
      }
    }
  }
}
