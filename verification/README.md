# OBS Studio core logic: models and proofs

This project models the hard, self-contained algorithms of libobs and its renderers in Dafny 4.11, and proves what they
keep over every run. Methods in classes follow the C and C++ code statement by statement; each is proved equal to a
specification function on values, and the theorems are about those functions.

`dafny verify dfyconfig.toml` verifies everything.

## What is modelled

**Audio tick (`AudioClock`, `AudioBuffering`, `AudioSource`, `AudioTimeline`, `AudioTick`).** The audio thread feeds
one time window per tick. The scheduler queues it, may push earlier windows in front to wait for a late source, pops
one window, and mixes it or waits. That is a delay line whose delay grows while it runs: the windows that come out are
the windows that went in, in order, and after `n` ticks exactly `total - wait` of them are still inside. For one
source: how `ignore_audio` catches up with a lag, sample by sample, when discarding removes what mixing added, and what
a source loses over a run of the scheduler, which is nothing if it is on time. Over all sources: which one is the
earliest.

**Audio encoder (`AudioEncoder`, `AudioPause`).** Audio waits for the first video frame, starts at the sample that lies
there, and is cut into frames of the encoder's size. A pause takes a stretch out of the stream; what the encoder sends
over any number of pauses is the stream without them.

**Settings (`SettingsItem`, `SettingsJson`).** An item keeps its name and up to three values in one allocation, whose
layout changes with `memmove`; it behaves like a record of three independent options. Settings trees are read from and
written to JSON, and applied to one another; an item has one type for its three values, which decides how they read.

**Bitstreams (`StartCode`, `NalUnits`, `NalTypes`, `SpsReader`, `AvcHeader`, `Av1Obu`).** The four-bytes-at-a-time
search for Annex B start codes, length-prefixed packets, packet priorities, header extraction, emulation prevention,
Exp-Golomb codes, the AVC configuration record with a reader of it, LEB128, and AV1 unit headers, metadata and header
extraction; and what becomes of units whose types an encoder chose.

**Shaders (`ShaderTranslator`, `ShaderGroups`, `ShaderBodies`, `ShaderMeaning`, `ShaderValues`, `ShaderWalker`,
`StorageNames`).** The mutually recursive walker that turns HLSL tokens into GLSL text: on every expression tree, and
on every function body made of them, it writes exactly the GLSL counterpart and reads exactly the tokens. The result
means the same exactly where the two languages' built-ins agree on the values that occur, and that is worked out for
numbers, vectors and matrices, with a `*` by components and matrices filled by rows in HLSL, and a linear `*` and
matrices filled by columns in GLSL, for the five ways to read a texture, and for the tables of names. Struct inputs and
outputs are flattened by two traversals that agree.

**Program cache (`ProgramCache`).** The device's linked list of GL programs, with its back pointers, against direct
lookup by shader pair.

**Shader constants (`ConstantBuffer`).** The register layout computed when a D3D11 shader is built, and the buffer
filled from it before a draw.

## Where the code does less than its documentation or its neighbours suggest

Each of these is stated by a lemma or contract below, with the exact condition and an input.

- `calc_min_ts` recalculates the minimum after marking sources, but starts from the minimum it already has, so the
  recalculation never changes the timestamp (`AudioTick.CalcMinTs`).
- With a lag below one frame no tick is added and the end of the reported window is never assigned; its start is still
  right (`AudioBuffering.ReportedWindow`; at one nanosecond `AudioBuffering.OneNanosecondLate`).
- Discarding does not look at whether anything was mixed (`AudioSource.MixAndDiscardAgree`). A source that has enough
  samples to be discarded but too few to be rendered loses them (600 samples of which 524 go,
  `AudioSource.SamplesLost`), so does one that is one nanosecond early (`AudioSource.EarlyByOne`), and so does one
  whose timestamp lies in the window of a tick in which the scheduler waits, as it does of the very source that is
  waited for (`AudioTimeline.LateSourceLoses`). A source that is on time loses nothing
  (`AudioTimeline.OnTimeSourceIsMixed`).
- `ignore_audio`, for a source without a timestamp, reads the first channel's size anew for each channel, and so
  empties that channel alone (`AudioSource.LagRecovery`; two channels of two samples, `AudioSource.OneChannelEmptied`).
  Its only caller asks for a timestamp first (`AudioSource.GuardKeepsChannels`).
- `ignore_audio` rounds up before it makes up for a nanosecond, so it drops one sample too many if and only if the
  nanosecond before the start lies a whole number of sample periods behind the timestamp (`AudioSource.OneTooMany`; a
  source one nanosecond behind loses a sample, `AudioSource.TenMillisecondsIgnored`).
- The start-code search reads one byte behind a code, so a code that ends the packet is not found
  (`StartCode.FoundUnlessLast`; the packet `00 00 01`, `StartCode.BareStartCode`).
- The bit reader's position has eight bits, so in 256 bytes or more it starts over instead of ending
  (`SpsReader.InReachExactly`, `SpsReader.StartsOver`). The parameters of a sequence parameter set lie in its first 281
  bits, so they are read right from any (`AvcHeader.GetSpsHighParams`).
- `get_ue_golomb` returns eight bits, so it recovers a value if and only if that is at most 255
  (`SpsReader.UeRoundTrip`).
- `leb128` shifts an `int`, so it is defined exactly below 2^31, while section 4.10.5 of the AV1 specification allows
  values below 2^32 (`Av1Obu.LebRoundTrip`).
- The lengths in an AVC configuration record have 16 bits, and longer parameter sets are written all the same
  (`AvcHeader.LongSetIsCut`).
- An AV1 unit without a size field is taken to be one byte longer than it is if it has an extension byte, although the
  comment in the same file subtracts it (`Av1Obu.UnitWithoutSize`; two bytes, `Av1Obu.ExtensionNotCounted`).
- An item of a settings object has one type, and a user value of another type takes its default and autoselect value
  out of reach (`SettingsJson.ReadsKept`; the default 5 and the value "abc", `SettingsJson.DefaultRetyped`).
- The last argument of `mul`, `mad` or `sincos`, if it starts with a parenthesis, is left behind its first group. For
  `mul` and `mad` the text is right all the same if the argument is nothing but that group
  (`ShaderTranslator.ProductTextExact`, `MulAddTextExact`); `mul(a,(b)+c)` becomes `((a) * ((b))+c)`
  (`GroupArgumentMisplaced`). A walk around it that ends at a parenthesis then ends early
  (`ShaderGroups.ProductInGroupExact`). In plain groups, calls and texture coordinates that does no harm
  (`ShaderGroups.TranslationPrints`), in another `mul` none if nothing follows (`NestedProductExact`); in `saturate`
  the text is always wrong (`ClampedProductExact`), and so is that of such a `sincos`
  (`ShaderTranslator.SincosWrites`). Arguments that end at a comma are read whole, whatever they start with.
- A texture with several arguments, the first of which starts with a parenthesis, ends a walk that ends at a comma at
  its own comma (`ShaderGroups.TextureInListExact`).
- The offset that HLSL's texture methods may have behind their arguments is copied, and so becomes a bias, or one
  argument too many (`ShaderValues.OffsetLost`, `OffsetIsBias`).
- HLSL's `*` between matrices goes by components, GLSL's does not; HLSL's constructors fill a matrix by rows, GLSL's,
  to which they are renamed, by columns; and indexing a matrix gives a row in one and a column in the other
  (`ShaderValues.TimesIsTimes`, `MatrixAgrees`, `IndexAgrees`; `MatricesDiffer`, `RowsBecomeColumns`). HLSL names a
  matrix's rows first and GLSL its columns, so `float3x4` becomes the type of its transpose (`TypesMeanSame`).
- `fmod` becomes `mod`, which is the same exactly for a non-negative or integral quotient (`ShaderMeaning.FmodIsMod`,
  `ShaderValues.FmodMeansSame`).
- Only the first parameter of `main` is assigned, though all are declared (`StorageNames.MainInputsAgree`; two inputs
  of which one is read, `StorageNames.SecondParameterUnread`).
- `unpause_audio` skips `sizeof(float)` bytes per frame, which is right exactly for frames of that size
  (`AudioPause.SkipMatchesFrames`, `ShortFramesSkipped`). If a pause ends in no chunk behind the one it starts in, it
  is never cleared (`AudioPause.PauseCutsSamples`, `NeverReleased`; three milliseconds within one chunk,
  `PauseInsideOneChunk`). The chunk that ends a pause is stamped with the pause's start less the new offset, earlier
  than its audio by the pause's length (`AudioPause.ChunkStamped`).
- When a constant buffer cannot be mapped, the parameters' flags are cleared all the same, so the buffer stays stale
  until some value changes (`ConstantBuffer.Shader.Upload`; a number that is never uploaded,
  `ConstantBuffer.FailedMapLosesValue`).

## Model

| member | source | states |
|---|---|---|
| `AudioClock.MulDivIsFloor` | libobs/util/util_uint64.h:23-34 | splitting the dividend on 64 bits computes the floor of the exact product and quotient, whenever that and `div * mul` fit |
| `AudioClock.FramesToNsAdds` | libobs/media-io/audio-io.h:195-198 | two durations converted one by one lose at most 1 ns against the sum converted at once |
| `AudioClock.FramesRoundTrip` | libobs/media-io/audio-io.h:195-203 | frames to time and back loses at most one frame and gains none |
| `AudioBuffering.EmitsInputInOrder` | libobs/obs-audio.c:468-631 | over every run of ticks, with any buffering added on the way, the windows emitted are a prefix of those fed in, `n - (total - wait)` of them, and `wait <= total <= max`, queue length `total` |
| `AudioBuffering.QueueStaysContiguous` | libobs/obs-audio.c:319-380 | contiguous input keeps the queue contiguous over every run, and the i-th inserted window starts `(wait - i)` ticks before the anchor |
| `AudioBuffering.FixedBufferingDelay` | libobs/obs-audio.c:278-317 | fixed buffering delays every run by exactly the maximum number of ticks from the first tick on |
| `AudioBuffering.StepKeepsDelayLine` | libobs/obs-audio.c:468-631 | one tick keeps the delay line, and reports the start of the window it takes off the queue |
| `AudioBuffering.ReportedWindow` | libobs/obs-audio.c:319-380 | the mixer gets the queue's window, except that its end is unassigned exactly when the lag is below one frame |
| `AudioBuffering.OneNanosecondLate` | libobs/obs-audio.c:319-380 | a source one nanosecond late: the window in hand ends at whatever the variable held |
| `AudioBuffering.DelayCoversOffset` | libobs/obs-audio.c:333-338 | the ticks computed from an offset move the front back by it, to within a sample period one way and a tick the other |
| `AudioBuffering.BufferingReachesLateSource` | libobs/obs-audio.c:319-380 | unless capped, the new window starts less than one sample period plus 1 ns after the late timestamp, for every rate, offset and number of waiting ticks |
| `AudioBuffering.BufferingAdds` | libobs/obs-audio.c:278-380 | a tick adds the least number of ticks that covers the frames a late source lags behind, or all the room that is left where they exceed it, and is then at its maximum; fixed buffering takes all the room; a tick without a late source adds nothing; the window in hand starts that many ticks before the oldest input window |
| `AudioBuffering.MaximumReached` | libobs/obs-audio.c:340-346 | a source one second late at a maximum of 45 ticks: 47 are needed, 45 are added, 46 windows are queued |
| `AudioBuffering.AudioCore.PushFrontWindows` | libobs/obs-audio.c:300-316 | the loop puts exactly the specified windows in front |
| `AudioBuffering.AudioCore.SetFixedAudioBuffering` | libobs/obs-audio.c:278-317 | the object's fields become the specified ones |
| `AudioBuffering.AudioCore.AddAudioBuffering` | libobs/obs-audio.c:319-380 | the object's fields and the reported window become the specified ones |
| `AudioBuffering.AudioCore.AudioCallback` | libobs/obs-audio.c:468-631 | one call feeds one window; it returns true exactly when nothing is left to wait for, and then emits the oldest window not yet out |
| `AudioSource.LagRecovery` | libobs/obs-audio.c:80-138 | `ignore_audio` succeeds exactly if enough samples are queued or they end 1 ns short; success leaves the timestamp in `[start, start + one period)`, failure leaves 0; channels stay equally long if and only if there was a timestamp, or nothing queued, or one channel |
| `AudioSource.SamplesIgnored` | libobs/obs-audio.c:94-138 | with a timestamp, the same number of samples leaves the front of every channel and the timestamp moves by just their duration, or to the start where that ends 1 ns short; a failure leaves no sample, no timestamp, and the source pending with its timing unset |
| `AudioSource.IgnoresNoMore` | libobs/obs-audio.c:94-116 | it succeeds if and only if all queued samples together would do, and then no smaller number gets past the nanosecond before the start |
| `AudioSource.OneTooMany` | libobs/obs-audio.c:96-111 | one sample fewer would do, with the nanosecond made up for, if and only if that nanosecond lies a whole number of sample periods behind the timestamp |
| `AudioSource.TenMillisecondsIgnored` | libobs/obs-audio.c:94-116 | ten milliseconds behind at 48 kHz: 480 of 1000 samples leave; one nanosecond behind: one leaves |
| `AudioSource.OneChannelEmptied` | libobs/obs-audio.c:85-93 | two channels of two samples without a timestamp: the first is emptied, the second is not |
| `AudioSource.GuardKeepsChannels` | libobs/obs-audio.c:536-563 | behind the caller's guard channels stay equally long |
| `AudioSource.DropReaches` | libobs/obs-audio.c:94-116 | the rounded-up drop reaches `start_ts - 1` and overshoots by less than a sample period; any smaller drop does not pass it |
| `AudioSource.MixAndDiscardAgree` | libobs/obs-audio.c:48-271 | for every source, window and tick, waiting or not: discarding removes what mixing added if and only if the source is not cleared as stopped and either nothing is wanted from it, or less than that is queued, or a whole tick is queued, the source sets in inside the window and the scheduler does not wait |
| `AudioSource.DiscardedMeets` | libobs/obs-audio.c:181-271 | a cleared source has no samples and no timestamp, one before or behind the window stays as it is, any other is taken to the window's end with what is wanted off the front of every channel, or with nothing taken off where less is queued |
| `AudioSource.StopsInThree` | libobs/obs-audio.c:140-177 | if nothing arrives the third look at a source clears it, no look at a new number of samples does, and until then all samples stay |
| `AudioSource.SamplesLost` | libobs/obs-audio.c:181-271 | 600 samples queued and 524 wanted: they are discarded, and none is mixed |
| `AudioSource.EarlyByOne` | libobs/obs-audio.c:225-240 | a source one nanosecond before the window loses a whole tick unmixed |
| `AudioSource.StartPointInRange` | libobs/obs-audio.c:48-66 | in every window shorter than 1024 frames and 1 ns the start point lies inside the tick, and within one sample period before the timestamp |
| `AudioSource.ThreadWindowsAreShort` | libobs/obs-audio.c:48-78 | the windows of an audio thread that counts samples from a start time are that short |
| `AudioSource.QueueWindowsAreShort` | libobs/obs-audio.c:319-380 | over every run of short windows all windows of the queue are short, those the scheduler inserted too, unless they reach back before time 0 |
| `AudioSource.ReportedWindowIsShort` | libobs/obs-audio.c:319-380 | so is the window a tick hands to the mixer, unless the lag is below one frame |
| `AudioSource.RunTakesStream` | libobs/obs-audio.c:583-612 | over every run of windows, none of which starts behind the source's timestamp and with a whole tick queued when one holds it: the samples mixed, those dropped unmixed and those still queued are, in order and on every channel, the stream; none is dropped unmixed if and only if no tick waits while its window holds the timestamp |
| `AudioSource.RunMixesEverySample` | libobs/obs-audio.c:583-612 | so the samples mixed followed by those queued are the stream if and only if no tick waits on the source |
| `AudioSource.ContiguousRunLosesNone` | libobs/obs-audio.c:583-612 | over contiguous windows that is so if and only if no tick waits at all |
| `AudioTimeline.WindowInHand` | libobs/obs-audio.c:468-631 | a tick that waits hands out a window that ends before the next one to be emitted starts, any other tick that next one |
| `AudioTimeline.OnTimeSourceIsMixed` | libobs/obs-audio.c:468-631 | over every run of the scheduler, with any buffering added on the way, a source that starts with the first window and is supplied loses nothing: on every channel the samples mixed followed by those queued are the stream |
| `AudioTimeline.LateSourceLoses` | libobs/obs-audio.c:468-631 | a source a millisecond late: one tick is buffered for it, and in that tick its 1000 samples are discarded unmixed |
| `AudioSource.Source.IgnoreAudio` | libobs/obs-audio.c:80-138 | the object's fields and the result are the specified ones, in all branches |
| `AudioSource.Source.CatchUp` | libobs/obs-audio.c:536-563 | exactly a source that lags at maximum buffering is dropped from, or marked pending if it renders itself; channels stay equally long |
| `AudioSource.Source.DiscardIfStopped` | libobs/obs-audio.c:140-177 | the object's fields and the result are the specified ones |
| `AudioSource.Source.DiscardAudio` | libobs/obs-audio.c:181-271 | the object's fields are the specified ones, in all its branches |
| `AudioTick.EarliestIsMinimum` | libobs/obs-audio.c:409-422 | the timestamp found is a lower bound of all live sources, and one of them or the bound |
| `AudioTick.FindMinTs` | libobs/obs-audio.c:409-422 | returns that minimum, and the first source that has it |
| `AudioTick.MarkInvalidSources` | libobs/obs-audio.c:424-435 | exactly the sources that cannot fill the tick become pending |
| `AudioTick.InsufficientIsUnfilled` | libobs/obs-audio.c:382-407 | a source inside the window is insufficient if and only if it runs and has less queued than the window holds from its start point on; a running one that is not gives just that to the window, an insufficient one is not mixed and keeps its samples unless it is cleared |
| `AudioTick.CalcMinTs` | libobs/obs-audio.c:437-443 | the result is the earliest timestamp among the sources live on entry; the recalculation never changes it; the name is that of the first such source if none is marked, and none if one is |
| `AudioTick.MixAudio` | libobs/obs-audio.c:48-78 | every sample of every mix and channel grows by the source's sample at that position behind its start point, all others by nothing |
| `AudioTick.MixedInOrder` | libobs/obs-audio.c:48-78 | what is mixed is the beginning of the output, in order, and ends with the window; nothing is added in front of it, nor if the source does not set in inside the window |
| `AudioEncoder.EncodesFromStart` | libobs/obs-encoder.c:1501-1718 | over every run, frames sent plus bytes queued are, in every plane, the received audio from the first kept frame on (all of it while waiting); frames are full, planes in lockstep, time stamps count the frames taken before, and less than a frame is left unless the encoder refused one |
| `AudioEncoder.EncodesAllAlone` | libobs/obs-encoder.c:1586-1597 | an encoder without a video encoder starts at the time of its first chunk and keeps every byte of every plane |
| `AudioEncoder.SendAllKeeps` | libobs/obs-encoder.c:1599-1621 | cutting frames neither loses nor moves a byte of any plane |
| `AudioEncoder.StopsAtRefusal` | libobs/obs-encoder.c:1708-1712 | the loop asks the encoder about each frame in turn, stops at the first it refuses, and else goes on until less than a frame is queued |
| `AudioEncoder.PtsCountFrames` | libobs/obs-encoder.c:1611-1619 | if every frame is taken, frame `k` is stamped `k * framesize` |
| `AudioEncoder.BeginInRange` | libobs/obs-encoder.c:1556-1573 | the audio starts with the first chunk that ends after the video's start, once that is known |
| `AudioEncoder.StartIsAligned` | libobs/obs-encoder.c:1514-1586 | the first kept frame starts within one sample period before the video's start and not after it, in its chunk or counted from the first; it is frame 0 if the audio began later |
| `AudioEncoder.StartFromClock` | libobs/obs-encoder.c:1514-1586 | counted from the first chunk in every case, rounded time stamps shift that by less than 1 ns |
| `AudioEncoder.Encoder.StartFromBuffer` | libobs/obs-encoder.c:1521-1539 | every plane becomes what was queued behind the video's start |
| `AudioEncoder.Encoder.BufferAudio` | libobs/obs-encoder.c:1542-1597 | the object's fields and the result are the specified ones, in all branches |
| `AudioEncoder.Encoder.SendAudioData` | libobs/obs-encoder.c:1599-1621 | one frame is taken off the front of every plane and sent with the current time stamp |
| `AudioEncoder.EncodesThroughPauses` | libobs/obs-encoder.c:1501-1718 | from the start of the audio through any number of pauses: in every plane, frames sent plus bytes queued are the received audio from the first kept frame on and then what remains of each stretch without its pause |
| `AudioEncoder.StretchKeeps` | libobs/obs-encoder.c:1689-1718 | over a stretch of chunks what is kept grows by exactly what the pause lets through |
| `AudioEncoder.Encoder.ReceiveAudio` | libobs/obs-encoder.c:1689-1718 | pause check, buffering and sending loop together are the specified step |
| `AudioPause.PauseCutsSamples` | libobs/obs-encoder.c:1623-1686 | for every contiguous run and every moment the end becomes known, what gets through of every plane is the stream up to the pause's start and from its end on; the pause is cleared if and only if some later chunk holds its end, and only by that chunk |
| `AudioPause.PausesCutSamples` | libobs/obs-encoder.c:1623-1686 | for any number of pauses, one after the other, what gets through of every plane is what remains of each stretch, in order |
| `AudioPause.ChunkStamped` | libobs/obs-encoder.c:1623-1686 | a chunk that gets through keeps its time stamp less the length of all pauses, this one counted from the moment its end is known; the chunk that ends the pause is stamped with the pause's start in its place |
| `AudioPause.NeverReleased` | libobs/obs-encoder.c:1648-1676 | a pause that ends before the chunk in which it starts does is never cleared |
| `AudioPause.PauseInsideOneChunk` | libobs/obs-encoder.c:1648-1676 | a pause from 102 to 105 ms in a chunk from 100 to 110 ms: nothing gets through any more |
| `AudioPause.CutIsPoint` | libobs/obs-encoder.c:1623-1629 | the cut is the pause's start measured in the chunk that holds it, or nothing is cut yet |
| `AudioPause.PointIsClose` | libobs/obs-encoder.c:1623-1646 | such a point lies within one frame before the time it stands for, and inside its chunk |
| `AudioPause.CutInRange` | libobs/obs-encoder.c:1631-1646 | a pause point inside a chunk cuts at most the whole chunk, so no frame count underflows |
| `AudioPause.SkipMatchesFrames` | libobs/obs-encoder.c:1636-1643 | what `unpause_audio` leaves of a plane has the size of the frames left exactly for frames of the size of a float |
| `AudioPause.ShortFramesSkipped` | libobs/obs-encoder.c:1636-1643 | two of five 16-bit frames skipped as floats leave two bytes for three frames |
| `AudioPause.PauseData.AudioPauseCheck` | libobs/obs-encoder.c:1648-1686 | the pause, the chunk and the result are the specified ones |
| `AudioPause.PauseData.UnpauseAudio` | libobs/obs-encoder.c:1631-1646 | every plane loses the cut frames, the counts match, and the pause is cleared |
| `AudioPause.PauseData.EndPause` | libobs/obs-output.c:614-620 | only the first end counts, and adds the pause's length to the offset |
| `SettingsItem.SlotsAreIndependent` | libobs/obs-data.c:364-439 | over every run of set, unset and clear each of the three values is what the last operation on it left, and the type is that of the last value set; a default of another type is ignored |
| `SettingsItem.TypeOverRuns` | libobs/obs-data.c:855-933 | over every run the last user or autoselect value that was set gives the item its type; no default ever does |
| `SettingsItem.OtherDefaultsIgnored` | libobs/obs-data.c:900-917 | a default of the item's type replaces the one before, one of another type changes nothing |
| `SettingsItem.RegionsAligned` | libobs/obs-data.c:88-129 | the regions are ordered, disjoint, in bounds and aligned |
| `SettingsItem.WithSizeOk` | libobs/obs-data.c:364-439 | setting a value keeps the alignment invariant, and values before it need not move |
| `SettingsItem.LengthsTellSizes` | libobs/obs-data.c:1013-1039 | a region takes room exactly when it holds a value, so `clear_item` may test either |
| `SettingsItem.UserSet` | libobs/obs-data.c:364-389 | after the moves and the copy the three values read back as before, with the user value replaced |
| `SettingsItem.DefaultSet` | libobs/obs-data.c:391-416 | the same for the default value |
| `SettingsItem.AutoselectSet` | libobs/obs-data.c:418-439 | the same for the autoselect value, with nothing moved |
| `SettingsItem.UserUnset` | libobs/obs-data.c:1435-1449 | the other values read back unchanged |
| `SettingsItem.DefaultUnset` | libobs/obs-data.c:1451-1464 | the other values read back unchanged |
| `SettingsItem.AutoselectUnset` | libobs/obs-data.c:1466-1473 | the other values read back unchanged, though nothing moves |
| `SettingsItem.Created` | libobs/obs-data.c:264-303 | a new item holds its name and its one value |
| `SettingsItem.Item.constructor` | libobs/obs-data.c:264-303 | allocates a valid item that is the record of that one value |
| `SettingsItem.Item.EnsureCapacity` | libobs/obs-data.c:321-339 | the capacity covers the new total and nothing is lost |
| `SettingsItem.Item.SetData` | libobs/obs-data.c:364-389 | the item stays valid, refines the record with its user value set, and takes the value's type |
| `SettingsItem.Item.SetDefaultData` | libobs/obs-data.c:391-416 | the same with its default value |
| `SettingsItem.Item.SetAutoselectData` | libobs/obs-data.c:418-439 | the same with its autoselect value |
| `SettingsItem.Item.UnsetUserValue` | libobs/obs-data.c:1435-1449 | the item stays valid and loses exactly its user value; the type stays |
| `SettingsItem.Item.UnsetDefaultValue` | libobs/obs-data.c:1451-1464 | the same with its default value gone |
| `SettingsItem.Item.UnsetAutoselectValue` | libobs/obs-data.c:1466-1473 | the same with its autoselect value gone |
| `SettingsItem.Item.ClearItem` | libobs/obs-data.c:1013-1039 | the same as unsetting the user value |
| `SettingsItem.Item.GetItemData` | libobs/obs-data.c:88-123 | a plain read finds the user value, else the default, else the autoselect value |
| `SettingsItem.Item.SetItemDef` | libobs/obs-data.c:900-917 | a default of another type than the item's changes nothing |
| `SettingsItem.Item.PerformAll` | libobs/obs-data.c:364-439 | after any run of operations on the packed bytes the item is valid, each value is what the last operation on it left, and a plain read finds the first of the three that is there |
| `SettingsJson.SettingsRoundTrip` | libobs/obs-data.c:445-584 | rebuilding settings from their JSON restores exactly their user values at every depth |
| `SettingsJson.JsonRoundTrip` | libobs/obs-data.c:445-584 | writing settings read from JSON gives that JSON without nulls and without array elements that are no objects |
| `SettingsJson.LastMemberWins` | libobs/obs-data.c:445-502 | of members with one name the last one that is not null counts, and nothing but user values is read |
| `SettingsJson.NormalIsFixed` | libobs/obs-data.c:464-502 | that normal form is a fixed point |
| `SettingsJson.ApplyToEmpty` | libobs/obs-data.c:935-966 | the copy made of a nested object has its user values at every depth, and nothing else |
| `SettingsJson.ApplyOverrides` | libobs/obs-data.c:968-1001 | for every name the applied user value wins as a deep copy and gives the item its type, else both stay; the default and autoselect values themselves stay |
| `SettingsJson.ReadsKept` | libobs/obs-data.c:968-1001 | defaults and autoselect values read as before, for every type asked, if and only if no applied value has another type than the item or the item has neither |
| `SettingsJson.DefaultRetyped` | libobs/obs-data.c:1652-1784 | the default 5 after "abc" was applied: read as a number it is gone, read as a string it is misread |
| `SettingsJson.NumbersShareType` | libobs/obs-data.c:1652-1784 | the default 5 after 2.5 was applied still reads as 5 |
| `SettingsJson.ApplyKeepsWf` | libobs/obs-data.c:968-1001 | applying keeps names distinct and user values of their items' types, at every depth |
| `SettingsJson.FromMembersWf` | libobs/obs-data.c:445-502 | and so does reading JSON, even with repeated names |
| `SettingsJson.ApplyIdempotent` | libobs/obs-data.c:991-1001 | applying the same settings again changes nothing |
| `SettingsJson.ApplyAssociative` | libobs/obs-data.c:991-1001 | applying is associative, name by name: values and types |
| `SettingsJson.Settings.SetItem` | libobs/obs-data.c:855-898 | an item of that name gets the user value and its type, else one is added |
| `SettingsJson.Settings.AddJsonObjectData` | libobs/obs-data.c:445-502 | reading an object's members one by one gives the specified settings |
| `SettingsJson.Settings.WriteJson` | libobs/obs-data.c:504-584 | the loops over items and array elements write the specified JSON |
| `SettingsJson.Settings.ApplySettings` | libobs/obs-data.c:935-1001 | applying settings to themselves does nothing, to others the specified override |
| `StartCode.WordTest` | libobs/obs-nal.c:31-36 | the bit trick is true exactly of words that contain a zero byte |
| `StartCode.CheckWord` | libobs/obs-nal.c:36-48 | finds which of four positions holds the first start code, from the bytes it looks at |
| `StartCode.FindInternal` | libobs/obs-nal.c:23-58 | the search by words, at every alignment, finds the first `00 00 01` that a byte-by-byte search finds |
| `StartCode.FoundUnlessLast` | libobs/obs-nal.c:23-58 | a `00 00 01` is found by a search from somewhere if and only if at least one more byte follows |
| `StartCode.Find` | libobs/obs-nal.c:60-66 | and steps back over one preceding zero byte |
| `NalUnits.AnnexBRoundTrip` | libobs/obs-avc.c:68-87 | for every list of plain units and every mix of 3- and 4-byte start codes, reading the stream returns the units (Annex B of ITU-T H.264) |
| `NalUnits.SerializedRoundTrip` | libobs/obs-avc.c:68-104 | reading the serializer's 32-bit lengths and payloads back returns the same units |
| `NalUnits.LengthPrefixRoundTrip` | libobs/obs-avc.c:79-83 | length-prefixed units read back as written, for every list of units below 2^32 bytes |
| `NalUnits.SerializeData` | libobs/obs-hevc.c:69-89 | one pass writes all units with lengths, and its keyframe flag and priority are those of the packet's units |
| `NalUnits.ParsePacketPriority` | libobs/obs-avc.c:106-127 | the separate scan computes the same priority |
| `NalUnits.AvcPriorityIsMaximum` | libobs/obs-avc.c:55-66 | the priority is the maximum of what it was and the units' reference indicators |
| `NalUnits.HevcPriorityByContent` | libobs/obs-hevc.c:49-67 | the priority depends only on whether a random access picture or another slice is present |
| `NalUnits.ExtractHeaders` | libobs/obs-avc.c:273-321 | the loop ends, and its three outputs are the units of each class with their start codes, in order |
| `NalUnits.ExtractionPartitions` | libobs/obs-hevc.c:131-179 | merging the three outputs in the units' order gives the packet from its first start code on, for every packet |
| `NalTypes.ExtractsByType` | libobs/obs-avc.c:273-321 | for every list of units that an encoder writes with types of its choice: the header output is the Annex B stream of types 7 and 8 (AVC) or 32 to 34 (HEVC), the second one that of type 6 or 39 and 40, and the packet that of all others (Table 7-1 of ITU-T H.264 and of ITU-T H.265) |
| `NalTypes.KeyframeByType` | libobs/obs-hevc.c:49-67 | such a packet is a keyframe if and only if it has a unit of type 5, or of a type from 16 to 23 |
| `NalTypes.AvcPriorityByType` | libobs/obs-avc.c:55-66 | its priority is the largest reference indicator written, if that exceeds what it was |
| `NalTypes.HevcPriorityByType` | libobs/obs-hevc.c:49-67 | its priority is 3 with a type from 16 to 23, else at least 2 with a type from 0 to 9 |
| `SpsReader.EmulationRoundTrip` | libobs/obs-avc.c:181-196 | removing emulation prevention bytes undoes inserting them, for every payload (section 7.4.1.1 of ITU-T H.264) |
| `SpsReader.EscapedUnitIsPlain` | libobs/obs-avc.c:181-196 | an escaped payload behind a non-zero header byte is a plain unit, so it survives an Annex B stream |
| `SpsReader.UeRoundTrip` | libobs/obs-avc.c:167-174 | every code is read modulo 256 and the reader moves by exactly its length, so the value is recovered if and only if it is at most 255 (section 9.1 of ITU-T H.264) |
| `SpsReader.BitsOfNumber` | libobs/util/bitstream.c:30-40 | reading a number's bits gives the number modulo 256 |
| `SpsReader.HighBitFirst` | libobs/util/bitstream.c:14-28 | the i-th bit read of a byte has the weight 2^(7-i) |
| `SpsReader.BitstreamReader.ReadBit` | libobs/util/bitstream.c:14-28 | returns the bit at the position, most significant first, and a zero behind the end; the position moves on by one and starts over behind 256 bytes |
| `SpsReader.BitstreamReader.ReadBits` | libobs/util/bitstream.c:30-40 | returns the bits from the position on as a number cut down to eight bits; they are the ones left to read if there are less than 256 bytes or the position stays below 2048 bits |
| `SpsReader.ReachedPosition` | libobs/util/bitstream.h:14-19 | after any number of bits a short buffer is left at its end at most, a long one goes around every 2048 bits |
| `SpsReader.InReachExactly` | libobs/util/bitstream.h:14-19 | the position is where the bits end, or that many bits on, if and only if the buffer has less than 256 bytes or the position stays below 2048 bits |
| `SpsReader.StartsOver` | libobs/util/bitstream.c:14-28 | behind 256 bytes the first bit comes again |
| `SpsReader.BitstreamReader.GetUeGolomb` | libobs/obs-avc.c:167-174 | counts zeros up to 32, reads at most 64 bits and returns the code's value cut down to eight bits; that is the code left to read under the same condition |
| `AvcHeader.ParamsRoundTrip` | libobs/obs-avc.c:176-217 | chroma format and bit depths written into an SPS are the ones recovered, whatever follows |
| `AvcHeader.ExtractRbsp` | libobs/obs-avc.c:181-196 | the loop removes exactly the emulation prevention bytes |
| `AvcHeader.GetSpsHighParams` | libobs/obs-avc.c:176-217 | returns the fields of the unescaped payload, of any length: the position never starts over on the way |
| `AvcHeader.GetSpsPps` | libobs/obs-avc.c:137-165 | finds the last unit of each of the two types |
| `AvcHeader.ParseAvcHeader` | libobs/obs-avc.c:219-271 | returns the input, nothing, or the configuration record, each in exactly its case |
| `AvcHeader.RecordReads` | libobs/obs-avc.c:239-269 | for all parameter sets below 65536 bytes a reader of the record (section 5.2.4.1 of ISO/IEC 14496-15) finds version 1, the profile, compatibility and level, lengths of four bytes, just these two sets, and four bytes more if and only if the profile is 100, 110, 122 or 244 |
| `AvcHeader.LongSetIsCut` | libobs/obs-avc.c:245-246 | a sequence parameter set is found whole if and only if it has less than 65536 bytes |
| `AvcHeader.HeaderIsFixed` | libobs/obs-avc.c:219-271 | the header of a header is itself; six bytes or less have none |
| `AvcHeader.LastOfAnnexB` | libobs/obs-avc.c:137-165 | in an Annex B stream of plain units the last unit of each type is found |
| `AvcHeader.HeaderOfAnnexB` | libobs/obs-avc.c:219-271 | the header of such a stream is the record of its last sequence and its last picture parameter set |
| `AvcHeader.HeaderReads` | libobs/obs-avc.c:219-271 | so a reader of the header finds exactly the last sequence and the last picture parameter set of the stream |
| `NalTypes.ParameterSetsByType` | libobs/obs-avc.c:137-165 | the parameter sets found are the last units that were written with types 7 and 8 |
| `NalTypes.HeaderFromExtraction` | libobs/obs-avc.c:219-321 | the record made of the headers extracted from a packet is the one made of the packet |
| `AvcHeader.RecordCarriesParams` | libobs/obs-avc.c:219-271 | from Annex B extradata of any plain units to the header: it ends with exactly the three values an encoder wrote into the last sequence parameter set |
| `AvcHeader.TwoParameterSets` | libobs/obs-avc.c:137-165 | extradata of one escaped sequence parameter set and one picture parameter set is such a list |
| `Av1Obu.LebRoundTrip` | libobs/obs-av1.c:9-27 | reading undoes writing if and only if the value is below 2^31 |
| `Av1Obu.TenBytes` | libobs/obs-av1.c:64-78 | any 64-bit value needs at most ten bytes |
| `Av1Obu.Leb128` | libobs/obs-av1.c:9-27 | the loop computes the specified value and length |
| `Av1Obu.EncodeUleb128` | libobs/obs-av1.c:64-78 | the loop writes the specified bytes into a buffer of ten |
| `Av1Obu.ParseObuHeader` | libobs/obs-av1.c:34-61 | computes type, start and size in every branch |
| `Av1Obu.BuildMetadataObu` | libobs/obs-av1.c:90-155 | the buffer is allocated in the exact size and filled with header, size, type, payload and trailer |
| `Av1Obu.MetadataRoundTrip` | libobs/obs-av1.c:34-155 | parsing it finds type 5 and a payload up to the buffer's end, made of type byte, payload and 0x80, if and only if the size can be read back (sections 5.3.1, 5.3.2 and 5.8.1 of the AV1 specification) |
| `Av1Obu.PacketIsInput` | libobs/obs-av1.c:181-208 | whenever the scan stays inside the packet, the packet output is the input |
| `Av1Obu.PrintedObuParses` | libobs/obs-av1.c:34-61 | a unit written with a size field is parsed back, whatever follows |
| `Av1Obu.ExtractionOfUnits` | libobs/obs-av1.c:181-208 | for well-formed units the packet output is the input and the header output the units of types 1 and 5, in order (section 6.2.2 of the AV1 specification) |
| `Av1Obu.UnitWithoutSize` | libobs/obs-av1.c:34-61 | a last unit without a size field is taken whole if and only if it has no extension byte; otherwise the scan reads behind the packet |
| `Av1Obu.ExtensionNotCounted` | libobs/obs-av1.c:57-58 | a unit of two bytes, the second an extension, for which the scan needs three |
| `Av1Obu.ExtractHeaders` | libobs/obs-av1.c:181-208 | the loop ends on every input, with the specified outputs |
| `ShaderGroups.TranslationPrints` | libobs-opengl/gl-shaderparser.c:271-523 | on the tokens of every expression tree whose last arguments fit, the walker writes exactly the text of its GLSL counterpart, notes its samplers, reads exactly those tokens and goes on behind them; a walk to no parenthesis asks for less |
| `ShaderGroups.FreeReads` | libobs-opengl/gl-shaderparser.c:492-523 | in such a walk groups are read flat, whichever parenthesis their own walks end at |
| `ShaderBodies.FunctionBodyPrints` | libobs-opengl/gl-shaderparser.c:492-560 | over any function body, with expressions, names of types, keywords, groups, nested blocks and calls of `sincos`, the walk ends at the brace that closes it and has written its translation |
| `ShaderTranslator.WalkReadsExpr` | libobs-opengl/gl-shaderparser.c:492-523 | the same for the walker's state piece by piece, wherever the surrounding walk is to end |
| `ShaderTranslator.TokensSpell` | libobs-opengl/gl-shaderparser.c:492-523 | the tokens of a tree spell its text |
| `ShaderTranslator.ArgumentReadWhole` | libobs-opengl/gl-shaderparser.c:496-497 | a last argument is read up to its closing parenthesis if and only if it does not start with one |
| `ShaderTranslator.ProductTextExact` | libobs-opengl/gl-shaderparser.c:295-314 | in a walk that ends at no parenthesis the text of `mul(a, b)` is its translation if and only if `b` does not start with a parenthesis or is one whole group |
| `ShaderTranslator.MulAddTextExact` | libobs-opengl/gl-shaderparser.c:271-293 | the same for the third argument of `mad`; the second may be anything |
| `ShaderGroups.ProductInGroupExact` | libobs-opengl/gl-shaderparser.c:295-314 | a walk that ends at a parenthesis goes on behind `mul(a, b)`, whatever comes there, if and only if `b` does not start with a parenthesis |
| `ShaderGroups.ClampedProductExact` | libobs-opengl/gl-shaderparser.c:360-376 | the text of `saturate(mul(a, b))` is its translation if and only if `b` does not start with a parenthesis |
| `ShaderGroups.NestedProductExact` | libobs-opengl/gl-shaderparser.c:295-314 | the text of `mul(x, mul(a, b))` is its translation if and only if `b` does not start with a parenthesis or is one whole group |
| `ShaderTranslator.MethodsFit` | libobs-opengl/gl-shaderparser.c:425-436 | the five methods of a texture, by their names in HLSL, are written as the GLSL functions of the translation |
| `ShaderGroups.TextureInListExact` | libobs-opengl/gl-shaderparser.c:410-449 | a walk that ends at a comma goes on behind a texture with several arguments if and only if the first of them does not start with a parenthesis |
| `ShaderTranslator.GroupArgumentMisplaced` | libobs-opengl/gl-shaderparser.c:295-314 | the text for `mul(a,(b)+c)` |
| `ShaderTranslator.SincosWrites` | libobs-opengl/gl-shaderparser.c:316-358 | `sincos` becomes three statements through a helper variable, and the counter moves on, if and only if its last argument does not start with a parenthesis |
| `ShaderTranslator.DecimalInjective` | libobs-opengl/gl-shaderparser.c:329 | helper variables of different calls have different names |
| `ShaderTranslator.TablesFit` | libobs-opengl/gl-shaderparser.c:53-91 | the tables of types and renamed intrinsics leave the special intrinsics alone |
| `ShaderMeaning.TranslationMeansSame` | libobs-opengl/gl-shaderparser.c:243-314 | over any values, and if every texture is read through the sampler it ends up with: where the parts of an expression agree at the values that occur, the translation evaluates like the original if and only if the outermost built-in agrees on them too |
| `ShaderMeaning.FaithfulStaysBound` | libobs-opengl/gl-shaderparser.c:389-400 | if every use of a texture goes through one sampler, the walk leaves it bound to that one |
| `ShaderMeaning.TranslationStaysParenthesized` | libobs-opengl/gl-shaderparser.c:271-314 | operators put in place of intrinsics never need parentheses that are not written |
| `ShaderMeaning.FmodIsMod` | libobs-opengl/gl-shaderparser.c:252 | `fmod` and `mod` agree if and only if the quotient is not negative or a whole number |
| `ShaderValues.TimesIsMul` | libobs-opengl/gl-shaderparser.c:295-314 | on numbers, vectors and matrices GLSL's `*` is HLSL's `mul` if and only if not both are vectors |
| `ShaderValues.TimesIsTimes` | libobs-opengl/gl-shaderparser.c:492-523 | it is HLSL's `*` if and only if no vector meets a matrix and no two matrices have different products |
| `ShaderValues.IndexAgrees` | libobs-opengl/gl-shaderparser.c:492-523 | an index, copied, means the same if and only if no matrix that is not symmetric is indexed |
| `ShaderValues.MatrixAgrees` | libobs-opengl/gl-shaderparser.c:73-78 | the matrix that GLSL's constructor makes is the transpose of HLSL's, and the same if and only if that is symmetric |
| `ShaderValues.MatrixMeansSame` | libobs-opengl/gl-shaderparser.c:73-78 | a call of a matrix constructor with two rows means the same if and only if the matrix is symmetric |
| `ShaderValues.RowsBecomeColumns` | libobs-opengl/gl-shaderparser.c:73-78 | the rows 1, 2 and 3, 4: multiplied by a vector they give another result in GLSL |
| `ShaderValues.MethodsAgree` | libobs-opengl/gl-shaderparser.c:425-436 | `Sample`, `SampleBias`, `SampleGrad` and `SampleLevel` without an offset mean what `texture`, `texture` with a bias, `textureGrad` and `textureLod` mean, whatever the textures hold |
| `ShaderValues.OffsetLost` | libobs-opengl/gl-shaderparser.c:425-431 | the offset of `Sample` is taken for a bias, any other is one argument too many |
| `ShaderValues.OffsetIsBias` | libobs-opengl/gl-shaderparser.c:425-431 | what `t.Sample(smp, uv, o)` is in HLSL and what its translation is in GLSL |
| `ShaderValues.TypesMeanSame` | libobs-opengl/gl-shaderparser.c:53-91 | every type is renamed to the same type, except that `float3x4` becomes its transpose |
| `ShaderValues.RenamesMeanSame` | libobs-opengl/gl-shaderparser.c:451-490 | every renamed intrinsic but `fmod`, and every vector constructor, is the same function under its GLSL name |
| `ShaderValues.ShapedMeansSame` | libobs-opengl/gl-shaderparser.c:243-314 | with those meanings: every expression that multiplies no two matrices with `*` and no two vectors with `mul`, indexes no matrix, reads textures by any of the five methods without offsets, and calls only functions that GLSL has under the name they are given evaluates in GLSL to what it is in HLSL; `fmod` and matrix constructors are none of those |
| `ShaderValues.VectorTimesMatrix` | libobs-opengl/gl-shaderparser.c:295-314 | `mul(v * w, M) * u` for all vectors and matrices |
| `ShaderValues.StarMeansSame` | libobs-opengl/gl-shaderparser.c:492-523 | `*` between two variables means the same if and only if the two products agree |
| `ShaderValues.FmodMeansSame` | libobs-opengl/gl-shaderparser.c:462-463 | `fmod` of two numbers means the same if and only if the quotient is not negative or whole |
| `ShaderWalker.GlShaderParser.NextToken` | libobs/util/cf-parser.h:96-106 | moves to the next token that is no space |
| `ShaderWalker.GlShaderParser.WriteFunctionContents` | libobs-opengl/gl-shaderparser.c:492-523 | the walker terminates on every token list, and its state and position are the specified ones |
| `ShaderWalker.GlShaderParser.WriteIntrinsic` | libobs-opengl/gl-shaderparser.c:451-490 | the same, in all branches |
| `ShaderWalker.GlShaderParser.WriteMul` | libobs-opengl/gl-shaderparser.c:295-314 | the same |
| `ShaderWalker.GlShaderParser.WriteMad` | libobs-opengl/gl-shaderparser.c:271-293 | the same |
| `ShaderWalker.GlShaderParser.WriteSaturate` | libobs-opengl/gl-shaderparser.c:360-376 | the same |
| `ShaderWalker.GlShaderParser.WriteSincos` | libobs-opengl/gl-shaderparser.c:316-358 | the same, with the text that stays behind on failure |
| `ShaderWalker.GlShaderParser.WriteTextureCode` | libobs-opengl/gl-shaderparser.c:410-449 | the same, for all five methods of a texture |
| `StorageNames.InputsAgree` | libobs-opengl/gl-shaderparser.c:155-189 | for any nested struct the input names declared are the names read in `main`, in order, built-ins aside |
| `StorageNames.OutputsAgree` | libobs-opengl/gl-shaderparser.c:576-631 | the output names declared are the names written, and a vertex position goes to `gl_Position` only |
| `StorageNames.InputLeafRead` | libobs-opengl/gl-shaderparser.c:576-631 | leaf by leaf: `VERTEXID` reads `gl_VertexID`, the position of a pixel reads `gl_FragCoord`, any other leaf the variable declared for it with its type and mapping |
| `StorageNames.OutputLeafWritten` | libobs-opengl/gl-shaderparser.c:564-631 | leaf by leaf: the position of a vertex goes to `gl_Position`, any other leaf to the variable declared for it |
| `StorageNames.MainInputsAgree` | libobs-opengl/gl-shaderparser.c:633-636 | for a whole `main` the input names agree if and only if every leaf of every later parameter is one GLSL has a variable of its own for |
| `StorageNames.SecondParameterUnread` | libobs-opengl/gl-shaderparser.c:633-636 | two plain parameters: two inputs declared, one read |
| `StorageNames.MainOutputsAgree` | libobs-opengl/gl-shaderparser.c:638-649 | the output names of a returned struct agree |
| `StorageNames.LeafReturnDeclared` | libobs-opengl/gl-shaderparser.c:199-209 | a returned plain value is declared if and only if it is not the position of a vertex |
| `StorageNames.StorageWriter.WriteStorageVar` | libobs-opengl/gl-shaderparser.c:155-189 | the recursion terminates for acyclic structs and declares one variable per leaf, under its flattened name |
| `StorageNames.StorageWriter.UnwrapStorageStruct` | libobs-opengl/gl-shaderparser.c:135-153 | the loop over the members declares their leaves in order |
| `StorageNames.StorageWriter.WriteMainStorageAssign` | libobs-opengl/gl-shaderparser.c:576-631 | the recursion assigns one variable per leaf, between its dotted and its flattened name |
| `StorageNames.StorageWriter.WriteInputs` | libobs-opengl/gl-shaderparser.c:191-197 | all parameters of `main` are declared |
| `StorageNames.StorageWriter.WriteMain` | libobs-opengl/gl-shaderparser.c:683-693 | the storage of a whole `main`: names read before the call are the input declarations under that condition, names written behind it are the output declarations, and a returned value with a mapping is declared unless it is the position of a vertex |
| `ProgramCache.CacheIsDirectLookup` | libobs-opengl/gl-subsystem.c:1030-1053 | over every run of draws and shader destructions the cache holds a pair exactly if a draw linked it and neither shader was destroyed since, and never twice |
| `ProgramCache.ProperPairsCached` | libobs-opengl/gl-subsystem.c:1030-1053 | so the program of a vertex and a pixel shader is cached if and only if a draw linked it and neither of these two was destroyed afterwards |
| `ProgramCache.Device.CacheAgrees` | libobs-opengl/gl-subsystem.c:1030-1053 | the list in memory does so after every run |
| `ProgramCache.RemovedIsThreaded` | libobs-opengl/gl-shader.c:667-690 | taking a program out leaves a well-formed list with all back pointers right |
| `ProgramCache.FrontIsThreaded` | libobs-opengl/gl-shader.c:645-652 | so does putting one in front |
| `ProgramCache.Device.FindProgram` | libobs-opengl/gl-subsystem.c:1030-1043 | finds the program of a pair if and only if the list has one |
| `ProgramCache.Device.CreateProgram` | libobs-opengl/gl-shader.c:601-665 | a program that links goes to the front; otherwise nothing changes |
| `ProgramCache.Device.DestroyProgram` | libobs-opengl/gl-shader.c:667-690 | exactly this program leaves the list, and is no longer the current one |
| `ProgramCache.Device.RemoveProgramReferences` | libobs-opengl/gl-shader.c:281-300 | exactly the programs of the shader leave the list |
| `ProgramCache.Device.DestroyShader` | libobs-opengl/gl-shader.c:302-329 | afterwards no program names the shader |
| `ProgramCache.Device.UseProgram` | libobs-opengl/gl-subsystem.c:1055-1089 | the current program is the one for exactly the pair drawn with |
| `ProgramCache.Device.DestroyAll` | libobs-opengl/gl-subsystem.c:281-294 | the loop ends with an empty list and no current program |
| `ConstantBuffer.LayoutIsOrdered` | libobs-d3d11/d3d11-shader.cpp:133-180 | for every list of sizes the places are ordered and disjoint, nothing of at most 16 bytes straddles a register, and anything larger starts on one |
| `ConstantBuffer.LayoutIsPacked` | libobs-d3d11/d3d11-shader.cpp:171-179 | every constant lies at the first place behind the one before it where it starts a register or fits in what is left of one, and the buffer ends with the last one |
| `ConstantBuffer.PackedIsLayout` | libobs-d3d11/d3d11-shader.cpp:171-179 | no other layout does that |
| `ConstantBuffer.TwoNumbersAndAVector` | libobs-d3d11/d3d11-shader.cpp:171-179 | two numbers lie at 0 and 4, a vector of four behind them at 16 |
| `ConstantBuffer.ImageMatchesLayout` | libobs-d3d11/d3d11-shader.cpp:306-367 | for every list of values of their declared sizes the uploaded buffer has the computed size, holds every value at its place and zeros elsewhere |
| `ConstantBuffer.Shader.BuildConstantBuffer` | libobs-d3d11/d3d11-shader.cpp:133-180 | the loop computes the specified places and total size |
| `ConstantBuffer.Shader.SetValue` | libobs-d3d11/d3d11-shader.cpp:422-436 | a value that differs is stored and marked, and the buffer counts as stale until the next upload |
| `ConstantBuffer.Shader.UpdateParam` | libobs-d3d11/d3d11-shader.cpp:306-341 | pads up to the parameter's place and adds its value; throws exactly for an unset numeric parameter |
| `ConstantBuffer.Shader.UploadParams` | libobs-d3d11/d3d11-shader.cpp:343-367 | with all values sized it throws exactly if the buffer had to be mapped and could not be, and uploads exactly when something changed |
| `ConstantBuffer.Shader.Upload` | libobs-d3d11/d3d11-shader.cpp:343-367 | over any run of settings and uploads the buffer holds the present values afterwards, if and only if it was not out of date at a failed map |
| `ConstantBuffer.FailedMapLosesValue` | libobs-d3d11/d3d11-shader.cpp:343-367 | a number set before a draw whose map fails is not uploaded by the next one either |

## Left out

- Threads and mutexes: every callback is one atomic step.
- GL, D3D11, JSON text, hash tables, deques and allocators: GL programs are objects that link or do not, tables and
  queues are sequences and maps.
- Integer width of `buffering_wait_ticks * AUDIO_OUTPUT_FRAMES` and other `int` products: the tick methods require that
  the offset fits, as `AudioBuffering.OffsetFits` says; time stamps are required large enough that subtractions do not
  wrap where the code does not expect it.
- Floating-point samples: `AudioTick.MixAudio` adds reals; JSON reals are reals, so infinities and NaN, which JSON
  cannot hold, do not occur.
- Reference counts: of settings objects, default objects and arrays, encoders and sources.
- SettingsJson.Settings.SetItem: keeps an item's place in the order; in the code an item that outgrows its allocation
  is taken out and added again at the end, on which only the order of later output depends.
- SettingsJson.Settings.WriteJson: writes user values only, not the `with_defaults` form.
- SettingsJson.Settings.ApplySettings: the applied settings have user values of their items' types, as settings that
  were read, set or applied do; an autoselect value of another type can retype an item under its user value, whose
  bytes are then taken for another type.
- A nested settings object is a value, so two settings that share one by reference are not captured.
- SettingsJson.ApplyAssociative: is stated name by name; the order in which items were added can differ.
- SettingsJson.SettingsRoundTrip: null object pointers are not part of the model, and strings and names are taken to be
  UTF-8; the JSON library drops a member whose string is not.
- AudioEncoder.EncodesFromStart: is about chunks that no pause touches; pauses are `AudioPause.PauseCutsSamples`, and
  `AudioEncoder.Encoder.ReceiveAudio` composes the two. The video side, which waits for the audio, is not part of this
  model.
- AudioPause.PauseCutsSamples: is stated for frames of the size of a float, where `unpause_audio` is right. Nothing
  reads a chunk's time stamp once the encoder has started.
- AudioEncoder.Encoder.ReceiveAudio: during a pause frames have at least the size of a float; for smaller ones
  `unpause_audio` leaves less than the frames it counts, and the encoder reads behind the chunk.
- AudioBuffering.AudioCore.AudioCallback: the earliest timestamp is an input, and what the sources do in the same tick
  is left to `AudioTick`, `AudioSource` and `AudioTimeline`. A source is taken to be mixed directly, not through
  another one.
- NalUnits.SerializeData: one model serves AVC and HEVC, whose loops differ only in how they classify a unit.
- SpsReader.BitstreamReader.GetUeGolomb: the shift `1 << i` for 31 or 32 zeros, which C leaves undefined, counts as a
  power of two that vanishes in eight bits.
- Av1Obu.ParseObuHeader: reads past the end of the packet and overflowing shifts are the result `None`.
- `obs_avc_keyframe`, `obs_hevc_keyframe`, `obs_av1_keyframe`: they would add only easy members.
- The trees of `ShaderTranslator` carry spaces behind operands, operators and commas, not in front of the first operand
  of a parenthesis; `ShaderBodies` knows no statements, only what stands between expressions.
- ShaderValues.ShapedMeansSame: that `obs_load_2d` and `obs_load_3d` read the texel that HLSL's `Load` reads is assumed
  of the textures; the helpers look at its centre, and at places outside a texture the languages differ.
- ConstantBuffer.LayoutIsPacked: is about the sizes that the code computes; a shader compiler may lay out arrays of
  small elements otherwise.
- ShaderValues.ShapedAgrees: values are reals, vectors of two and matrices of two rows; integers, larger sizes,
  matrices that are not square and swizzles of several components are left out, and so is how a variable's value gets
  from memory into a shader.
- ShaderGroups.TranslationPrints: in a walk to a comma, calls and textures with several arguments are read as in a walk
  to a parenthesis, where more is asked of last arguments.
- ShaderWalker.GlShaderParser: the two tables of names are maps, searched in no particular order since no name is in
  both.
- StorageNames.StorageWriter: emits declarations and assignments as records instead of lines of text;
  `gl_rename_attributes` is left out, as textual replacement is sound only when no attribute's name occurs inside
  another.
- ProgramCache.Device.CreateProgram: parameter binding is left out; linking succeeds or fails as a whole.
- ConstantBuffer.Shader: string and unknown parameter types, and the textures' own bindings, are left out.
- Fader curves, peak meters, GPU rescale references, encoder groups, device rebuild and everything of the frontend.
