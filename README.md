# Kinovea video reader — a Dafny model

This project models the core of Kinovea's FFmpeg-backed video reader, the class
`VideoReaderFFMpeg` of the PlayerServer assembly. The model covers:

- **Opening a file.** The reader picks the video and metadata streams and
  reads the time base, first timestamp and duration. It estimates the frame
  rate through a chain of fallbacks and derives the working zone, the pixel
  aspect ratio and the decoding size.
- **The timestamp reconciler.** `SetTimestampFromPacket` assigns a
  presentation timestamp to every decoded picture. It copes with packets
  whose pts or dts is missing and with the decoder's one-frame buffering.
- **The seek-and-decode loop.** `ReadFrame` feeds the playback frame cache.
  Playback navigation (`MoveNext`, `MoveTo`) sits on top of it.
- **Importing a selection into memory** for analysis mode (`ExtractToMemory`).
  This covers the choice of import strategy (`PrepareSelection`), placing each
  imported frame, and finalising the selection.

The decoding loops of `ReadFrame` and `ExtractToMemory` are methods with
`while` loops over a packet source. Each is proved equal to a function of the
file's packets (`DecodeLoops.DecodeRun`, `DecodeLoops.ImportRun`) that takes
the loop one packet at a time. Lemmas then state what those functions
promise: the packets each observation came from, the single overshoot
correction, where the loop stops, and which frames it imports.

Modules:

| module | what it holds |
|---|---|
| `Numerics` | the C++/.NET arithmetic the reader relies on. This covers the 64-bit sentinels, C++ division truncating toward zero, the double-to-integer cast, banker's rounding (`Math::Round`), the 32-bit wrap-around, and what an infinite double converts to |
| `Timestamps` | the `TimestampInfo` record, the reconciler, and `Replay`, which folds the reconciler over a sequence of packet observations |
| `PlaybackCache` | the frame cache as the reader uses it: a strictly increasing list of timestamps with a cursor |
| `PacketSource` | the demuxer and decoder: packets read one at a time, and a backward seek landing on a packet |
| `FormatAnalysis` | the pure computations `Open` and `SetDecodingSize` perform on the stream information |
| `DecodeLoops` | the two decoding loops as functions of the packets, and what they promise |
| `AnalysisWindow` | the analysis-mode selection (`m_FrameList`, `m_PrimarySelection`) and the pure rules that prepare, fill and finalise it |
| `Reader` | the `VideoReaderFFMpeg` class: its state and the methods that change it |

Pictures are represented by their timestamps only. The frame cache and the
selection hold timestamps, and pixel data is not modelled.

Where the code's behaviour differs from what its comments and names suggest, the model follows the code:

- `SetTimestampFromPacket` (VideoReaderFFMpeg.cpp:700-709) has a branch that
  sets the pending timestamp to 0 when a buffered packet has no dts. That
  branch can never run: AV_NOPTS_VALUE is negative, so the earlier `dts < 0`
  test catches it first. The pending timestamp therefore becomes "unset".
  `Timestamps.Buffering` states this.
- `SetDecodingSize` (VideoReaderFFMpeg.cpp:1718-1721) tests the *previous*
  decoding width for divisibility by 4, not the original width. While unloaded
  that width is 0, so `Open` never rounds the width. Repeated calls alternate
  between a rounded and an unrounded width (`FormatAnalysis.DecodingWidthAlternates`).
- The working zone ends one frame before the end of the file. For a file
  shorter than one frame the zone is inverted (`FormatAnalysis.WorkingZoneNonEmpty`).
- `PrepareSelection` (VideoReaderFFMpeg.cpp:1484-1579) has a path that never
  assigns its result. This happens in analysis mode when the request neither
  cuts into the current selection nor extends it by a frame. The model
  represents that path as the strategy `Unset`. `ExtractToMemory` then seeks
  and decodes, but places nothing.
- Neither `ExtractToMemory`'s seek nor its re-seek on overshoot resets
  `m_TimestampInfo`. `ReadFrame` does reset it, so the two differ.

## Model

| member | source | states |
|---|---|---|
| Numerics.TruncDiv | PlayerServer/PlayerServer/VideoReaderFFMpeg.cpp:1608-1610 | the quotient truncated toward zero: remainder smaller than the divisor, carrying the dividend's sign, and quotient sign from the operands' signs |
| Numerics.TruncReal | PlayerServer/PlayerServer/VideoReaderFFMpeg.cpp:1700-1715 | the cast of a double to an integer: within 1 of the value, never larger in magnitude, same sign |
| Numerics.RoundHalfEven | PlayerServer/PlayerServer/VideoReaderFFMpeg.cpp:224 | `Math::Round`: within one half of the value, and even on a tie |
| Numerics.ToInt32 | PlayerServer/PlayerServer/VideoReaderFFMpeg.cpp:1610 | the narrowing to `int`: in range, the identity on values already in range, congruent modulo 2^32 |
| Numerics.DoubleToInt32 | PlayerServer/PlayerServer/VideoReaderFFMpeg.cpp:1713 | the cast of a finite double to `int`: in range; truncated toward zero when the truncation fits, otherwise the indefinite integer |
| Timestamps.SetTimestampFromPacket | PlayerServer/PlayerServer/VideoReaderFFMpeg.cpp:622-752 | buffering leaves the current and last decoded timestamps alone; a decoded picture's timestamp becomes the last decoded one; a pending timestamp stays unset or usable; a decoded picture never gets a negative timestamp |
| Timestamps.DecodedWithTimestamp | PlayerServer/PlayerServer/VideoReaderFFMpeg.cpp:670-743 | a decoded picture whose pts, or else dts, is usable gets the earlier of that and the pending timestamp, and the later one stays pending |
| Timestamps.DecodedWithoutTimestamp | PlayerServer/PlayerServer/VideoReaderFFMpeg.cpp:644-669 | with no usable pts or dts, a decoded picture takes the pending timestamp and consumes it; else it gets the last decoded timestamp plus one frame; else 0 |
| Timestamps.Buffering | PlayerServer/PlayerServer/VideoReaderFFMpeg.cpp:692-714 | a buffered packet changes only the pending timestamp, which becomes its pts, else its dts, else unset (the branch for 0 is dead) |
| Timestamps.DecodedNotAfterPending | PlayerServer/PlayerServer/VideoReaderFFMpeg.cpp:638-750 | a decoded picture's timestamp is never later than the one left pending |
| Timestamps.ReplayAppend | PlayerServer/PlayerServer/VideoReaderFFMpeg.cpp:622-752 | replaying one more observation is one more reconciler step, and the decoded count grows by one exactly when it decoded |
| Timestamps.ReplayKeepsBufferedWellFormed | PlayerServer/PlayerServer/VideoReaderFFMpeg.cpp:692-750 | whatever packets arrive, the pending timestamp stays unset or usable |
| Timestamps.ReplayBufferingOnly | PlayerServer/PlayerServer/VideoReaderFFMpeg.cpp:692-714 | a run of packets that only buffer leaves the current and last decoded timestamps unchanged |
| Timestamps.ReplayDecodedNonNegative | PlayerServer/PlayerServer/VideoReaderFFMpeg.cpp:638-743 | once a picture is decoded, the current timestamp is the last decoded one and is non-negative |
| PlaybackCache.Appended | PlayerServer/PlayerServer/VideoReaderFFMpeg.cpp:595 | adding a frame keeps the cache strictly increasing; the frame is appended exactly when it is later than every cached one |
| PlaybackCache.FrameCache.Add | PlayerServer/PlayerServer/VideoReaderFFMpeg.cpp:595 | the cache becomes `Appended(old, ts)` and the cursor stays put |
| PlaybackCache.FrameCache.Clear | PlayerServer/PlayerServer/VideoReaderFFMpeg.cpp:286 | the cache is emptied and has no current frame |
| PlaybackCache.FrameCache.MoveNext | PlayerServer/PlayerServer/VideoReaderFFMpeg.cpp:320 | succeeds exactly when there is a next frame, and then advances the cursor by one |
| PlaybackCache.FrameCache.MoveTo | PlayerServer/PlayerServer/VideoReaderFFMpeg.cpp:344 | succeeds exactly when the timestamp is cached, and then makes it current; otherwise the cursor stays put |
| PacketSource.PacketSource.Read | PlayerServer/PlayerServer/VideoReaderFFMpeg.cpp:485 | `av_read_frame`: the next packet and one step forward, or None at the end of the file |
| PacketSource.PacketSource.Seek | PlayerServer/PlayerServer/VideoReaderFFMpeg.cpp:437-445 | the read position moves to where the seek lands, and the target is logged |
| FormatAnalysis.GetFirstStreamIndex | PlayerServer/PlayerServer/VideoReaderFFMpeg.cpp:1455-1482 | the index of the first stream of the type with the most frames, or -1 when every such stream reports -1 or fewer frames |
| FormatAnalysis.Inverse | PlayerServer/PlayerServer/VideoReaderFFMpeg.cpp:131 | the inverse of a time base is finite exactly when the numerator is non-zero, and then multiplying it by the numerator gives the denominator |
| FormatAnalysis.EstimateFramesPerSecond | PlayerServer/PlayerServer/VideoReaderFFMpeg.cpp:159-219 | the fallback chain, each step exactly when every earlier one fails: libav's average rate when non-zero; frames over duration when both are positive; the stream time base when its inverse is finite and below 1000; the codec time base likewise; 29.97 or 24.975 for a codec rate of 30000 or 25000; else 25. The two time-base steps divide by ticks per frame when it exceeds 1 |
| FormatAnalysis.DurationsExample | PlayerServer/PlayerServer/VideoReaderFFMpeg.cpp:169-177 | 240 frames over 8 seconds estimate 30 fps by the durations method |
| FormatAnalysis.DropFrameQuirk | PlayerServer/PlayerServer/VideoReaderFFMpeg.cpp:181-217 | codec time bases 1/30000 and 1/25000 give 29.97 and 24.975 fps, and 1/90000 falls back to 25 |
| FormatAnalysis.AverageTimeStampsPerFrame | PlayerServer/PlayerServer/VideoReaderFFMpeg.cpp:224 | timestamps per frame is the ratio rounded to within a half, to the even neighbour on a tie, and the indefinite integer when the frame rate is 0 |
| FormatAnalysis.WorkingZoneNonEmpty | PlayerServer/PlayerServer/VideoReaderFFMpeg.cpp:226-228 | the zone is non-inverted exactly when the duration is at least one frame |
| FormatAnalysis.PixelAspectRatio | PlayerServer/PlayerServer/VideoReaderFFMpeg.cpp:234-260 | a missing or 1:1 sample aspect ratio gives 1; a zero denominator gives an infinite ratio; otherwise a non-MPEG-2 stream gives the sample ratio itself, and MPEG-2 reads it as a display ratio: height times that ratio over width when this is at least 1, else the display ratio (infinite for a zero width); the ratio is never 0 |
| FormatAnalysis.DecodingHeight | PlayerServer/PlayerServer/VideoReaderFFMpeg.cpp:1700-1715 | 4:3 and 16:9 give the truncated 3/4 and 9/16 of the width; square pixels keep the height; Auto divides the height by the pixel aspect ratio and casts to `int`: truncated toward zero (within 1, never larger in magnitude) when that fits, the indefinite integer when it does not or the ratio is 0, and 0 for an infinite ratio |
| FormatAnalysis.TinySampleAspectRatio | PlayerServer/PlayerServer/VideoReaderFFMpeg.cpp:1711-1713 | a 1080-line non-MPEG-2 stream with a sample aspect ratio of 1/10000000 gets the indefinite integer as its decoding height |
| FormatAnalysis.DecodingWidthRoundsUp | PlayerServer/PlayerServer/VideoReaderFFMpeg.cpp:1718-1721 | when the previous width is not a multiple of 4, the new width is the original one rounded up to a multiple of 4 |
| FormatAnalysis.DecodingWidthAlternates | PlayerServer/PlayerServer/VideoReaderFFMpeg.cpp:1718-1721 | starting from an original width that is not a multiple of 4, two calls give a rounded width and then the original width back |
| AnalysisWindow.FrameNumber | PlayerServer/PlayerServer/VideoReaderFFMpeg.cpp:1436-1454 | the index of the first selected frame at or after the position, or the last one; 0 when the selection is empty |
| AnalysisWindow.FrameNumberIs | PlayerServer/PlayerServer/VideoReaderFFMpeg.cpp:1436-1454 | any index with that characterisation is the frame number |
| AnalysisWindow.ReduceEnd | PlayerServer/PlayerServer/VideoReaderFFMpeg.cpp:1528-1541 | cutting the end keeps a non-empty prefix |
| AnalysisWindow.ReduceStart | PlayerServer/PlayerServer/VideoReaderFFMpeg.cpp:1543-1557 | cutting the start keeps a non-empty suffix |
| AnalysisWindow.ReduceEndSorted | PlayerServer/PlayerServer/VideoReaderFFMpeg.cpp:1528-1541 | on a sorted selection, a frame survives past the first exactly when the frame before it is earlier than the new end |
| AnalysisWindow.ReduceStartSorted | PlayerServer/PlayerServer/VideoReaderFFMpeg.cpp:1543-1557 | on a sorted selection, a frame survives exactly when it is at or after the new start, or is the last one |
| AnalysisWindow.PrepareReloads | PlayerServer/PlayerServer/VideoReaderFFMpeg.cpp:1494-1507 | outside analysis mode, or when forced, the import is complete over the requested range, starting from an empty list |
| AnalysisWindow.PrepareSurvivors | PlayerServer/PlayerServer/VideoReaderFFMpeg.cpp:1518-1557 | in analysis mode the kept frames are a non-empty contiguous slice of the old selection, and all of it when the request covers it |
| AnalysisWindow.PrepareStrategy | PlayerServer/PlayerServer/VideoReaderFFMpeg.cpp:1528-1574 | extending the end by a frame has priority over extending the start; otherwise it is a reduction exactly when a bound cuts in, and unassigned exactly when nothing applies; never a complete import |
| AnalysisWindow.PrepareCompleteIffEmpty | PlayerServer/PlayerServer/VideoReaderFFMpeg.cpp:1494-1517 | the strategy is a complete import exactly when the kept list is empty |
| AnalysisWindow.ExampleInsertionAfter | PlayerServer/PlayerServer/VideoReaderFFMpeg.cpp:1563-1568 | a 41-frame selection over [100, 500] asked for [100, 520] imports after it, from 500 |
| AnalysisWindow.ExampleReduction | PlayerServer/PlayerServer/VideoReaderFFMpeg.cpp:1528-1557 | the same selection asked for [150, 450] is reduced to the 31 frames of that range |
| AnalysisWindow.PrepareKeepsSorted | PlayerServer/PlayerServer/VideoReaderFFMpeg.cpp:1484-1579 | preparation keeps a sorted selection sorted |
| AnalysisWindow.PlaceFrame | PlayerServer/PlayerServer/VideoReaderFFMpeg.cpp:1203-1222 | complete imports append; insertion after appends only frames later than the old end; reductions keep the list; insertion before fails exactly when its index is out of range |
| AnalysisWindow.PlaceFrameBefore | PlayerServer/PlayerServer/VideoReaderFFMpeg.cpp:1203-1207 | insertion before puts the frame at index framesDecoded-1, shifting the rest and adding exactly that frame |
| AnalysisWindow.InsertionBeforeBuildsPrefix | PlayerServer/PlayerServer/VideoReaderFFMpeg.cpp:1203-1207 | frames decoded in order before the old start accumulate ahead of the old selection |
| AnalysisWindow.EstimateNumberOfFrames | PlayerServer/PlayerServer/VideoReaderFFMpeg.cpp:1593-1612 | the range length (to the end of file when the end is -1) divided by the frame duration, narrowed to `int` (congruent modulo 2^32 to the quotient); when the quotient fits, it is truncated toward zero: the remainder is smaller than the frame duration and carries the length's sign |
| AnalysisWindow.EstimateWholeFrames | PlayerServer/PlayerServer/VideoReaderFFMpeg.cpp:1593-1612 | a range exactly k frame durations long is estimated at k frames, for every k that fits in an `int` |
| AnalysisWindow.Finalised | PlayerServer/PlayerServer/VideoReaderFFMpeg.cpp:1385-1431 | analysis mode is entered exactly when the import was not cancelled and kept frames; the cursor is clamped into the list; otherwise the selection is emptied |
| AnalysisWindow.Selection.GetFrameNumber | PlayerServer/PlayerServer/VideoReaderFFMpeg.cpp:1436-1454 | the loop computes `FrameNumber` |
| AnalysisWindow.Selection.PrepareSelection | PlayerServer/PlayerServer/VideoReaderFFMpeg.cpp:1484-1579 | the selection becomes the kept frames, and the strategy and range are those of `Prepare` |
| AnalysisWindow.Selection.Place | PlayerServer/PlayerServer/VideoReaderFFMpeg.cpp:1203-1222 | the frame list becomes `PlaceFrame`'s result, or is unchanged when placement fails |
| AnalysisWindow.Selection.Finalise | PlayerServer/PlayerServer/VideoReaderFFMpeg.cpp:1385-1431 | the selection becomes `Finalised`'s outcome |
| Reader.ToTimestamps | PlayerServer/PlayerServer/VideoReaderFFMpeg.cpp:136-144 | a non-positive start time or duration gives 0; an infinite time base gives the indefinite integer; otherwise microseconds times timestamps per second, truncated toward zero |
| Reader.SeekTarget | PlayerServer/PlayerServer/VideoReaderFFMpeg.cpp:422-428 | a relative move of n < 0 frames goes n frame durations before the current frame, or to 0 when that is negative; it never goes past the current frame; otherwise the target is the one given |
| DecodeLoops.Later | PlayerServer/PlayerServer/VideoReaderFFMpeg.cpp:1208-1212 | exactly the frames later than the bound are kept, a sorted list stays sorted, and a list entirely above the bound is kept whole |
| DecodeLoops.LaterAppend | PlayerServer/PlayerServer/VideoReaderFFMpeg.cpp:1208-1212 | the kept frames are in their original order: one more frame is appended exactly when it is later than the bound |
| DecodeLoops.Earlier | PlayerServer/PlayerServer/VideoReaderFFMpeg.cpp:1203-1207 | exactly the frames earlier than the bound are kept, and a list entirely below it is kept whole |
| DecodeLoops.EarlierAppend | PlayerServer/PlayerServer/VideoReaderFFMpeg.cpp:1203-1207 | the kept frames are in their original order: one more frame is appended exactly when it is earlier than the bound |
| Reader.VideoReaderFFMpeg.Close | PlayerServer/PlayerServer/VideoReaderFFMpeg.cpp:274-298 | a loaded reader is reset to its empty media information with an empty cache; an unloaded one is left as it is |
| Reader.VideoReaderFFMpeg.SetDecodingSize | PlayerServer/PlayerServer/VideoReaderFFMpeg.cpp:1694-1724 | only the decoding size changes, to the width rule and the height policy |
| Reader.VideoReaderFFMpeg.SelectStreams | PlayerServer/PlayerServer/VideoReaderFFMpeg.cpp:90-109 | the video stream is the best video stream; the metadata stream is the best subtitle stream when it is a text stream tagged XML, else -1 |
| Reader.VideoReaderFFMpeg.ReadTiming | PlayerServer/PlayerServer/VideoReaderFFMpeg.cpp:131-262 | time base, first timestamp and duration are recorded; opening fails exactly when the duration is not positive, otherwise frame rate, frame duration, working zone, sizes and aspect ratio follow the rules above |
| Reader.VideoReaderFFMpeg.Open | PlayerServer/PlayerServer/VideoReaderFFMpeg.cpp:59-273 | each failure, from an unopened file to an unopenable codec, gives its own result; the reader is loaded exactly on success, with every piece of media information as derived above and an empty cache |
| Reader.VideoReaderFFMpeg.ChangeAspectRatio | PlayerServer/PlayerServer/VideoReaderFFMpeg.cpp:373-380 | the policy is stored, the decoding size recomputed and the cache cleared |
| Reader.VideoReaderFFMpeg.ChangeDeinterlace | PlayerServer/PlayerServer/VideoReaderFFMpeg.cpp:381-387 | the option is stored and the cache cleared |
| Reader.VideoReaderFFMpeg.ReadFrame | PlayerServer/PlayerServer/VideoReaderFFMpeg.cpp:404-621 | an unloaded reader fails untouched; a target (or a backward move) seeks and clears the reconciler; an invalid decoding size fails after that; otherwise the result and the final decoding state are `DecodeRun` over the file's packets from where the seek landed, the seek log records the seek and the one re-seek, and success appends the frame reached to the cache |
| Reader.VideoReaderFFMpeg.DecodeToTarget | PlayerServer/PlayerServer/VideoReaderFFMpeg.cpp:468-609 | the loop ends in `DecodeRun`'s outcome: reader position, reconciler state and seek log are those of its final state, and the cache gains the frame reached exactly on success |
| Reader.VideoReaderFFMpeg.DecodeTurn | PlayerServer/PlayerServer/VideoReaderFFMpeg.cpp:483-608 | one turn is `Advance` on the packet read; a failed read ends the loop with nothing changed |
| DecodeLoops.Advance | PlayerServer/PlayerServer/VideoReaderFFMpeg.cpp:483-608 | each turn that does not stop either ends the first pass or reads further, so the loop terminates |
| DecodeLoops.DecodeRun | PlayerServer/PlayerServer/VideoReaderFFMpeg.cpp:468-609 | the loop ends with Success or FrameNotRead, the latter only at the end of the packets |
| DecodeLoops.ReadFrameDecodes | PlayerServer/PlayerServer/VideoReaderFFMpeg.cpp:468-609 | `DecodeRun`'s outcome observed exactly the video packets read (before and after the one correction), its reconciler state is their replay, the correction happened exactly when the first picture after the seek overshot, and it stopped at the first picture at or after the goal (or after the count), or at the end of the file with FrameNotRead |
| Reader.VideoReaderFFMpeg.MoveNext | PlayerServer/PlayerServer/VideoReaderFFMpeg.cpp:299-321 | moves within the cache when it can; else it decodes on from the reader's position, observing exactly the video packets read, with at most one picture completed: that picture is appended and made current, and its absence means the end of the file or an invalid size; the current frame only moves forward |
| Reader.VideoReaderFFMpeg.MoveTo | PlayerServer/PlayerServer/VideoReaderFFMpeg.cpp:322-345 | a cached target is made current with nothing decoded; otherwise the cache is cleared unless this is the rollover from a cached working-zone end to its start, the decoding is `DecodeRun` toward the target, and the call succeeds exactly when the timestamp reached is in the cache |
| Reader.VideoReaderFFMpeg.ExtractToMemory | PlayerServer/PlayerServer/VideoReaderFFMpeg.cpp:1031-1433 | the selection is prepared as `Prepare` says; a reduction decodes nothing; otherwise the reader seeks to the range start, and with a valid decoding size the import is `ImportRun` over the packets from there; the selection is then kept or discarded as `Finalised` says of the imported list and a cancellation |
| Reader.VideoReaderFFMpeg.ImportSelection | PlayerServer/PlayerServer/VideoReaderFFMpeg.cpp:1056-1433 | after preparation, the same outcome in terms of the prepared selection and its plan |
| Reader.VideoReaderFFMpeg.LoadSelection | PlayerServer/PlayerServer/VideoReaderFFMpeg.cpp:1070-1362 | the seek to the range start, then the import loop only when the decoding size is valid; cancellation is reported exactly when the loop ended on it |
| Reader.VideoReaderFFMpeg.ImportFrames | PlayerServer/PlayerServer/VideoReaderFFMpeg.cpp:1106-1362 | the loop ends in `ImportRun`'s outcome: why it ended, and reader position, reconciler state, frame list and seek log as in its final state |
| Reader.VideoReaderFFMpeg.ImportTurn | PlayerServer/PlayerServer/VideoReaderFFMpeg.cpp:1110-1290 | one turn is `ImportAdvance` on the packet read; a failed read ends the loop with nothing changed |
| DecodeLoops.PlanOf | PlayerServer/PlayerServer/VideoReaderFFMpeg.cpp:1052-1066 | the plan carries the prepared strategy and range; the old bounds are the first and last kept frames (in order on a sorted list), or 0 and 0 for a complete import or an empty list |
| DecodeLoops.ImportAdvance | PlayerServer/PlayerServer/VideoReaderFFMpeg.cpp:1110-1290 | a turn never ends the import as the end of the file, and a turn that does not end it either ends the first pass or reads further |
| DecodeLoops.ImportRun | PlayerServer/PlayerServer/VideoReaderFFMpeg.cpp:1106-1362 | the import ends as the end of the file only at the end of the packets |
| DecodeLoops.PlaceKeeps | PlayerServer/PlayerServer/VideoReaderFFMpeg.cpp:1203-1222 | placing a frame keeps the list what the strategy promises, and only an insertion before the selection can throw, once a frame counted earlier reached the selection |
| DecodeLoops.ImportFramesImports | PlayerServer/PlayerServer/VideoReaderFFMpeg.cpp:1106-1362 | `ImportRun`'s outcome observed exactly the video packets read, with the one correction exactly on an overshoot of the start; the imported frames are exactly the pictures at or after the start, in order; none before the last reached a positive end; it ended on cancellation, a throw (insertion before only), the end of the file or the end reached; and the list is the imported frames (complete), the old list plus those after its end (insertion after), those before its start plus the old list (insertion before, while none reached it), or unchanged (unset) |

## Left out

- The FFmpeg library itself is not modelled. Opening, probing, reading packets and seeking are
  inputs: a `Container` value and a `PacketSource` object. Where a seek lands and which packets
  complete a picture are part of that input.
- Pixel data is not modelled: the conversion and scaling (`RescaleAndConvert`, `sws_scale`),
  deinterlacing, bitmap creation, and the `ImageNotConverted` result and the exception path
  around the conversion. A frame is its timestamp.
- `ExtractSummary`, `ReadMetadata`, `CanExtractToMemory`, `DisposeFrame`, the `Dump*` helpers,
  logging and the audio code are outside this model's core.
- The lower and upper seek bounds passed to `avformat_seek_file` are not modelled; only the target is.
- Allocation failures other than a non-positive decoding size are not modelled.
- Floating-point rounding is not modelled: reals are exact, so a `double` that would round
  differently is not captured.
- An infinite or NaN double is modelled as `None`, read as positive infinity. The sign and NaN are
  lost, which matters only for degenerate stream headers. EstimateFramesPerSecond: a time base
  `{0, den}` with a negative `den` inverts to negative infinity, which passes the `< 1000` test, so
  the code picks that time base with a frame rate of negative infinity; the model moves on to the
  next step (ending at 25 fps). PixelAspectRatio: an MPEG-2 stream whose coded width is 0 gives
  NaN when its height is 0, so the code's decoding height becomes the indefinite integer while the
  model gives 0; when the height times the display ratio is negative, the code falls back to the
  display ratio while the model gives an infinite ratio.
- 64-bit overflow of timestamp arithmetic is not modelled: timestamps are unbounded integers.
- `FrameIntervalMilliseconds`, the sample aspect ratio and the file path in the media
  information are only reported, never used by the core, and are left out.
- The frame cache's capacity, eviction and working-zone sentinels are left out (that class is
  not part of this model); the cache is its ordered timestamps and a cursor.
- Concurrency, `ReportProgress` and the background worker are left out; cancellation is the
  `cancel` input, read after each imported frame.
- Reader.VideoReaderFFMpeg.ExtractToMemory: it does not call `EstimateNumberOfFrames`, since the
  estimate only feeds progress reporting; the division by a zero frame duration there is therefore
  not reached in the model.
- Reader.VideoReaderFFMpeg.ExtractToMemory: an `InsertionBefore` placement whose index is past the
  end of the list throws in .NET; the model ends the import without placing that frame, as the
  handler does, instead of modelling the exception.
- Reader.VideoReaderFFMpeg.ExtractToMemory: the code reads two legacy fields that this file never
  writes, and the model reads the reader's own state in their place.
  `m_PrimarySelection->iCurrentTimeStamp` (VideoReaderFFMpeg.cpp:1127, 1166, 1170, 1194, 1203,
  1208) becomes the reconciled current timestamp. `m_InfosVideo` becomes `m_VideoInfo`: its
  decoding size for the picture buffer (1093, 1100), its timestamps per second for the re-seek
  target (1143), and its timestamps per frame for the thresholds of `PrepareSelection` (1563, 1569)
  that choose between `InsertionAfter`, `InsertionBefore` and `Unset`. The conversion and bitmap
  reads of `m_InfosVideo` (1175, 1185) are part of the pixel data left out above.
- AnalysisWindow.EstimateNumberOfFrames: the code reads the duration and timestamps per frame of
  `m_InfosVideo` (1602, 1609); the model takes them as parameters.
- Reader.VideoReaderFFMpeg.ExtractToMemory: for `InsertionBefore`, the list is stated only while
  every frame counted before the newest lies before the old start; after that it is given by
  `AnalysisWindow.PlaceFrame` turn by turn.
- Reader.VideoReaderFFMpeg.ExtractToMemory: called on an unloaded reader, the code calls libav on
  a closed format context; the model runs the same steps over the packet source.
- Reader.VideoReaderFFMpeg.MoveTo: the rollover keeps the cache so that playback can loop from the
  working zone's end to its start. The model's cache only appends frames later than every cached
  one (the cache class is not part of this model), so the decoded start frame is not added and a
  rollover `MoveTo` returns false. The cache's behaviour on a rollover is left out.
- Reader.VideoReaderFFMpeg.ReadFrame: a backward move (`framesToDecode < 0`) requires a current
  frame in the cache. The code dereferences `Cache->Current` there (VideoReaderFFMpeg.cpp:424) and
  throws when there is none. No caller in this file moves backward: `MoveNext` and `MoveTo` decode
  forward by one frame.
- `DeleteFrameList` is modelled as emptying the frame list; disposing the bitmaps is left out.
- The serialisation helper of the ScreenManager assembly is not part of this model.
