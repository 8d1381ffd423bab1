/**
 * What VideoReaderFFMpeg derives, once, when a file is opened: which stream
 * is the video, the frame rate (a fallback chain over the hints libav gives),
 * the average number of timestamps per frame, the working zone, the pixel
 * aspect ratio and the decoding size. The C++ computes in doubles; the model
 * computes exactly, over reals.
 */
module FormatAnalysis {
  import opened Numerics

  /** libav's AV_TIME_BASE: container start time and duration are in microseconds. */
  const AvTimeBase: int := 1000000

  datatype Rational = Rational(num: int, den: int)

  datatype MediaType = Video | Audio | Data | Subtitle | Unknown

  datatype CodecInfo = CodecInfo(
    isMpeg2: bool,           // codec_id == CODEC_ID_MPEG2VIDEO
    isText: bool,            // codec_id == CODEC_ID_TEXT
    decoderFound: bool,      // avcodec_find_decoder succeeds
    opens: bool,             // avcodec_open succeeds
    ticksPerFrame: int,
    timeBase: Rational,
    width: int,
    height: int,
    sampleAspectRatio: Rational)

  datatype StreamInfo = StreamInfo(
    codecType: MediaType,
    nbFrames: int,
    timeBase: Rational,
    avgFrameRate: Rational,
    xmlLanguageTag: bool,    // its "language" metadata tag is "XML"
    codec: CodecInfo)

  datatype Size = Size(Width: int, Height: int)

  datatype ImageAspectRatio = Auto | Force43 | Force169 | ForcedSquarePixels

  /** Timestamps are ticks of the video stream's time base. */
  datatype VideoSection = VideoSection(Start: int, End: int)

  const EmptySection := VideoSection(0, 0)

  //---------------------------------------------------------------------------
  // Stream selection (GetFirstStreamIndex)
  //---------------------------------------------------------------------------

  /**
   * `r` is the stream GetFirstStreamIndex picks: of the streams of type `t`,
   * the first one with the most frames, among those reporting more than -1
   * frames; -1 when there is none.
   */
  ghost predicate BestStream(streams: seq<StreamInfo>, t: MediaType, r: int) {
    && -1 <= r < |streams|
    && (r == -1 <==> forall i :: 0 <= i < |streams| && streams[i].codecType == t ==> streams[i].nbFrames <= -1)
    && (r >= 0 ==> streams[r].codecType == t && streams[r].nbFrames > -1)
    && (r >= 0 ==> forall i :: 0 <= i < |streams| && streams[i].codecType == t ==> streams[i].nbFrames <= streams[r].nbFrames)
    && (r >= 0 ==> forall i :: 0 <= i < r && streams[i].codecType == t ==> streams[i].nbFrames < streams[r].nbFrames)
  }

  method GetFirstStreamIndex(streams: seq<StreamInfo>, codecType: MediaType) returns (best: int)
    ensures BestStream(streams, codecType, best)
  {
    var current := 0;
    var bestFrames := -1;
    best := -1;
    while current < |streams|
      invariant 0 <= current <= |streams|
      invariant -1 <= best < current
      invariant best == -1 ==> bestFrames == -1
      invariant best >= 0 ==> streams[best].codecType == codecType && streams[best].nbFrames == bestFrames && bestFrames > -1
      invariant forall i :: 0 <= i < current && streams[i].codecType == codecType ==> streams[i].nbFrames <= bestFrames
      invariant forall i :: 0 <= i < best && streams[i].codecType == codecType ==> streams[i].nbFrames < bestFrames
    {
      if streams[current].codecType == codecType {
        var frames := streams[current].nbFrames;
        if frames > bestFrames {
          bestFrames := frames;
          best := current;
        }
      }
      current := current + 1;
    }
  }

  /** The choice is determined: one index at most satisfies the selection rule. */
  lemma BestStreamUnique(streams: seq<StreamInfo>, t: MediaType, r1: int, r2: int)
    requires BestStream(streams, t, r1) && BestStream(streams, t, r2)
    ensures r1 == r2
  {
  }

  //---------------------------------------------------------------------------
  // Frame rate fallback chain
  //---------------------------------------------------------------------------

  datatype FpsMethod = Libav | Durations | StreamTimebase | CodecTimebase | SpecialCase | Forced

  /** `(double)den / (double)num`; None when num is zero (an infinite or NaN double). */
  function Inverse(r: Rational): (x: Option<real>)
    ensures x.Some? <==> r.num != 0
    ensures x.Some? ==> x.value * r.num as real == r.den as real
  {
    if r.num == 0 then None else Some(r.den as real / r.num as real)
  }

  /** `(double)num / (double)den` when den is not zero, otherwise 0. */
  function AverageFrameRate(r: Rational): real {
    if r.den != 0 then r.num as real / r.den as real else 0.0
  }

  /** A double that is finite and below 1000 (the validity test of the time-base methods). */
  predicate PlausibleRate(x: Option<real>) {
    x.Some? && x.value < 1000.0
  }

  function PerTick(fps: real, ticksPerFrame: int): real {
    if ticksPerFrame > 1 then fps / ticksPerFrame as real else fps
  }

  /** The estimate together with the method that produced it. */
  datatype FpsEstimate = FpsEstimate(estimation: FpsMethod, fps: real)

  /**
   * The frame-rate fallback chain of Open: first available wins.
   * `duration` is the container duration in AV_TIME_BASE units.
   */
  function EstimateFramesPerSecond(stream: StreamInfo, duration: int): (e: FpsEstimate)
    ensures e.estimation == Libav <==> AverageFrameRate(stream.avgFrameRate) != 0.0
    ensures e.estimation == Libav ==> e.fps == AverageFrameRate(stream.avgFrameRate)
    ensures e.estimation == Durations <==> e.estimation != Libav && stream.nbFrames > 0 && duration > 0
    ensures e.estimation == StreamTimebase ==> PlausibleRate(Inverse(stream.timeBase))
    ensures e.estimation == CodecTimebase ==> !PlausibleRate(Inverse(stream.timeBase)) && PlausibleRate(Inverse(stream.codec.timeBase))
    ensures e.estimation == SpecialCase ==>
              && !PlausibleRate(Inverse(stream.timeBase))
              && Inverse(stream.codec.timeBase) in {Some(30000.0), Some(25000.0)}
              && e.fps == (if Inverse(stream.codec.timeBase) == Some(30000.0) then 29.97 else 24.975)
    ensures e.estimation == Forced ==> e.fps == 25.0
    ensures e.estimation == Durations ==>
              e.fps == PerTick((stream.nbFrames * AvTimeBase) as real / duration as real, stream.codec.ticksPerFrame)
    ensures var prior := AverageFrameRate(stream.avgFrameRate) != 0.0 || (stream.nbFrames > 0 && duration > 0);
            var streamRate, codecRate := Inverse(stream.timeBase), Inverse(stream.codec.timeBase);
            && (e.estimation == StreamTimebase <==> !prior && PlausibleRate(streamRate))
            && (e.estimation == StreamTimebase ==> e.fps == PerTick(streamRate.value, stream.codec.ticksPerFrame))
            && (e.estimation == CodecTimebase <==> !prior && !PlausibleRate(streamRate) && PlausibleRate(codecRate))
            && (e.estimation == CodecTimebase ==> e.fps == PerTick(codecRate.value, stream.codec.ticksPerFrame))
            && (e.estimation == SpecialCase <==> !prior && !PlausibleRate(streamRate) && codecRate in {Some(30000.0), Some(25000.0)})
  {
    var ticks := stream.codec.ticksPerFrame;
    var avg := AverageFrameRate(stream.avgFrameRate);
    if avg != 0.0 then FpsEstimate(Libav, avg)
    else if stream.nbFrames > 0 && duration > 0 then
      FpsEstimate(Durations, PerTick((stream.nbFrames * AvTimeBase) as real / duration as real, ticks))
    else
      var streamRate := Inverse(stream.timeBase);
      if PlausibleRate(streamRate) then FpsEstimate(StreamTimebase, PerTick(streamRate.value, ticks))
      else
        var codecRate := Inverse(stream.codec.timeBase);
        if PlausibleRate(codecRate) then FpsEstimate(CodecTimebase, PerTick(codecRate.value, ticks))
        else if codecRate == Some(30000.0) then FpsEstimate(SpecialCase, 29.97)
        else if codecRate == Some(25000.0) then FpsEstimate(SpecialCase, 24.975)
        else FpsEstimate(Forced, 25.0)
  }

  /** 240 frames over 8 seconds with no libav rate gives 30 fps by the durations method. */
  lemma DurationsExample(stream: StreamInfo)
    requires stream.avgFrameRate.den == 0
    requires stream.nbFrames == 240 && stream.codec.ticksPerFrame == 1
    ensures EstimateFramesPerSecond(stream, 8 * AvTimeBase) == FpsEstimate(Durations, 30.0)
  {
  }

  /**
   * The drop-frame quirk belongs to the codec time base only: a stream time
   * base of 30000:1 is not below 1000, so it falls through to the codec's,
   * and 30000:1 there gives 29.97 (25000:1 gives 24.975).
   */
  lemma DropFrameQuirk(stream: StreamInfo, duration: int)
    requires AverageFrameRate(stream.avgFrameRate) == 0.0
    requires !(stream.nbFrames > 0 && duration > 0)
    requires stream.timeBase == Rational(1, 30000)
    ensures stream.codec.timeBase == Rational(1, 30000) ==> EstimateFramesPerSecond(stream, duration) == FpsEstimate(SpecialCase, 29.97)
    ensures stream.codec.timeBase == Rational(1, 25000) ==> EstimateFramesPerSecond(stream, duration) == FpsEstimate(SpecialCase, 24.975)
    ensures stream.codec.timeBase == Rational(1, 90000) ==> EstimateFramesPerSecond(stream, duration) == FpsEstimate(Forced, 25.0)
  {
  }

  //---------------------------------------------------------------------------
  // Time base and working zone
  //---------------------------------------------------------------------------

  /** `(int64_t)((double)t / AV_TIME_BASE * timeStampsPerSecond)` when `t > 0`, else 0. */
  function MicrosecondsToTimestamps(t: int, timeStampsPerSecond: real): int {
    if t > 0 then TruncReal(t as real / AvTimeBase as real * timeStampsPerSecond) else 0
  }

  /**
   * `(int64_t)Math::Round(timeStampsPerSecond / fps)`. A zero fps makes the
   * quotient infinite (or NaN), whose conversion is the indefinite integer.
   */
  function AverageTimeStampsPerFrame(timeStampsPerSecond: real, fps: real): (r: int)
    ensures fps != 0.0 ==> AbsReal(timeStampsPerSecond / fps - r as real) <= 0.5
    ensures fps != 0.0 && AbsReal(timeStampsPerSecond / fps - r as real) == 0.5 ==> r % 2 == 0
    ensures fps == 0.0 ==> r == NonFiniteToInt64
  {
    if fps == 0.0 then NonFiniteToInt64 else RoundHalfEven(timeStampsPerSecond / fps)
  }

  /** The navigable range: from the first timestamp to the start of the last frame. */
  function WorkingZone(firstTimeStamp: int, durationTimeStamps: int, averageTimeStampsPerFrame: int): VideoSection {
    VideoSection(firstTimeStamp, firstTimeStamp + durationTimeStamps - averageTimeStampsPerFrame)
  }

  /**
   * Open only rejects a non-positive duration, so the working zone is
   * non-empty exactly when the file lasts at least one average frame.
   */
  lemma WorkingZoneNonEmpty(first: int, duration: int, avg: int)
    ensures WorkingZone(first, duration, avg).Start <= WorkingZone(first, duration, avg).End <==> avg <= duration
  {
  }

  //---------------------------------------------------------------------------
  // Aspect ratio and decoding size
  //---------------------------------------------------------------------------

  /** `(double)num / (double)den` for a non-zero denominator. */
  function Ratio(r: Rational): real
    requires r.den != 0
  {
    r.num as real / r.den as real
  }

  /** The pixel aspect ratio an MPEG-2 display aspect ratio `dar` gives for a coded size. */
  function Stretched(height: int, width: int, dar: real): real
    requires width != 0
  {
    height as real * dar / width as real
  }

  /**
   * Pixel aspect ratio from the codec's sample aspect hint. None stands for
   * an infinite double (a zero denominator or a zero coded width).
   */
  function PixelAspectRatio(codec: CodecInfo): (par: Option<real>)
    ensures par.Some? ==> par.value != 0.0
    ensures codec.sampleAspectRatio.num == 0 || codec.sampleAspectRatio.num == codec.sampleAspectRatio.den ==> par == Some(1.0)
    ensures var sar := codec.sampleAspectRatio;
            sar.num != 0 && sar.num != sar.den ==>
              && (sar.den == 0 ==> par.None?)
              && (sar.den != 0 && !codec.isMpeg2 ==> par == Some(Ratio(sar)))
              && (sar.den != 0 && codec.isMpeg2 && codec.width == 0 ==> par.None?)
    ensures var sar := codec.sampleAspectRatio;
            sar.num != 0 && sar.num != sar.den && sar.den != 0 && codec.isMpeg2 && codec.width != 0 ==>
              var stretched := Stretched(codec.height, codec.width, Ratio(sar));
              par == Some(if stretched >= 1.0 then stretched else Ratio(sar))
  {
    var sar := codec.sampleAspectRatio;
    if sar.num != 0 && sar.num != sar.den then
      if sar.den == 0 then None
      else
        var hint := Ratio(sar);
        if codec.isMpeg2 then
          // For MPEG-2 the hint is the display aspect ratio.
          if codec.width == 0 then None
          else
            var stretched := Stretched(codec.height, codec.width, hint);
            if stretched < 1.0 then Some(hint) else Some(stretched)
        else Some(hint)
    else Some(1.0)
  }

  /**
   * The decoding height for an aspect policy; the width is not involved for
   * Auto and square pixels. An infinite pixel aspect ratio (None) gives a
   * height of 0, as dividing by an infinite double does; a zero one gives an
   * infinite or NaN quotient, converted to the indefinite integer, and so
   * does a finite quotient outside the range of `int`.
   */
  function DecodingHeight(policy: ImageAspectRatio, original: Size, par: Option<real>): (h: int)
    ensures policy == Force43 && original.Width >= 0 ==> 4 * h <= 3 * original.Width < 4 * h + 4
    ensures policy == Force169 && original.Width >= 0 ==> 16 * h <= 9 * original.Width < 16 * h + 16
    ensures policy == ForcedSquarePixels ==> h == original.Height
    ensures policy == Auto && par == Some(0.0) ==> h == NonFiniteToInt32
    ensures policy == Auto && par.None? ==> h == 0
    ensures policy == Auto ==> -0x8000_0000 <= h < 0x8000_0000
    ensures policy == Auto && par.Some? && par.value != 0.0 ==>
              var x := original.Height as real / par.value;
              && (-0x8000_0001 as real < x < 0x8000_0000 as real ==> AbsReal(x - h as real) < 1.0 && AbsReal(h as real) <= AbsReal(x))
              && (!(-0x8000_0001 as real < x < 0x8000_0000 as real) ==> h == NonFiniteToInt32)
  {
    match policy
    case Force43 =>
      if original.Width >= 0 then TruncDivNonNegative(original.Width * 3, 4); TruncDiv(original.Width * 3, 4)
      else TruncDiv(original.Width * 3, 4)
    case Force169 =>
      if original.Width >= 0 then TruncDivNonNegative(original.Width * 9, 16); TruncDiv(original.Width * 9, 16)
      else TruncDiv(original.Width * 9, 16)
    case ForcedSquarePixels => original.Height
    case Auto =>
      if par.None? then 0
      else if par.value == 0.0 then NonFiniteToInt32
      else DoubleToInt32(original.Height as real / par.value)
  }

  /**
   * A tiny sample aspect ratio on a non-MPEG-2 stream: the height over that
   * ratio does not fit in an `int`, so the decoding height is the indefinite
   * integer and no picture can be allocated for it.
   */
  lemma TinySampleAspectRatio(codec: CodecInfo)
    requires !codec.isMpeg2 && codec.height == 1080 && codec.sampleAspectRatio == Rational(1, 10000000)
    ensures DecodingHeight(Auto, Size(codec.width, codec.height), PixelAspectRatio(codec)) == NonFiniteToInt32
  {
  }

  /**
   * The decoding width. The multiple-of-4 test reads the PREVIOUS decoding
   * width, not the original one, as the source does.
   */
  function DecodingWidth(previousWidth: int, originalWidth: int): int {
    if previousWidth % 4 != 0 then 4 * (TruncDiv(originalWidth, 4) + 1) else originalWidth
  }

  /** When the rounding fires, it gives the next multiple of 4 above a non-negative width. */
  lemma DecodingWidthRoundsUp(previousWidth: int, originalWidth: int)
    requires previousWidth % 4 != 0 && originalWidth >= 0
    ensures var w := DecodingWidth(previousWidth, originalWidth);
            w % 4 == 0 && originalWidth < w <= originalWidth + 4
  {
  }

  /**
   * Consequence of reading the previous width: for an original width that is
   * not a multiple of 4, repeated calls alternate between the rounded width
   * and the original one; for a multiple of 4 the original width is a fixed
   * point.
   */
  lemma DecodingWidthAlternates(originalWidth: int)
    ensures originalWidth % 4 != 0 ==>
              && DecodingWidth(originalWidth, originalWidth) % 4 == 0
              && DecodingWidth(DecodingWidth(originalWidth, originalWidth), originalWidth) == originalWidth
    ensures originalWidth % 4 == 0 ==> DecodingWidth(originalWidth, originalWidth) == originalWidth
  {
    var q := TruncDiv(originalWidth, 4);
    assert (4 * (q + 1)) % 4 == 0;
  }
}
