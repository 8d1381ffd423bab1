/**
 * The reader itself (class VideoReaderFFMpeg): opening a file, the seek and
 * decode loop that feeds the playback cache, playback navigation, the import
 * of a selection into memory for analysis, and the small policies that
 * change the decoding size or clear the cache.
 *
 * The file's packets and the decoder's behaviour are given by a
 * `PacketSource` the reader is built with; the format information `Open`
 * inspects is a `Container` value.
 */
module Reader {
  import opened Numerics
  import opened Timestamps
  import opened PlaybackCache
  import opened FormatAnalysis
  import PacketSource
  import AnalysisWindow
  import opened DecodeLoops

  datatype OpenVideoResult = Success | FileNotOpened | StreamInfoNotFound | VideoStreamNotFound | CodecNotFound | CodecNotOpened

  /** What libav reports about a file once it is opened and probed. */
  datatype Container = Container(
    opens: bool,              // av_open_input_file succeeds
    streamInfoFound: bool,    // av_find_stream_info succeeds
    streams: seq<StreamInfo>,
    startTime: int,           // AV_TIME_BASE units
    duration: int)            // AV_TIME_BASE units

  /** The media information derived at open time (m_VideoInfo). */
  datatype VideoInfo = VideoInfo(
    IsCodecMpeg2: bool,
    AverageTimeStampsPerSeconds: Option<real>,  // None: an infinite or NaN double
    FirstTimeStamp: int,
    DurationTimeStamps: int,
    FramesPerSeconds: real,
    AverageTimeStampsPerFrame: int,
    OriginalSize: Size,
    DecodingSize: Size,
    PixelAspectRatio: Option<real>)             // None: an infinite double

  const EmptyVideoInfo := VideoInfo(false, Some(0.0), 0, 0, 0.0, 0, Size(0, 0), Size(0, 0), Some(0.0))

  /** Container start time or duration converted to timestamps; 0 when not positive. */
  function ToTimestamps(t: int, timeStampsPerSecond: Option<real>): (r: int)
    ensures t <= 0 ==> r == 0
    ensures t > 0 && timeStampsPerSecond.None? ==> r == NonFiniteToInt64
    ensures t > 0 && timeStampsPerSecond.Some? ==>
              var x := t as real / AvTimeBase as real * timeStampsPerSecond.value;
              && AbsReal(x - r as real) < 1.0 && AbsReal(r as real) <= AbsReal(x) && (r == 0 || (r > 0 <==> x > 0.0))
  {
    if t <= 0 then 0
    else if timeStampsPerSecond.None? then NonFiniteToInt64
    else MicrosecondsToTimestamps(t, timeStampsPerSecond.value)
  }

  /** The subtitle stream is kept as the metadata stream only when it is a text stream tagged "XML". */
  ghost predicate MetadataStreamRule(streams: seq<StreamInfo>, metadataStream: int) {
    exists best ::
      && BestStream(streams, Subtitle, best)
      && metadataStream == (if best >= 0 && streams[best].codec.isText && streams[best].xmlLanguageTag then best else -1)
  }

  /** The timestamp a ReadFrame call seeks to: a relative move of `n` frames when n < 0, clamped at 0. */
  function SeekTarget(target: int, framesToDecode: int, current: int, avg: int): (goal: int)
    ensures framesToDecode >= 0 ==> goal == target
    ensures framesToDecode < 0 ==> goal >= 0 && (goal == 0 || goal == current + framesToDecode * avg)
    ensures framesToDecode < 0 && goal == 0 ==> current + framesToDecode * avg <= 0
    ensures framesToDecode < 0 && avg >= 0 ==> goal <= Max(0, current)
  {
    if framesToDecode < 0 then
      var t := current + framesToDecode * avg;
      if t < 0 then 0 else t
    else target
  }

  /** `(int64_t)AverageTimeStampsPerSeconds`: one second in timestamps, 0 when the rate is unknown. */
  function OneSecond(info: VideoInfo): int {
    if info.AverageTimeStampsPerSeconds.Some? then TruncReal(info.AverageTimeStampsPerSeconds.value) else 0
  }

  /** Where ReadFrame seeks when its first seek lands after `goal`: four seconds earlier. */
  function Reseek(goal: int, info: VideoInfo): int {
    goal - OneSecond(info) * 4
  }

  /**
   * The reconciler state ReadFrame's loop starts from: cleared after a seek,
   * and in either case holding the cache's current timestamp.
   */
  function Resumed(seeking: bool, info: TimestampInfo, current: int): TimestampInfo {
    (if seeking then EmptyTimestampInfo else info).(CurrentTimestamp := current)
  }

  class VideoReaderFFMpeg {
    var loaded: bool
    var info: VideoInfo
    var workingZone: VideoSection
    var timestampInfo: TimestampInfo
    var videoStream: int
    var metadataStream: int
    /** Options->ImageAspectRatio and Options->Deinterlace. */
    var aspectRatio: ImageAspectRatio
    var deinterlace: bool

    const cache: FrameCache
    const source: PacketSource.PacketSource
    const window: AnalysisWindow.Selection

    ghost predicate Valid()
      reads this, cache, source, window
    {
      && cache.Valid() && source.Valid() && window.Valid()
      && BufferedWellFormed(timestampInfo)
      && (loaded ==> info.AverageTimeStampsPerSeconds.Some?)
      && (!loaded ==> timestampInfo == EmptyTimestampInfo && cache.Timestamps == [])
      && (!loaded ==> info.OriginalSize.Width == 0 && info.DecodingSize.Width == 0)
    }

    constructor (source: PacketSource.PacketSource, aspectRatio: ImageAspectRatio, deinterlace: bool)
      requires source.Valid()
      ensures Valid() && fresh(cache) && fresh(window) && this.source == source
      ensures !loaded && info == EmptyVideoInfo && workingZone == EmptySection && timestampInfo == EmptyTimestampInfo
      ensures videoStream == -1 && metadataStream == -1
      ensures this.aspectRatio == aspectRatio && this.deinterlace == deinterlace
      ensures window.AnalysisMode == 0 && window.Frames == []
    {
      loaded := false;
      videoStream := -1;
      metadataStream := -1;
      info := EmptyVideoInfo;
      workingZone := EmptySection;
      timestampInfo := EmptyTimestampInfo;
      this.aspectRatio := aspectRatio;
      this.deinterlace := deinterlace;
      cache := new FrameCache();
      this.source := source;
      window := new AnalysisWindow.Selection();
    }

    /** The timestamp of the cache's current frame, -1 when there is none. */
    function CacheTimestamp(): int
      reads cache
    {
      if cache.HasCurrent() then cache.Current() else -1
    }

    /** avpicture_get_size is positive only for a positive width and height. */
    predicate DecodingSizeValid()
      reads this
    {
      info.DecodingSize.Width > 0 && info.DecodingSize.Height > 0
    }

    //-------------------------------------------------------------------------
    // Open and close
    //-------------------------------------------------------------------------

    method Close()
      requires Valid()
      modifies this`loaded, this`workingZone, this`info, this`timestampInfo, this`videoStream, this`metadataStream, cache
      ensures Valid() && !loaded
      ensures old(loaded) ==>
                && workingZone == EmptySection && info == EmptyVideoInfo && timestampInfo == EmptyTimestampInfo
                && cache.Timestamps == [] && cache.cursor == -1
                && videoStream == -1 && metadataStream == -1
      ensures !old(loaded) ==>
                && workingZone == old(workingZone) && info == old(info) && timestampInfo == old(timestampInfo)
                && cache.Timestamps == old(cache.Timestamps) && cache.cursor == old(cache.cursor)
                && videoStream == old(videoStream) && metadataStream == old(metadataStream)
    {
      if !loaded {
        return;
      }
      loaded := false;
      workingZone := EmptySection;
      info := EmptyVideoInfo;
      timestampInfo := EmptyTimestampInfo;
      cache.Clear();
      videoStream := -1;
      metadataStream := -1;
    }

    /**
     * SetDecodingSize: the height follows the aspect policy; the width is
     * rounded up to a multiple of 4 when the PREVIOUS decoding width was not
     * one.
     */
    method SetDecodingSize(policy: ImageAspectRatio)
      modifies this`info
      ensures info == old(info).(DecodingSize := Size(
                DecodingWidth(old(info).DecodingSize.Width, info.OriginalSize.Width),
                DecodingHeight(policy, info.OriginalSize, info.PixelAspectRatio)))
    {
      var height := DecodingHeight(policy, info.OriginalSize, info.PixelAspectRatio);
      var width := if info.DecodingSize.Width % 4 != 0 then 4 * (TruncDiv(info.OriginalSize.Width, 4) + 1) else info.OriginalSize.Width;
      info := info.(DecodingSize := Size(width, height));
    }

    /** The stream choice of Open: the metadata stream, then the video stream. */
    method SelectStreams(streams: seq<StreamInfo>)
      modifies this`metadataStream, this`videoStream
      ensures MetadataStreamRule(streams, metadataStream)
      ensures BestStream(streams, Video, videoStream)
    {
      // A muxed analysis file: a text subtitle stream whose language tag is "XML".
      metadataStream := FormatAnalysis.GetFirstStreamIndex(streams, Subtitle);
      ghost var bestSubtitle := metadataStream;
      if metadataStream >= 0 {
        var s := streams[metadataStream];
        if !s.codec.isText || !s.xmlLanguageTag {
          metadataStream := -1;
        }
      }
      assert BestStream(streams, Subtitle, bestSubtitle);
      videoStream := FormatAnalysis.GetFirstStreamIndex(streams, Video);
    }

    /**
     * The part of Open after the codec is opened: time base, start and
     * duration in timestamps (a non-positive duration rejects the file), frame
     * rate, working zone, aspect ratio and decoding size.
     */
    method ReadTiming(c: Container, stream: StreamInfo) returns (ok: bool)
      modifies this`info, this`workingZone
      ensures var tps := Inverse(stream.timeBase);
              && info.IsCodecMpeg2 == old(info).IsCodecMpeg2
              && info.AverageTimeStampsPerSeconds == tps
              && info.FirstTimeStamp == ToTimestamps(c.startTime, tps)
              && info.DurationTimeStamps == ToTimestamps(c.duration, tps)
              && (ok <==> info.DurationTimeStamps > 0)
              && (!ok ==> info.OriginalSize == old(info).OriginalSize && info.DecodingSize == old(info).DecodingSize)
      ensures ok ==>
                var tps := Inverse(stream.timeBase);
                var fps := EstimateFramesPerSecond(stream, c.duration).fps;
                && tps.Some?
                && info.FramesPerSeconds == fps
                && info.AverageTimeStampsPerFrame == AverageTimeStampsPerFrame(tps.value, fps)
                && workingZone == WorkingZone(info.FirstTimeStamp, info.DurationTimeStamps, info.AverageTimeStampsPerFrame)
                && info.OriginalSize == Size(stream.codec.width, stream.codec.height)
                && info.PixelAspectRatio == PixelAspectRatio(stream.codec)
                && info.DecodingSize == Size(DecodingWidth(old(info).DecodingSize.Width, info.OriginalSize.Width),
                                             DecodingHeight(aspectRatio, info.OriginalSize, info.PixelAspectRatio))
    {
      var tps := Inverse(stream.timeBase);
      info := info.(AverageTimeStampsPerSeconds := tps,
                    FirstTimeStamp := ToTimestamps(c.startTime, tps),
                    DurationTimeStamps := ToTimestamps(c.duration, tps));
      if info.DurationTimeStamps <= 0 {
        return false;
      }
      var fps := EstimateFramesPerSecond(stream, c.duration).fps;
      info := info.(FramesPerSeconds := fps, AverageTimeStampsPerFrame := AverageTimeStampsPerFrame(tps.value, fps));
      workingZone := WorkingZone(info.FirstTimeStamp, info.DurationTimeStamps, info.AverageTimeStampsPerFrame);
      info := info.(OriginalSize := Size(stream.codec.width, stream.codec.height), PixelAspectRatio := PixelAspectRatio(stream.codec));
      SetDecodingSize(aspectRatio);
      ok := true;
    }

    /**
     * Open: probe the file, pick the streams, open the codec and derive the
     * media information; any failure leaves the reader unloaded.
     */
    method Open(c: Container) returns (result: OpenVideoResult)
      requires Valid()
      modifies this`loaded, this`info, this`workingZone, this`timestampInfo, this`videoStream, this`metadataStream, cache
      ensures Valid()
      ensures loaded <==> result == OpenVideoResult.Success
      ensures !c.opens ==> result == FileNotOpened
      ensures c.opens && !c.streamInfoFound ==> result == StreamInfoNotFound
      ensures c.opens && c.streamInfoFound ==>
                && MetadataStreamRule(c.streams, metadataStream)
                && BestStream(c.streams, Video, videoStream)
                && (videoStream == -1 <==> result == VideoStreamNotFound)
      ensures c.opens && c.streamInfoFound && videoStream >= 0 ==>
                && info.IsCodecMpeg2 == c.streams[videoStream].codec.isMpeg2
                && (result == CodecNotFound <==> !c.streams[videoStream].codec.decoderFound)
                && (result == CodecNotOpened <==> c.streams[videoStream].codec.decoderFound && !c.streams[videoStream].codec.opens)
                && (c.streams[videoStream].codec.decoderFound && c.streams[videoStream].codec.opens ==>
                      (result == StreamInfoNotFound <==> ToTimestamps(c.duration, Inverse(c.streams[videoStream].timeBase)) <= 0))
      ensures loaded ==>
                var stream := c.streams[videoStream];
                var tps := Inverse(stream.timeBase);
                var fps := EstimateFramesPerSecond(stream, c.duration).fps;
                && tps.Some? && info.AverageTimeStampsPerSeconds == tps
                && info.FirstTimeStamp == ToTimestamps(c.startTime, tps)
                && info.DurationTimeStamps == ToTimestamps(c.duration, tps) > 0
                && info.FramesPerSeconds == fps
                && info.AverageTimeStampsPerFrame == AverageTimeStampsPerFrame(tps.value, fps)
                && workingZone == WorkingZone(info.FirstTimeStamp, info.DurationTimeStamps, info.AverageTimeStampsPerFrame)
                && info.OriginalSize == Size(stream.codec.width, stream.codec.height)
                && info.PixelAspectRatio == PixelAspectRatio(stream.codec)
                && info.DecodingSize == Size(info.OriginalSize.Width, DecodingHeight(aspectRatio, info.OriginalSize, info.PixelAspectRatio))
                && timestampInfo == EmptyTimestampInfo && cache.Timestamps == []
    {
      if loaded {
        Close();
      }
      if !c.opens {
        return FileNotOpened;
      }
      if !c.streamInfoFound {
        return StreamInfoNotFound;
      }
      SelectStreams(c.streams);
      if videoStream < 0 {
        return VideoStreamNotFound;
      }
      var stream := c.streams[videoStream];
      info := info.(IsCodecMpeg2 := stream.codec.isMpeg2);
      if !stream.codec.decoderFound {
        return CodecNotFound;
      }
      if !stream.codec.opens {
        return CodecNotOpened;
      }
      var ok := ReadTiming(c, stream);
      if !ok {
        return StreamInfoNotFound;
      }
      loaded := true;
      result := OpenVideoResult.Success;
    }

    //-------------------------------------------------------------------------
    // Options
    //-------------------------------------------------------------------------

    method ChangeAspectRatio(policy: ImageAspectRatio) returns (ok: bool)
      requires Valid()
      modifies this`aspectRatio, this`info, cache
      ensures Valid() && ok
      ensures aspectRatio == policy
      ensures info == old(info).(DecodingSize := Size(
                DecodingWidth(old(info).DecodingSize.Width, info.OriginalSize.Width),
                DecodingHeight(policy, info.OriginalSize, info.PixelAspectRatio)))
      ensures cache.Timestamps == [] && cache.cursor == -1
    {
      aspectRatio := policy;
      SetDecodingSize(policy);
      cache.Clear();
      ok := true;
    }

    method ChangeDeinterlace(deint: bool) returns (ok: bool)
      requires Valid()
      modifies this`deinterlace, cache
      ensures Valid() && ok
      ensures deinterlace == deint
      ensures cache.Timestamps == [] && cache.cursor == -1
    {
      deinterlace := deint;
      cache.Clear();
      ok := true;
    }

    //-------------------------------------------------------------------------
    // The seek and decode loop
    //-------------------------------------------------------------------------
    /**
     * ReadFrame: decode until the target timestamp is reached (seek mode, for
     * a target >= 0 or a relative move of framesToDecode < 0 frames) or the
     * number of frames is decoded (linear mode), and add the frame reached to
     * the cache. `final` is the decoding state the reader ends in: the
     * outcome of DecodeRun over the file's packets from where the seek lands,
     * whose meaning ReadFrameDecodes states.
     */
    method ReadFrame(target: int, framesToDecode: int) returns (result: ReadResult, ghost final: Decoding)
      requires Valid()
      requires loaded && framesToDecode < 0 ==> cache.HasCurrent()
      modifies this`timestampInfo, cache, source
      ensures Valid()
      ensures cache.cursor == old(cache.cursor)
      ensures result != ReadResult.Success ==> cache.Timestamps == old(cache.Timestamps)
      ensures source.position == final.position && timestampInfo == final.info
      ensures !loaded ==>
                && result == MovieNotLoaded && final == StartDecoding(old(source.position), old(timestampInfo))
                && source.seeks == old(source.seeks)
      ensures loaded ==>
                var avg := old(info.AverageTimeStampsPerFrame);
                var goal := SeekTarget(target, framesToDecode, old(CacheTimestamp()), avg);
                var seeking := goal >= 0;
                var back := Reseek(goal, old(info));
                var reset := if seeking then EmptyTimestampInfo else old(timestampInfo);
                var from := if seeking then source.Landing(goal) else old(source.position);
                && source.seeks == old(source.seeks) + (if seeking then [goal] else []) + (if final.reseeked then [back] else [])
                && (result == MemoryNotAllocated <==> !old(DecodingSizeValid()))
                && (result == MemoryNotAllocated ==> final == StartDecoding(from, reset))
                && (result != MemoryNotAllocated ==>
                      (result, final) == DecodeRun(source.Packets, source.Landing(back), seeking, goal, if seeking then 1 else framesToDecode,
                                                   avg, StartDecoding(from, Resumed(seeking, old(timestampInfo), old(CacheTimestamp())))))
                && (result == ReadResult.Success ==>
                      cache.Timestamps == Appended(old(cache.Timestamps), timestampInfo.CurrentTimestamp))
    {
      final := StartDecoding(source.position, timestampInfo);
      if !loaded {
        return MovieNotLoaded, final;
      }
      var avg := info.AverageTimeStampsPerFrame;
      var goal := SeekTarget(target, framesToDecode, CacheTimestamp(), avg);
      var seeking := goal >= 0;
      var framesToGo := if seeking then 1 else framesToDecode;
      var back := Reseek(goal, info);
      var sizeValid := DecodingSizeValid();
      var reset := timestampInfo;
      if seeking {
        source.Seek(goal);
        reset := EmptyTimestampInfo;
      }
      if !sizeValid {
        timestampInfo := reset;
        return MemoryNotAllocated, StartDecoding(source.position, reset);
      }
      timestampInfo := reset.(CurrentTimestamp := CacheTimestamp());
      result, final := DecodeToTarget(seeking, goal, framesToGo, avg, back, source.position, timestampInfo);
    }

    /**
     * The reading and decoding loop of ReadFrame, from the packet and
     * reconciler state it starts at: it ends in the outcome of DecodeRun, and
     * adds the frame it reaches to the cache. The loop runs DecodeTurn until
     * the packets run out or a turn reaches the target, as DecodeRun does.
     */
    method DecodeToTarget(seeking: bool, goal: int, framesToGo: int, avg: int, back: int, ghost from: nat, ghost init: TimestampInfo)
      returns (result: ReadResult, ghost final: Decoding)
      requires source.Valid() && cache.Valid() && BufferedWellFormed(timestampInfo) && (seeking <==> goal >= 0)
      requires from == source.position && init == timestampInfo
      modifies this`timestampInfo, cache, source
      ensures source.Valid() && cache.Valid() && cache.cursor == old(cache.cursor) && BufferedWellFormed(timestampInfo)
      ensures (result, final) == DecodeRun(source.Packets, source.Landing(back), seeking, goal, framesToGo, avg, StartDecoding(from, init))
      ensures source.position == final.position && timestampInfo == final.info
      ensures source.seeks == old(source.seeks) + (if final.reseeked then [back] else [])
      ensures result == FrameNotRead ==> cache.Timestamps == old(cache.Timestamps)
      ensures result == ReadResult.Success ==> cache.Timestamps == Appended(old(cache.Timestamps), timestampInfo.CurrentTimestamp)
    {
      ghost var landing := source.Landing(back);
      ghost var outcome := DecodeRun(source.Packets, landing, seeking, goal, framesToGo, avg, StartDecoding(from, init));
      var firstPass := true;
      var framesDecoded: nat := 0;
      ghost var d := StartDecoding(from, init);
      while true
        modifies this`timestampInfo, source
        invariant source.Valid()
        invariant d.position == source.position && d.info == timestampInfo
        invariant d.firstPass == firstPass && d.framesDecoded == framesDecoded
        invariant source.seeks == old(source.seeks) + (if d.reseeked then [back] else [])
        invariant d.firstPass ==> !d.reseeked
        invariant DecodeRun(source.Packets, landing, seeking, goal, framesToGo, avg, d) == outcome
        decreases Pass(seeking, d), |source.Packets| - d.position
      {
        var ended, reached;
        ghost var e;
        ended, reached, firstPass, framesDecoded, e := DecodeTurn(seeking, goal, framesToGo, avg, back, firstPass, framesDecoded, d);
        if ended {
          // Reading error or end of file.
          result := FrameNotRead;
          break;
        }
        d := e;
        if reached {
          result := ReadResult.Success;
          break;
        }
      }
      final := d;
      ReadFrameDecodes(source.Packets, from, landing, init, seeking, goal, framesToGo, avg);
      if result == ReadResult.Success {
        cache.Add(timestampInfo.CurrentTimestamp);
      }
    }

    /**
     * One turn of ReadFrame's loop: read a packet and, when it belongs to the
     * video stream, decode it and reconcile its timestamps; seek back once on
     * an overshoot; count a completed picture and say whether it is the one
     * the loop is after. It does what Advance says, from the state `d` the
     * reader is in; `ended` is a failed read.
     */
    method DecodeTurn(seeking: bool, goal: int, framesToGo: int, avg: int, back: int,
                      firstPass: bool, framesDecoded: nat, ghost d: Decoding)
      returns (ended: bool, reached: bool, firstPass': bool, framesDecoded': nat, ghost e: Decoding)
      requires source.Valid()
      requires d.position == source.position && d.info == timestampInfo
      requires d.firstPass == firstPass && d.framesDecoded == framesDecoded
      requires d.firstPass ==> !d.reseeked
      modifies this`timestampInfo, source
      ensures source.Valid()
      ensures ended <==> old(source.position) == |source.Packets|
      ensures ended ==> !reached && e == d
      ensures !ended ==> (reached, e) == Advance(source.Packets, source.Landing(back), seeking, goal, framesToGo, avg, d)
      ensures e.position == source.position && e.info == timestampInfo
      ensures e.firstPass == firstPass' && e.framesDecoded == framesDecoded'
      ensures source.seeks == old(source.seeks) + (if e.reseeked && !d.reseeked then [back] else [])
    {
      ended, reached, firstPass', framesDecoded', e := false, false, firstPass, framesDecoded, d;
      var read := source.Read();
      if read.None? {
        return true, false, firstPass, framesDecoded, d;
      }
      var packet := read.value;
      if packet.OtherStream? {
        e := d.(position := d.position + 1);
        return;
      }
      ghost var observation := Observation(packet.dts, packet.pts, packet.finished);
      timestampInfo := SetTimestampFromPacket(timestampInfo, packet.dts, packet.pts, packet.finished, avg);
      if !packet.finished {
        // Buffering: libav kept a reference frame for a coming B-frame.
        e := d.(position := d.position + 1, info := timestampInfo, run := d.run + [observation]);
        return;
      }
      if seeking && firstPass && timestampInfo.CurrentTimestamp > goal {
        // The seek landed after the target: seek four seconds further back, once.
        source.Seek(back);
        firstPass' := false;
        e := d.(position := source.position, info := timestampInfo, firstPass := false, reseeked := true,
                pre := d.run + [observation], run := []);
        return;
      }
      firstPass' := false;
      framesDecoded' := framesDecoded + 1;
      e := d.(position := d.position + 1, info := timestampInfo, firstPass := false, framesDecoded := framesDecoded',
              run := d.run + [observation]);
      reached := (seeking && timestampInfo.CurrentTimestamp >= goal) || (!seeking && framesDecoded' >= framesToGo);
    }

    //-------------------------------------------------------------------------
    // Playback navigation
    //-------------------------------------------------------------------------

    /**
     * MoveNext: decode one frame only when the cache has no next frame, then
     * step the cursor. `run` is what the reconciler observed while decoding.
     */
    method MoveNext() returns (ok: bool, ghost run: seq<Observation>)
      requires Valid()
      modifies this`timestampInfo, cache, source
      ensures Valid()
      ensures !loaded ==> !ok && run == [] && cache.Timestamps == old(cache.Timestamps) && cache.cursor == old(cache.cursor)
      ensures loaded && old(cache.HasNext()) ==>
                && ok && run == [] && cache.Timestamps == old(cache.Timestamps) && cache.cursor == old(cache.cursor) + 1
                && timestampInfo == old(timestampInfo) && source.position == old(source.position)
      ensures loaded && !old(cache.HasNext()) ==>
                var avg := info.AverageTimeStampsPerFrame;
                var init := old(timestampInfo).(CurrentTimestamp := old(CacheTimestamp()));
                var stamps := Stamps(init, run, avg);
                && old(source.position) <= source.position
                && run == Observed(source.Packets, old(source.position), source.position)
                && (DecodingSizeValid() ==> timestampInfo == Replay(init, run, avg))
                && |stamps| <= 1
                && (stamps == [] ==>
                      && !ok && cache.Timestamps == old(cache.Timestamps) && cache.cursor == old(cache.cursor)
                      && (source.position == |source.Packets| || !DecodingSizeValid()))
                && (stamps != [] ==>
                      timestampInfo.CurrentTimestamp == stamps[0] && cache.Timestamps == Appended(old(cache.Timestamps), stamps[0]))
                && (ok <==> |cache.Timestamps| > |old(cache.Timestamps)|)
                && (ok ==> stamps != [] && cache.HasCurrent() && cache.Current() == stamps[0])
                && (!ok ==> cache.cursor == old(cache.cursor))
      ensures ok && old(cache.HasCurrent()) ==> cache.HasCurrent() && cache.Current() > old(cache.Current())
    {
      run := [];
      if !loaded {
        return false, run;
      }
      if !cache.HasNext() {
        var r;
        ghost var final;
        label Call:
        r, final := ReadFrame(-1, 1);
        run := final.run;
        ghost var goal := SeekTarget(-1, 1, old@Call(CacheTimestamp()), old@Call(info.AverageTimeStampsPerFrame));
        ReadFrameDecodes(source.Packets, old@Call(source.position), source.Landing(Reseek(goal, old@Call(info))),
                         Resumed(goal >= 0, old@Call(timestampInfo), old@Call(CacheTimestamp())),
                         goal >= 0, goal, 1, old@Call(info.AverageTimeStampsPerFrame));
      }
      ok := cache.MoveNext();
    }

    /**
     * MoveTo: a cached timestamp is shown directly. Otherwise the cache is
     * cleared, unless the jump is the rollover from the end of the working
     * zone back to its start, and the reader seeks; the cursor then goes to
     * the timestamp the reconciler reached. `r` is ReadFrame's result
     * (Success when the frame was cached) and `final` the decoding state
     * ReadFrame ended in.
     */
    method MoveTo(ts: int) returns (ok: bool, ghost r: ReadResult, ghost final: Decoding)
      requires Valid()
      modifies this`timestampInfo, cache, source
      ensures Valid()
      ensures source.position == final.position && timestampInfo == final.info
      ensures !loaded ==>
                && !ok && r == MovieNotLoaded && final == StartDecoding(old(source.position), old(timestampInfo))
                && cache.Timestamps == old(cache.Timestamps) && cache.cursor == old(cache.cursor)
      ensures loaded && ts in old(cache.Timestamps) ==>
                && ok && r == ReadResult.Success && final == StartDecoding(old(source.position), old(timestampInfo))
                && cache.Timestamps == old(cache.Timestamps) && cache.HasCurrent() && cache.Current() == ts
      ensures loaded && ts !in old(cache.Timestamps) ==>
                var rollover := ts == workingZone.Start && workingZone.End in old(cache.Timestamps);
                var kept := if rollover then old(cache.Timestamps) else [];
                var avg := old(info.AverageTimeStampsPerFrame);
                var seeking := ts >= 0;
                var back := Reseek(ts, old(info));
                var reset := if seeking then EmptyTimestampInfo else old(timestampInfo);
                var init := Resumed(seeking, old(timestampInfo), if rollover then old(CacheTimestamp()) else -1);
                var from := if seeking then source.Landing(ts) else old(source.position);
                && source.seeks == old(source.seeks) + (if seeking then [ts] else []) + (if final.reseeked then [back] else [])
                && (r == MemoryNotAllocated <==> !old(DecodingSizeValid()))
                && (r == MemoryNotAllocated ==> final == StartDecoding(from, reset))
                && (r != MemoryNotAllocated ==>
                      (r, final) == DecodeRun(source.Packets, source.Landing(back), seeking, ts, 1, avg, StartDecoding(from, init)))
                && (r == ReadResult.Success ==> cache.Timestamps == Appended(kept, timestampInfo.CurrentTimestamp))
                && (r != ReadResult.Success ==> cache.Timestamps == kept)
                && (ok <==> timestampInfo.CurrentTimestamp in cache.Timestamps)
                && (ok ==> cache.HasCurrent() && cache.Current() == timestampInfo.CurrentTimestamp)
    {
      final := StartDecoding(source.position, timestampInfo);
      if !loaded {
        return false, MovieNotLoaded, final;
      }
      r := ReadResult.Success;
      var goal := ts;
      if !cache.Contains(goal) {
        if goal != workingZone.Start || !cache.Contains(workingZone.End) {
          cache.Clear();
        }
        label Call:
        r, final := ReadFrame(goal, 1);
        goal := timestampInfo.CurrentTimestamp;
      }
      ok := cache.MoveTo(goal);
    }

    //-------------------------------------------------------------------------
    // Import of a selection into memory
    //-------------------------------------------------------------------------

    /**
     * ExtractToMemory: prepare the selection, decode from its (rewritten)
     * start unless it was only reduced, place each decoded frame at or after
     * the start according to the strategy, then keep or discard the
     * selection. `cancel(n)` says whether cancellation is pending once the
     * n-th frame of the selection has been placed.
     *
     * Ghost results: `p` is the preparation, and `run` the outcome of the
     * import loop (why it ended and its final state), None when no loop ran:
     * a reduction, or a decoding size for which no picture can be allocated.
     */
    method ExtractToMemory(start: int, end: int, forceReload: bool, cancel: nat -> bool)
      returns (ghost p: AnalysisWindow.Preparation, ghost run: Option<(ImportEnd, Importing)>)
      requires Valid()
      modifies this`timestampInfo, source, window
      ensures Valid()
      ensures p == AnalysisWindow.Prepare(old(window.AnalysisMode), old(window.Frames), start, end, forceReload, info.AverageTimeStampsPerFrame)
      ensures p.strategy == AnalysisWindow.Reduction ==>
                && run.None? && timestampInfo == old(timestampInfo)
                && source.position == old(source.position) && source.seeks == old(source.seeks)
      ensures p.strategy != AnalysisWindow.Reduction && !DecodingSizeValid() ==>
                && run.None? && timestampInfo == old(timestampInfo)
                && source.position == source.Landing(p.start) && source.seeks == old(source.seeks) + [p.start]
      ensures p.strategy != AnalysisWindow.Reduction && DecodingSizeValid() ==>
                && run == Some(ImportRun(source.Packets, source.Landing(Reseek(p.start, info)), PlanOf(p), cancel,
                                         info.AverageTimeStampsPerFrame,
                                         Importing(StartDecoding(source.Landing(p.start), old(timestampInfo)), p.frames, [])))
                && source.position == run.value.1.d.position && timestampInfo == run.value.1.d.info
                && source.seeks == old(source.seeks) + [p.start] + (if run.value.1.d.reseeked then [Reseek(p.start, info)] else [])
      ensures var o := AnalysisWindow.Finalised(if run.Some? then run.value.1.frames else p.frames,
                                                run.Some? && run.value.0 == Canceled, old(window.CurrentFrame));
              && window.AnalysisMode == o.mode && window.DurationFrame == o.durationFrame
              && window.CurrentFrame == o.currentFrame && window.Frames == o.frames
    {
      var avg := info.AverageTimeStampsPerFrame;
      var strategy, first, last := window.PrepareSelection(start, end, forceReload, avg);
      p := AnalysisWindow.Preparation(strategy, window.Frames, first, last);
      AnalysisWindow.PrepareCompleteIffEmpty(old(window.AnalysisMode), old(window.Frames), start, end, forceReload, avg);
      // Reinitialise the mode in case the import fails.
      window.AnalysisMode := 0;
      run := ImportSelection(strategy, first, last, p, cancel);
    }

    /**
     * ExtractToMemory once the selection is prepared as `p` says: decode
     * unless it was only reduced, then keep or discard the selection.
     */
    method ImportSelection(strategy: AnalysisWindow.ImportStrategy, first: int, last: int, ghost p: AnalysisWindow.Preparation, cancel: nat -> bool)
      returns (ghost run: Option<(ImportEnd, Importing)>)
      requires Valid() && window.AnalysisMode == 0 && p == AnalysisWindow.Preparation(strategy, window.Frames, first, last)
      requires strategy == AnalysisWindow.Complete <==> window.Frames == []
      modifies this`timestampInfo, source, window
      ensures Valid()
      ensures p.strategy == AnalysisWindow.Reduction ==>
                && run.None? && timestampInfo == old(timestampInfo)
                && source.position == old(source.position) && source.seeks == old(source.seeks)
      ensures p.strategy != AnalysisWindow.Reduction && !DecodingSizeValid() ==>
                && run.None? && timestampInfo == old(timestampInfo)
                && source.position == source.Landing(p.start) && source.seeks == old(source.seeks) + [p.start]
      ensures p.strategy != AnalysisWindow.Reduction && DecodingSizeValid() ==>
                && run == Some(ImportRun(source.Packets, source.Landing(Reseek(p.start, info)), PlanOf(p), cancel,
                                         info.AverageTimeStampsPerFrame,
                                         Importing(StartDecoding(source.Landing(p.start), old(timestampInfo)), p.frames, [])))
                && source.position == run.value.1.d.position && timestampInfo == run.value.1.d.info
                && source.seeks == old(source.seeks) + [p.start] + (if run.value.1.d.reseeked then [Reseek(p.start, info)] else [])
      ensures var o := AnalysisWindow.Finalised(if run.Some? then run.value.1.frames else p.frames,
                                                run.Some? && run.value.0 == Canceled, old(window.CurrentFrame));
              && window.AnalysisMode == o.mode && window.DurationFrame == o.durationFrame
              && window.CurrentFrame == o.currentFrame && window.Frames == o.frames
    {
      run := None;
      var canceled := false;

      var oldStart, oldEnd := 0, 0;
      if strategy != AnalysisWindow.Complete && |window.Frames| > 0 {
        oldStart := window.Frames[0];
        oldEnd := window.Frames[|window.Frames| - 1];
      }
      assert PlanOf(p) == ImportPlan(strategy, first, last, oldStart, oldEnd);

      if strategy != AnalysisWindow.Reduction {
        run, canceled := LoadSelection(ImportPlan(strategy, first, last, oldStart, oldEnd), cancel);
      }

      window.Finalise(canceled);
    }

    /**
     * The part of ExtractToMemory that decodes: the seek to the start of the
     * range, then the import loop when a picture can be allocated.
     */
    method LoadSelection(plan: ImportPlan, cancel: nat -> bool) returns (ghost run: Option<(ImportEnd, Importing)>, canceled: bool)
      requires source.Valid() && window.Valid() && window.AnalysisMode == 0 && BufferedWellFormed(timestampInfo)
      requires plan.strategy == AnalysisWindow.Complete ==> window.Frames == []
      modifies this`timestampInfo, source, window`Frames
      ensures source.Valid() && window.Valid() && window.AnalysisMode == 0 && BufferedWellFormed(timestampInfo)
      ensures canceled <==> run.Some? && run.value.0 == Canceled
      ensures !DecodingSizeValid() ==>
                && run.None? && timestampInfo == old(timestampInfo) && window.Frames == old(window.Frames)
                && source.position == source.Landing(plan.first) && source.seeks == old(source.seeks) + [plan.first]
      ensures DecodingSizeValid() ==>
                && run == Some(ImportRun(source.Packets, source.Landing(Reseek(plan.first, info)), plan, cancel,
                                         info.AverageTimeStampsPerFrame,
                                         Importing(StartDecoding(source.Landing(plan.first), old(timestampInfo)), old(window.Frames), [])))
                && source.position == run.value.1.d.position && timestampInfo == run.value.1.d.info
                && window.Frames == run.value.1.frames
                && source.seeks == old(source.seeks) + [plan.first] + (if run.value.1.d.reseeked then [Reseek(plan.first, info)] else [])
    {
      run, canceled := None, false;
      source.Seek(plan.first);
      if DecodingSizeValid() {
        var why;
        ghost var final;
        why, final := ImportFrames(plan, cancel);
        ImportFramesImports(source.Packets, source.Landing(plan.first), source.Landing(Reseek(plan.first, info)), old(timestampInfo),
                            plan, cancel, info.AverageTimeStampsPerFrame, old(window.Frames));
        run := Some((why, final));
        canceled := why == Canceled;
      }
    }

    /**
     * The decoding loop of ExtractToMemory, after the seek to `plan.first`:
     * it ends in the outcome of ImportRun from the packet, the reconciler
     * state and the frame list it starts with, whose meaning
     * ImportFramesImports states. The loop runs ImportTurn until the packets
     * run out or a turn ends the import, as ImportRun does.
     */
    method ImportFrames(plan: ImportPlan, cancel: nat -> bool) returns (why: ImportEnd, ghost final: Importing)
      requires source.Valid() && window.Valid() && window.AnalysisMode == 0
      modifies this`timestampInfo, source, window`Frames
      ensures source.Valid() && window.Valid() && window.AnalysisMode == 0
      ensures (why, final) == ImportRun(source.Packets, source.Landing(Reseek(plan.first, info)), plan, cancel, info.AverageTimeStampsPerFrame,
                                        Importing(StartDecoding(old(source.position), old(timestampInfo)), old(window.Frames), []))
      ensures source.position == final.d.position && timestampInfo == final.d.info && window.Frames == final.frames
      ensures source.seeks == old(source.seeks) + (if final.d.reseeked then [Reseek(plan.first, info)] else [])
    {
      var avg := info.AverageTimeStampsPerFrame;
      var back := Reseek(plan.first, info);
      ghost var landing := source.Landing(back);
      ghost var from, init, base := source.position, timestampInfo, window.Frames;
      ghost var s := Importing(StartDecoding(from, init), base, []);
      ghost var outcome := ImportRun(source.Packets, landing, plan, cancel, avg, s);
      var firstPass := true;
      var framesDecoded: nat := 0;
      why := EndOfFile;
      while true
        modifies this`timestampInfo, source, window`Frames
        invariant source.Valid() && window.Valid() && window.AnalysisMode == 0
        invariant s.d.position == source.position && s.d.info == timestampInfo && s.frames == window.Frames
        invariant s.d.firstPass == firstPass && s.d.framesDecoded == framesDecoded
        invariant source.seeks == old(source.seeks) + (if s.d.reseeked then [back] else [])
        invariant s.d.firstPass ==> !s.d.reseeked
        invariant ImportRun(source.Packets, landing, plan, cancel, avg, s) == outcome
        decreases Pass(plan.first >= 0, s.d), |source.Packets| - s.d.position
      {
        var ended;
        var stop: Option<ImportEnd>;
        ghost var t;
        ended, stop, firstPass, framesDecoded, t := ImportTurn(plan, cancel, avg, back, firstPass, framesDecoded, s);
        if !ended {
          ImportRunTurn(source.Packets, landing, plan, cancel, avg, s);
        }
        if ended {
          // End of the file or read error.
          why := EndOfFile;
          break;
        }
        s := t;
        if stop.Some? {
          why := stop.value;
          break;
        }
      }
      final := s;
    }

    /**
     * One turn of ExtractToMemory's loop: read a packet and, when it belongs
     * to the video stream, decode it and reconcile its timestamps; seek back
     * once on an overshoot of the start; drop a picture before the start, or
     * count it and place it in the frame list, and say whether the import
     * ends there. It does what ImportAdvance says, from the state `s` the
     * reader is in; `ended` is a failed read.
     */
    method ImportTurn(plan: ImportPlan, cancel: nat -> bool, avg: int, back: int,
                      firstPass: bool, framesDecoded: nat, ghost s: Importing)
      returns (ended: bool, stop: Option<ImportEnd>, firstPass': bool, framesDecoded': nat, ghost t: Importing)
      requires source.Valid() && window.Valid() && window.AnalysisMode == 0
      requires s.d.position == source.position && s.d.info == timestampInfo && s.frames == window.Frames
      requires s.d.firstPass == firstPass && s.d.framesDecoded == framesDecoded
      requires s.d.firstPass ==> !s.d.reseeked
      modifies this`timestampInfo, source, window`Frames
      ensures source.Valid() && window.Valid() && window.AnalysisMode == 0
      ensures ended <==> old(source.position) == |source.Packets|
      ensures ended ==> stop.None? && t == s
      ensures !ended ==> (stop, t) == ImportAdvance(source.Packets, source.Landing(back), plan, cancel, avg, s)
      ensures t.d.position == source.position && t.d.info == timestampInfo && t.frames == window.Frames
      ensures t.d.firstPass == firstPass' && t.d.framesDecoded == framesDecoded'
      ensures source.seeks == old(source.seeks) + (if t.d.reseeked && !s.d.reseeked then [back] else [])
    {
      ended, stop, firstPass', framesDecoded', t := false, None, firstPass, framesDecoded, s;
      var read := source.Read();
      if read.None? {
        return true, None, firstPass, framesDecoded, s;
      }
      var packet := read.value;
      if packet.OtherStream? {
        t := s.(d := s.d.(position := s.d.position + 1));
        return;
      }
      ghost var observation := Observation(packet.dts, packet.pts, packet.finished);
      timestampInfo := SetTimestampFromPacket(timestampInfo, packet.dts, packet.pts, packet.finished, avg);
      if !packet.finished {
        // Buffering: libav kept a reference frame for a coming B-frame.
        t := s.(d := s.d.(position := s.d.position + 1, info := timestampInfo, run := s.d.run + [observation]));
        return;
      }
      var ts := timestampInfo.CurrentTimestamp;
      if firstPass && ts > plan.first && plan.first >= 0 {
        // The seek landed after the start: seek four seconds further back, once.
        source.Seek(back);
        firstPass' := false;
        t := s.(d := s.d.(position := source.position, info := timestampInfo, firstPass := false, reseeked := true,
                          pre := s.d.run + [observation], run := []));
        return;
      }
      firstPass' := false;
      ghost var e := s.d.(position := s.d.position + 1, info := timestampInfo, firstPass := false, run := s.d.run + [observation]);
      if ts < plan.first {
        // Decoded before the start of the selection: dropped.
        t := s.(d := e);
        return;
      }
      framesDecoded' := framesDecoded + 1;
      var done := plan.last > 0 && ts >= plan.last;
      var placed := window.Place(plan.strategy, ts, framesDecoded', plan.oldStart, plan.oldEnd);
      t := Importing(e.(framesDecoded := framesDecoded'), window.Frames, s.imported + [ts]);
      if !placed {
        // The list threw: the import ends.
        stop := Some(Threw);
      } else if cancel(framesDecoded') {
        stop := Some(Canceled);
      } else if done {
        stop := Some(Reached);
      }
    }
  }
}
