/**
 * The decoding loops of the reader as functions of the file's packets: what
 * ReadFrame's loop and the import loop observe, the state they carry from one
 * packet to the next, where they stop, and the proofs that the
 * reconciler's timestamps, the packets read and the frames kept are what
 * those functions say.
 */
module DecodeLoops {
  import opened Numerics
  import opened Timestamps
  import opened PlaybackCache
  import PacketSource
  import AnalysisWindow

  /** How a ReadFrame call ends. */
  datatype ReadResult = Success | MovieNotLoaded | MemoryNotAllocated | FrameNotRead

  /**
   * The timestamps of `frames` later than `bound`, in their order: what
   * InsertionAfter appends, and what the import keeps of the decoded frames.
   */
  function Later(frames: seq<int>, bound: int): (r: seq<int>)
    ensures forall x :: x in r <==> x in frames && x > bound
    ensures |r| <= |frames|
    ensures StrictlyIncreasing(frames) ==> StrictlyIncreasing(r)
    ensures (forall i :: 0 <= i < |frames| ==> frames[i] > bound) ==> r == frames
    decreases |frames|
  {
    if frames == [] then []
    else
      var init, x := frames[..|frames| - 1], frames[|frames| - 1];
      assert frames == init + [x];
      assert StrictlyIncreasing(frames) ==> StrictlyIncreasing(init) && forall y :: y in init ==> y < x;
      var rest := Later(init, bound);
      IncreasingAppend(rest, x);
      rest + (if x > bound then [x] else [])
  }

  lemma LaterAppend(frames: seq<int>, ts: int, bound: int)
    ensures Later(frames + [ts], bound) == Later(frames, bound) + (if ts > bound then [ts] else [])
  {
    assert (frames + [ts])[..|frames + [ts]| - 1] == frames;
  }

  /** The timestamps of `frames` earlier than `bound`, in their order: what InsertionBefore inserts. */
  function Earlier(frames: seq<int>, bound: int): (r: seq<int>)
    ensures forall x :: x in r <==> x in frames && x < bound
    ensures |r| <= |frames|
    ensures (forall i :: 0 <= i < |frames| ==> frames[i] < bound) ==> r == frames
    decreases |frames|
  {
    if frames == [] then []
    else
      var init := frames[..|frames| - 1];
      assert forall x :: x in init ==> x in frames;
      Earlier(init, bound) + (if frames[|frames| - 1] < bound then [frames[|frames| - 1]] else [])
  }

  lemma EarlierAppend(frames: seq<int>, ts: int, bound: int)
    ensures Earlier(frames + [ts], bound) == Earlier(frames, bound) + (if ts < bound then [ts] else [])
  {
    assert (frames + [ts])[..|frames + [ts]| - 1] == frames;
  }

  //---------------------------------------------------------------------------
  // What the decoding loops observe
  //---------------------------------------------------------------------------

  /** What decoding one packet shows the reconciler: nothing for a packet of another stream. */
  function ObservationOf(p: PacketSource.Packet): seq<Observation> {
    match p
    case OtherStream => []
    case VideoPacket(dts, pts, finished) => [Observation(dts, pts, finished)]
  }

  /** The observations of the packets from index `lo` up to `hi` (excluded): one per video packet, in order. */
  function Observed(packets: seq<PacketSource.Packet>, lo: nat, hi: nat): (obs: seq<Observation>)
    requires lo <= hi <= |packets|
    ensures |obs| <= hi - lo
    decreases hi
  {
    if hi == lo then [] else Observed(packets, lo, hi - 1) + ObservationOf(packets[hi - 1])
  }

  /**
   * Where the observations of a decoding run come from. The run started at
   * packet `from` and is now at `position`. Without the overshoot correction
   * it observed the video packets in between (`run`); with it, the video
   * packets from `from` up to some packet (`pre`), then those from where the
   * corrective seek landed, `landing`, to `position` (`run`).
   */
  ghost predicate ReadFrom(packets: seq<PacketSource.Packet>, from: nat, landing: nat, position: nat,
                           pre: seq<Observation>, run: seq<Observation>, reseeked: bool)
  {
    if reseeked then
      && landing <= position <= |packets|
      && run == Observed(packets, landing, position)
      && exists k :: from <= k <= |packets| && pre == Observed(packets, from, k)
    else
      && from <= position <= |packets|
      && pre == [] && run == Observed(packets, from, position)
  }

  /**
   * The overshoot correction of a decoding run toward `goal` from reconciler
   * state `init`: it is made at most once, exactly when the first picture
   * decoded after the seek lies after `goal`; `pre` then ends with that
   * picture, and its timestamp is dropped.
   */
  ghost predicate Corrected(init: TimestampInfo, pre: seq<Observation>, run: seq<Observation>, goal: int, avg: int, reseeked: bool) {
    if reseeked then
      && pre != [] && pre[|pre| - 1].decoded
      && Stamps(init, pre, avg) == [Replay(init, pre, avg).CurrentTimestamp]
      && Replay(init, pre, avg).CurrentTimestamp > goal
    else
      && pre == []
      && (Stamps(init, run, avg) != [] ==> Stamps(init, run, avg)[0] <= goal)
  }

  /**
   * The state of a decoding loop (ReadFrame's or the import's) toward `goal`
   * (a negative goal: no seek and no correction), relative to where it
   * started: packet `from`, reconciler state `init`. The loop is at packet
   * `position` with reconciler state `info`; `pre`, `run`, `reseeked` are as
   * in ReadFrom and Corrected, `resumed` is the reconciler state the run
   * after the correction started from, `k` the packet where the correction
   * happened, and `stamps` the timestamps of the pictures completed since.
   */
  ghost predicate Tracking(packets: seq<PacketSource.Packet>, from: nat, landing: nat, init: TimestampInfo, goal: int, avg: int,
                           position: nat, info: TimestampInfo, firstPass: bool,
                           pre: seq<Observation>, run: seq<Observation>, stamps: seq<int>, resumed: TimestampInfo, k: nat, reseeked: bool)
  {
    var seg := if reseeked then landing else from;
    && seg <= position <= |packets| && run == Observed(packets, seg, position)
    && (reseeked ==> from <= k <= |packets| && pre == Observed(packets, from, k))
    && (!reseeked ==> pre == [] && resumed == init)
    && resumed == Replay(init, pre, avg)
    && info == Replay(resumed, run, avg)
    && stamps == Stamps(resumed, run, avg)
    && BufferedWellFormed(info)
    && (firstPass <==> !reseeked && stamps == [])
    && (reseeked ==> goal >= 0 && Corrected(init, pre, run, goal, avg, true))
    && (goal >= 0 && !reseeked && stamps != [] ==> stamps[0] <= goal)
  }

  /** A decoding loop starts tracking where it stands. */
  lemma TrackStart(packets: seq<PacketSource.Packet>, from: nat, landing: nat, init: TimestampInfo, goal: int, avg: int)
    requires from <= |packets| && BufferedWellFormed(init)
    ensures Tracking(packets, from, landing, init, goal, avg, from, init, true, [], [], [], init, from, false)
  {
  }

  /** A packet of another stream is read and skipped. */
  lemma TrackOther(packets: seq<PacketSource.Packet>, from: nat, landing: nat, init: TimestampInfo, goal: int, avg: int,
                   position: nat, info: TimestampInfo, firstPass: bool,
                   pre: seq<Observation>, run: seq<Observation>, stamps: seq<int>, resumed: TimestampInfo, k: nat, reseeked: bool,
                   position': nat)
    requires Tracking(packets, from, landing, init, goal, avg, position, info, firstPass, pre, run, stamps, resumed, k, reseeked)
    requires position < |packets| && packets[position].OtherStream? && position' == position + 1
    ensures Tracking(packets, from, landing, init, goal, avg, position', info, firstPass, pre, run, stamps, resumed, k, reseeked)
  {
  }

  /**
   * A video packet is decoded and the reconciler observes it, without an
   * overshoot correction; the primed parameters are the state after it.
   */
  lemma TrackObserve(packets: seq<PacketSource.Packet>, from: nat, landing: nat, init: TimestampInfo, goal: int, avg: int,
                     position: nat, info: TimestampInfo, firstPass: bool,
                     pre: seq<Observation>, run: seq<Observation>, stamps: seq<int>, resumed: TimestampInfo, k: nat, reseeked: bool,
                     o: Observation, position': nat, info': TimestampInfo, firstPass': bool, run': seq<Observation>, stamps': seq<int>)
    requires Tracking(packets, from, landing, init, goal, avg, position, info, firstPass, pre, run, stamps, resumed, k, reseeked)
    requires position < |packets| && packets[position] == PacketSource.VideoPacket(o.dts, o.pts, o.decoded)
    requires !(o.decoded && firstPass && goal >= 0 && Step(info, o, avg).CurrentTimestamp > goal)
    requires position' == position + 1 && info' == Step(info, o, avg) && firstPass' == (firstPass && !o.decoded)
    requires run' == run + [o] && stamps' == stamps + (if o.decoded then [info'.CurrentTimestamp] else [])
    ensures Tracking(packets, from, landing, init, goal, avg, position', info', firstPass', pre, run', stamps', resumed, k, reseeked)
  {
    ReplayAppend(resumed, run, o, avg);
    StampsAppend(resumed, run, o, avg);
    assert Observed(packets, if reseeked then landing else from, position') == run';
  }

  /**
   * The first picture decoded after the seek lies after the goal: the loop
   * seeks back to `landing` and starts a new run from there; the primed
   * parameters are the state after it.
   */
  lemma TrackReseek(packets: seq<PacketSource.Packet>, from: nat, landing: nat, init: TimestampInfo, goal: int, avg: int,
                    position: nat, info: TimestampInfo, firstPass: bool,
                    pre: seq<Observation>, run: seq<Observation>, stamps: seq<int>, resumed: TimestampInfo, k: nat, reseeked: bool,
                    o: Observation, info': TimestampInfo, pre': seq<Observation>, k': nat)
    requires Tracking(packets, from, landing, init, goal, avg, position, info, firstPass, pre, run, stamps, resumed, k, reseeked)
    requires position < |packets| && packets[position] == PacketSource.VideoPacket(o.dts, o.pts, o.decoded)
    requires o.decoded && firstPass && goal >= 0 && Step(info, o, avg).CurrentTimestamp > goal
    requires landing <= |packets|
    requires info' == Step(info, o, avg) && pre' == run + [o] && k' == position + 1
    ensures Tracking(packets, from, landing, init, goal, avg, landing, info', false, pre', [], [], info', k', true)
  {
    ReplayAppend(resumed, run, o, avg);
    StampsAppend(resumed, run, o, avg);
  }

  /** What a decoding loop can promise about its observations wherever it stops. */
  lemma TrackingFacts(packets: seq<PacketSource.Packet>, from: nat, landing: nat, init: TimestampInfo, goal: int, avg: int,
                      position: nat, info: TimestampInfo, firstPass: bool,
                      pre: seq<Observation>, run: seq<Observation>, stamps: seq<int>, resumed: TimestampInfo, k: nat, reseeked: bool)
    requires Tracking(packets, from, landing, init, goal, avg, position, info, firstPass, pre, run, stamps, resumed, k, reseeked)
    ensures ReadFrom(packets, from, landing, position, pre, run, reseeked)
    ensures goal >= 0 ==> Corrected(init, pre, run, goal, avg, reseeked)
    ensures goal < 0 ==> !reseeked
    ensures resumed == Replay(init, pre, avg) && info == Replay(resumed, run, avg) && stamps == Stamps(resumed, run, avg)
    ensures BufferedWellFormed(info)
  {
  }

  /**
   * Where ReadFrame's loop stops, given the timestamps of the pictures it
   * decoded: in seek mode at the first one at or after `goal`, in linear mode
   * after max(count, 1) of them. `reached` says whether it got there before
   * the end of the file.
   */
  ghost predicate StopsAt(stamps: seq<int>, seeking: bool, goal: int, count: int, reached: bool) {
    if seeking then
      && (forall i :: 0 <= i < |stamps| - 1 ==> stamps[i] < goal)
      && (reached <==> stamps != [] && stamps[|stamps| - 1] >= goal)
    else
      && |stamps| <= Max(count, 1)
      && (reached <==> |stamps| == Max(count, 1))
  }

  /**
   * Why ExtractToMemory's loop stopped, given the frames it counted
   * (`imported`): cancellation, checked after each placed frame; a throw of
   * the frame list; the end of the file (`atEnd`); or a frame at or after
   * `last`, when `last` is positive, which is the final one.
   */
  ghost predicate ImportStops(imported: seq<int>, last: int, cancel: nat -> bool, canceled: bool, threw: bool, atEnd: bool) {
    && (last > 0 ==> forall i :: 0 <= i < |imported| - 1 ==> imported[i] < last)
    && (forall n :: 1 <= n < |imported| ==> !cancel(n))
    && (canceled ==> !threw && imported != [] && cancel(|imported|))
    && (threw ==> imported != [])
    && (!canceled && !threw && imported != [] ==> !cancel(|imported|))
    && (!canceled && !threw && !atEnd ==> last > 0 && imported != [] && imported[|imported| - 1] >= last)
  }

  //---------------------------------------------------------------------------
  // The decoding loops as functions of the packets
  //---------------------------------------------------------------------------

  /**
   * The state of a decoding loop: the next packet, the reconciler's state,
   * whether no picture was completed since the seek, how many pictures
   * counted toward the target, whether the overshoot correction was made,
   * and the reconciler's observations before (`pre`) and after (`run`) it.
   */
  datatype Decoding = Decoding(position: nat, info: TimestampInfo, firstPass: bool, framesDecoded: nat,
                               reseeked: bool, pre: seq<Observation>, run: seq<Observation>)

  /** A decoding loop before its first packet. */
  function StartDecoding(position: nat, info: TimestampInfo): Decoding {
    Decoding(position, info, true, 0, false, [], [])
  }

  /** 1 while the first pass of a seek may still correct an overshoot, 0 after. */
  function Pass(seeking: bool, d: Decoding): nat {
    if d.firstPass && seeking then 1 else 0
  }

  /**
   * One turn of ReadFrame's loop from state `d`, which has a packet left to
   * read: the new state, and whether the loop stops there with Success.
   * A packet of another stream is skipped and a buffering packet only
   * observed. In seek mode the first completed picture after `goal` causes
   * one seek back to packet `landing`, and the loop stops at the first
   * picture at or after `goal`; in linear mode it stops after `framesToGo`
   * pictures (at least one).
   */
  function Advance(packets: seq<PacketSource.Packet>, landing: nat, seeking: bool, goal: int, framesToGo: int, avg: int,
                   d: Decoding): (out: (bool, Decoding))
    requires d.position < |packets| && landing <= |packets|
    ensures out.1.position <= |packets|
    ensures !out.0 ==> Pass(seeking, out.1) < Pass(seeking, d)
                       || (Pass(seeking, out.1) == Pass(seeking, d) && out.1.position > d.position)
  {
    match packets[d.position]
    case OtherStream => (false, d.(position := d.position + 1))
    case VideoPacket(dts, pts, finished) =>
      var o := Observation(dts, pts, finished);
      var next := Step(d.info, o, avg);
      if !finished then
        (false, d.(position := d.position + 1, info := next, run := d.run + [o]))
      else if seeking && d.firstPass && next.CurrentTimestamp > goal then
        (false, d.(position := landing, info := next, firstPass := false, reseeked := true, pre := d.run + [o], run := []))
      else
        var e := d.(position := d.position + 1, info := next, firstPass := false, framesDecoded := d.framesDecoded + 1, run := d.run + [o]);
        ((seeking && next.CurrentTimestamp >= goal) || (!seeking && e.framesDecoded >= framesToGo), e)
  }

  /**
   * ReadFrame's loop from state `d` to its end: the result and the final
   * state, Advance turn after turn. The end of the packets gives FrameNotRead.
   */
  function DecodeRun(packets: seq<PacketSource.Packet>, landing: nat, seeking: bool, goal: int, framesToGo: int, avg: int,
                     d: Decoding): (out: (ReadResult, Decoding))
    requires d.position <= |packets| && landing <= |packets|
    ensures out.0 in {ReadResult.Success, FrameNotRead}
    ensures out.1.position <= |packets|
    ensures out.0 == FrameNotRead ==> out.1.position == |packets|
    decreases Pass(seeking, d), |packets| - d.position
  {
    if d.position == |packets| then (FrameNotRead, d)
    else
      var (stop, e) := Advance(packets, landing, seeking, goal, framesToGo, avg, d);
      if stop then (ReadResult.Success, e) else DecodeRun(packets, landing, seeking, goal, framesToGo, avg, e)
  }

  /**
   * What ReadFrame's loop promises about its outcome when it started at
   * packet `from` with reconciler state `init`: where its observations come
   * from, the overshoot correction, the reconciler's final state, where it
   * stopped, and that a success ends on a completed picture.
   */
  ghost predicate Decoded(packets: seq<PacketSource.Packet>, from: nat, landing: nat, init: TimestampInfo,
                          seeking: bool, goal: int, framesToGo: int, avg: int,
                          result: ReadResult, position: nat, info: TimestampInfo,
                          pre: seq<Observation>, run: seq<Observation>, reseeked: bool) {
    var resumed := Replay(init, pre, avg);
    var stamps := Stamps(resumed, run, avg);
    && ReadFrom(packets, from, landing, position, pre, run, reseeked)
    && (seeking ==> Corrected(init, pre, run, goal, avg, reseeked))
    && (!seeking ==> !reseeked)
    && info == Replay(resumed, run, avg)
    && BufferedWellFormed(info)
    && StopsAt(stamps, seeking, goal, framesToGo, result == ReadResult.Success)
    && result in {ReadResult.Success, FrameNotRead}
    && (result == FrameNotRead ==> position == |packets|)
    && (result == ReadResult.Success ==>
          && run != [] && run[|run| - 1].decoded
          && stamps != [] && stamps[|stamps| - 1] == info.CurrentTimestamp)
  }

  /** The outcome of a decoding loop, in the terms of Decoded. */
  ghost predicate DecodedRun(packets: seq<PacketSource.Packet>, from: nat, landing: nat, init: TimestampInfo,
                             seeking: bool, goal: int, framesToGo: int, avg: int, out: (ReadResult, Decoding)) {
    Decoded(packets, from, landing, init, seeking, goal, framesToGo, avg,
            out.0, out.1.position, out.1.info, out.1.pre, out.1.run, out.1.reseeked)
  }

  /** A packet of another stream is skipped. */
  lemma DecodeRunSkips(packets: seq<PacketSource.Packet>, landing: nat, seeking: bool, goal: int, framesToGo: int, avg: int, d: Decoding)
    requires d.position < |packets| && landing <= |packets| && packets[d.position].OtherStream?
    ensures DecodeRun(packets, landing, seeking, goal, framesToGo, avg, d)
         == DecodeRun(packets, landing, seeking, goal, framesToGo, avg, d.(position := d.position + 1))
  {
  }

  /** A packet that completes no picture only feeds the reconciler. */
  lemma DecodeRunBuffers(packets: seq<PacketSource.Packet>, landing: nat, seeking: bool, goal: int, framesToGo: int, avg: int,
                         d: Decoding, o: Observation)
    requires d.position < |packets| && landing <= |packets|
    requires packets[d.position] == PacketSource.VideoPacket(o.dts, o.pts, o.decoded) && !o.decoded
    ensures DecodeRun(packets, landing, seeking, goal, framesToGo, avg, d)
         == DecodeRun(packets, landing, seeking, goal, framesToGo, avg,
                      d.(position := d.position + 1, info := Step(d.info, o, avg), run := d.run + [o]))
  {
  }

  /** The first picture of a seek that lands after the goal sends the loop back to `landing`. */
  lemma DecodeRunReseeks(packets: seq<PacketSource.Packet>, landing: nat, seeking: bool, goal: int, framesToGo: int, avg: int,
                         d: Decoding, o: Observation)
    requires d.position < |packets| && landing <= |packets|
    requires packets[d.position] == PacketSource.VideoPacket(o.dts, o.pts, o.decoded) && o.decoded
    requires seeking && d.firstPass && Step(d.info, o, avg).CurrentTimestamp > goal
    ensures DecodeRun(packets, landing, seeking, goal, framesToGo, avg, d)
         == DecodeRun(packets, landing, seeking, goal, framesToGo, avg,
                      d.(position := landing, info := Step(d.info, o, avg), firstPass := false, reseeked := true, pre := d.run + [o], run := []))
  {
  }

  /** The picture that reaches the target stops the loop with Success. */
  lemma DecodeRunStops(packets: seq<PacketSource.Packet>, landing: nat, seeking: bool, goal: int, framesToGo: int, avg: int,
                       d: Decoding, o: Observation)
    requires d.position < |packets| && landing <= |packets|
    requires packets[d.position] == PacketSource.VideoPacket(o.dts, o.pts, o.decoded) && o.decoded
    requires !(seeking && d.firstPass && Step(d.info, o, avg).CurrentTimestamp > goal)
    requires (seeking && Step(d.info, o, avg).CurrentTimestamp >= goal) || (!seeking && d.framesDecoded + 1 >= framesToGo)
    ensures DecodeRun(packets, landing, seeking, goal, framesToGo, avg, d)
         == (ReadResult.Success, d.(position := d.position + 1, info := Step(d.info, o, avg), firstPass := false,
                                   framesDecoded := d.framesDecoded + 1, run := d.run + [o]))
  {
  }

  /** A picture short of the target is counted and the loop goes on. */
  lemma DecodeRunCounts(packets: seq<PacketSource.Packet>, landing: nat, seeking: bool, goal: int, framesToGo: int, avg: int,
                        d: Decoding, o: Observation)
    requires d.position < |packets| && landing <= |packets|
    requires packets[d.position] == PacketSource.VideoPacket(o.dts, o.pts, o.decoded) && o.decoded
    requires !(seeking && d.firstPass && Step(d.info, o, avg).CurrentTimestamp > goal)
    requires !((seeking && Step(d.info, o, avg).CurrentTimestamp >= goal) || (!seeking && d.framesDecoded + 1 >= framesToGo))
    ensures DecodeRun(packets, landing, seeking, goal, framesToGo, avg, d)
         == DecodeRun(packets, landing, seeking, goal, framesToGo, avg,
                      d.(position := d.position + 1, info := Step(d.info, o, avg), firstPass := false,
                         framesDecoded := d.framesDecoded + 1, run := d.run + [o]))
  {
  }

  /**
   * A state the decoding loop can reach: Tracking holds of it, its frame
   * count is the number of pictures of the current run, and none of them
   * has yet stopped the loop.
   */
  ghost predicate Resumable(packets: seq<PacketSource.Packet>, from: nat, landing: nat, init: TimestampInfo,
                            seeking: bool, goal: int, framesToGo: int, avg: int,
                            d: Decoding, stamps: seq<int>, resumed: TimestampInfo, k: nat) {
    && landing <= |packets| && (seeking <==> goal >= 0)
    && Tracking(packets, from, landing, init, goal, avg, d.position, d.info, d.firstPass, d.pre, d.run, stamps, resumed, k, d.reseeked)
    && d.framesDecoded == |stamps|
    && (seeking ==> forall i :: 0 <= i < |stamps| ==> stamps[i] < goal)
    && (!seeking ==> d.framesDecoded < Max(framesToGo, 1))
  }

  /** At the end of the packets the loop stops with FrameNotRead, keeping the promises of Decoded. */
  lemma DecodeAtEnd(packets: seq<PacketSource.Packet>, from: nat, landing: nat, init: TimestampInfo,
                    seeking: bool, goal: int, framesToGo: int, avg: int,
                    d: Decoding, stamps: seq<int>, resumed: TimestampInfo, k: nat)
    requires Resumable(packets, from, landing, init, seeking, goal, framesToGo, avg, d, stamps, resumed, k) && d.position == |packets|
    ensures DecodedRun(packets, from, landing, init, seeking, goal, framesToGo, avg, DecodeRun(packets, landing, seeking, goal, framesToGo, avg, d))
  {
    TrackingFacts(packets, from, landing, init, goal, avg, d.position, d.info, d.firstPass, d.pre, d.run, stamps, resumed, k, d.reseeked);
  }

  /** The picture that reaches the target is found in the packets and stops the loop as StopsAt says. */
  lemma ReachedDecoded(packets: seq<PacketSource.Packet>, from: nat, landing: nat, init: TimestampInfo,
                       seeking: bool, goal: int, framesToGo: int, avg: int,
                       e: Decoding, stamps: seq<int>, resumed: TimestampInfo, k: nat)
    requires landing <= |packets| && (seeking <==> goal >= 0)
    requires Tracking(packets, from, landing, init, goal, avg, e.position, e.info, e.firstPass, e.pre, e.run, stamps, resumed, k, e.reseeked)
    requires e.run != [] && e.run[|e.run| - 1].decoded && stamps != [] && stamps[|stamps| - 1] == e.info.CurrentTimestamp
    requires StopsAt(stamps, seeking, goal, framesToGo, true)
    ensures Decoded(packets, from, landing, init, seeking, goal, framesToGo, avg,
                    ReadResult.Success, e.position, e.info, e.pre, e.run, e.reseeked)
  {
    TrackingFacts(packets, from, landing, init, goal, avg, e.position, e.info, e.firstPass, e.pre, e.run, stamps, resumed, k, e.reseeked);
  }

  /** The picture that reaches the target ends the loop with Success, keeping the promises of Decoded. */
  lemma DecodeReaches(packets: seq<PacketSource.Packet>, from: nat, landing: nat, init: TimestampInfo,
                      seeking: bool, goal: int, framesToGo: int, avg: int,
                      d: Decoding, stamps: seq<int>, resumed: TimestampInfo, k: nat, o: Observation)
    requires Resumable(packets, from, landing, init, seeking, goal, framesToGo, avg, d, stamps, resumed, k)
    requires d.position < |packets| && packets[d.position] == PacketSource.VideoPacket(o.dts, o.pts, o.decoded) && o.decoded
    requires !(seeking && d.firstPass && Step(d.info, o, avg).CurrentTimestamp > goal)
    requires (seeking && Step(d.info, o, avg).CurrentTimestamp >= goal) || (!seeking && d.framesDecoded + 1 >= framesToGo)
    ensures DecodedRun(packets, from, landing, init, seeking, goal, framesToGo, avg, DecodeRun(packets, landing, seeking, goal, framesToGo, avg, d))
  {
    var next := Step(d.info, o, avg);
    var e := d.(position := d.position + 1, info := next, firstPass := false, framesDecoded := d.framesDecoded + 1, run := d.run + [o]);
    var stamps' := stamps + [next.CurrentTimestamp];
    TrackObserve(packets, from, landing, init, goal, avg, d.position, d.info, d.firstPass, d.pre, d.run, stamps, resumed, k, d.reseeked,
                 o, e.position, next, false, e.run, stamps');
    assert StopsAt(stamps', seeking, goal, framesToGo, true);
    ReachedDecoded(packets, from, landing, init, seeking, goal, framesToGo, avg, e, stamps', resumed, k);
    DecodeRunStops(packets, landing, seeking, goal, framesToGo, avg, d, o);
  }

  /** Skipping a packet of another stream keeps the promises of Decoded. */
  lemma {:induction false} DecodeSkipTracks(packets: seq<PacketSource.Packet>, from: nat, landing: nat, init: TimestampInfo,
                    seeking: bool, goal: int, framesToGo: int, avg: int,
                                             d: Decoding, stamps: seq<int>, resumed: TimestampInfo, k: nat)
    requires Resumable(packets, from, landing, init, seeking, goal, framesToGo, avg, d, stamps, resumed, k)
    requires d.position < |packets| && packets[d.position].OtherStream?
    ensures DecodedRun(packets, from, landing, init, seeking, goal, framesToGo, avg, DecodeRun(packets, landing, seeking, goal, framesToGo, avg, d))
    decreases Pass(seeking, d), |packets| - d.position, 0
  {
    var e := d.(position := d.position + 1);
    TrackOther(packets, from, landing, init, goal, avg, d.position, d.info, d.firstPass, d.pre, d.run, stamps, resumed, k, d.reseeked,
               e.position);
    DecodeRunTracks(packets, from, landing, init, seeking, goal, framesToGo, avg, e, stamps, resumed, k);
    DecodeRunSkips(packets, landing, seeking, goal, framesToGo, avg, d);
  }

  /** Feeding a packet that completes no picture keeps the promises of Decoded. */
  lemma {:induction false} DecodeBufferTracks(packets: seq<PacketSource.Packet>, from: nat, landing: nat, init: TimestampInfo,
                    seeking: bool, goal: int, framesToGo: int, avg: int,
                                               d: Decoding, stamps: seq<int>, resumed: TimestampInfo, k: nat, o: Observation)
    requires Resumable(packets, from, landing, init, seeking, goal, framesToGo, avg, d, stamps, resumed, k)
    requires d.position < |packets| && packets[d.position] == PacketSource.VideoPacket(o.dts, o.pts, o.decoded) && !o.decoded
    ensures DecodedRun(packets, from, landing, init, seeking, goal, framesToGo, avg, DecodeRun(packets, landing, seeking, goal, framesToGo, avg, d))
    decreases Pass(seeking, d), |packets| - d.position, 0
  {
    var e := d.(position := d.position + 1, info := Step(d.info, o, avg), run := d.run + [o]);
    TrackObserve(packets, from, landing, init, goal, avg, d.position, d.info, d.firstPass, d.pre, d.run, stamps, resumed, k, d.reseeked,
                 o, e.position, e.info, e.firstPass, e.run, stamps);
    DecodeRunTracks(packets, from, landing, init, seeking, goal, framesToGo, avg, e, stamps, resumed, k);
    DecodeRunBuffers(packets, landing, seeking, goal, framesToGo, avg, d, o);
  }

  /** Seeking back after an overshoot keeps the promises of Decoded. */
  lemma {:induction false} DecodeReseekTracks(packets: seq<PacketSource.Packet>, from: nat, landing: nat, init: TimestampInfo,
                    seeking: bool, goal: int, framesToGo: int, avg: int,
                                               d: Decoding, stamps: seq<int>, resumed: TimestampInfo, k: nat, o: Observation)
    requires Resumable(packets, from, landing, init, seeking, goal, framesToGo, avg, d, stamps, resumed, k)
    requires d.position < |packets| && packets[d.position] == PacketSource.VideoPacket(o.dts, o.pts, o.decoded) && o.decoded
    requires seeking && d.firstPass && Step(d.info, o, avg).CurrentTimestamp > goal
    ensures DecodedRun(packets, from, landing, init, seeking, goal, framesToGo, avg, DecodeRun(packets, landing, seeking, goal, framesToGo, avg, d))
    decreases Pass(seeking, d), |packets| - d.position, 0
  {
    var next := Step(d.info, o, avg);
    var e := d.(position := landing, info := next, firstPass := false, reseeked := true, pre := d.run + [o], run := []);
    TrackReseek(packets, from, landing, init, goal, avg, d.position, d.info, d.firstPass, d.pre, d.run, stamps, resumed, k, d.reseeked,
                o, next, e.pre, d.position + 1);
    DecodeRunTracks(packets, from, landing, init, seeking, goal, framesToGo, avg, e, [], next, d.position + 1);
    DecodeRunReseeks(packets, landing, seeking, goal, framesToGo, avg, d, o);
  }

  /** Counting a picture short of the target keeps the promises of Decoded. */
  lemma {:induction false} DecodeCountTracks(packets: seq<PacketSource.Packet>, from: nat, landing: nat, init: TimestampInfo,
                    seeking: bool, goal: int, framesToGo: int, avg: int,
                                              d: Decoding, stamps: seq<int>, resumed: TimestampInfo, k: nat, o: Observation)
    requires Resumable(packets, from, landing, init, seeking, goal, framesToGo, avg, d, stamps, resumed, k)
    requires d.position < |packets| && packets[d.position] == PacketSource.VideoPacket(o.dts, o.pts, o.decoded) && o.decoded
    requires !(seeking && d.firstPass && Step(d.info, o, avg).CurrentTimestamp > goal)
    requires !((seeking && Step(d.info, o, avg).CurrentTimestamp >= goal) || (!seeking && d.framesDecoded + 1 >= framesToGo))
    ensures DecodedRun(packets, from, landing, init, seeking, goal, framesToGo, avg, DecodeRun(packets, landing, seeking, goal, framesToGo, avg, d))
    decreases Pass(seeking, d), |packets| - d.position, 0
  {
    var next := Step(d.info, o, avg);
    var e := d.(position := d.position + 1, info := next, firstPass := false, framesDecoded := d.framesDecoded + 1, run := d.run + [o]);
    var stamps' := stamps + [next.CurrentTimestamp];
    TrackObserve(packets, from, landing, init, goal, avg, d.position, d.info, d.firstPass, d.pre, d.run, stamps, resumed, k, d.reseeked,
                 o, e.position, next, false, e.run, stamps');
    DecodeRunTracks(packets, from, landing, init, seeking, goal, framesToGo, avg, e, stamps', resumed, k);
    DecodeRunCounts(packets, landing, seeking, goal, framesToGo, avg, d, o);
  }

  /** DecodeRun from any state the loop can reach keeps the promises of Decoded. */
  lemma {:induction false} DecodeRunTracks(packets: seq<PacketSource.Packet>, from: nat, landing: nat, init: TimestampInfo,
                    seeking: bool, goal: int, framesToGo: int, avg: int,
                                            d: Decoding, stamps: seq<int>, resumed: TimestampInfo, k: nat)
    requires Resumable(packets, from, landing, init, seeking, goal, framesToGo, avg, d, stamps, resumed, k)
    ensures DecodedRun(packets, from, landing, init, seeking, goal, framesToGo, avg, DecodeRun(packets, landing, seeking, goal, framesToGo, avg, d))
    decreases Pass(seeking, d), |packets| - d.position, 1
  {
    if d.position == |packets| {
      DecodeAtEnd(packets, from, landing, init, seeking, goal, framesToGo, avg, d, stamps, resumed, k);
    } else {
      match packets[d.position]
      case OtherStream =>
        DecodeSkipTracks(packets, from, landing, init, seeking, goal, framesToGo, avg, d, stamps, resumed, k);
      case VideoPacket(dts, pts, finished) =>
        var o := Observation(dts, pts, finished);
        if !finished {
          DecodeBufferTracks(packets, from, landing, init, seeking, goal, framesToGo, avg, d, stamps, resumed, k, o);
        } else if seeking && d.firstPass && Step(d.info, o, avg).CurrentTimestamp > goal {
          DecodeReseekTracks(packets, from, landing, init, seeking, goal, framesToGo, avg, d, stamps, resumed, k, o);
        } else if (seeking && Step(d.info, o, avg).CurrentTimestamp >= goal) || (!seeking && d.framesDecoded + 1 >= framesToGo) {
          DecodeReaches(packets, from, landing, init, seeking, goal, framesToGo, avg, d, stamps, resumed, k, o);
        } else {
          DecodeCountTracks(packets, from, landing, init, seeking, goal, framesToGo, avg, d, stamps, resumed, k, o);
        }
    }
  }

  /**
   * ReadFrame's loop, started at packet `from` with reconciler state `init`,
   * keeps the promises of Decoded: its observations are the packets read,
   * the correction happens at most once and only on an overshoot, and it
   * stops exactly where StopsAt says.
   */
  lemma ReadFrameDecodes(packets: seq<PacketSource.Packet>, from: nat, landing: nat, init: TimestampInfo,
                         seeking: bool, goal: int, framesToGo: int, avg: int)
    requires from <= |packets| && landing <= |packets| && BufferedWellFormed(init) && (seeking <==> goal >= 0)
    ensures DecodedRun(packets, from, landing, init, seeking, goal, framesToGo, avg,
                       DecodeRun(packets, landing, seeking, goal, framesToGo, avg, StartDecoding(from, init)))
  {
    TrackStart(packets, from, landing, init, goal, avg);
    DecodeRunTracks(packets, from, landing, init, seeking, goal, framesToGo, avg, StartDecoding(from, init), [], init, from);
  }


  /** Why the import loop ended. */
  datatype ImportEnd = EndOfFile | Threw | Canceled | Reached

  /**
   * What ExtractToMemory decided before its loop: the strategy, the range
   * [`first`, `last`] to import, and the bounds of the selection before the
   * import.
   */
  datatype ImportPlan = ImportPlan(strategy: AnalysisWindow.ImportStrategy, first: int, last: int, oldStart: int, oldEnd: int)

  /**
   * The plan of a prepared selection: its strategy, its rewritten range, and
   * the first and last frames the selection kept (0 for a complete import
   * or an empty list).
   */
  function PlanOf(p: AnalysisWindow.Preparation): (plan: ImportPlan)
    ensures plan.strategy == p.strategy && plan.first == p.start && plan.last == p.end
    ensures p.strategy != AnalysisWindow.Complete && p.frames != [] ==>
              && plan.oldStart == p.frames[0] && plan.oldEnd == p.frames[|p.frames| - 1]
              && (StrictlyIncreasing(p.frames) ==> plan.oldStart <= plan.oldEnd)
    ensures p.strategy == AnalysisWindow.Complete || p.frames == [] ==> plan.oldStart == 0 && plan.oldEnd == 0
  {
    if p.strategy != AnalysisWindow.Complete && p.frames != [] then
      ImportPlan(p.strategy, p.start, p.end, p.frames[0], p.frames[|p.frames| - 1])
    else ImportPlan(p.strategy, p.start, p.end, 0, 0)
  }

  /** The state of the import loop: the decoding state, the frame list, and the frames counted for the selection. */
  datatype Importing = Importing(d: Decoding, frames: seq<int>, imported: seq<int>)

  /**
   * One turn of ExtractToMemory's loop from state `s`, which has a packet
   * left to read: the new state, and why the loop ends there, if it does.
   * Like Advance toward `first`, with the overshoot correction when `first`
   * >= 0; a completed picture at or after `first` is counted and placed in
   * the list by PlaceFrame. The loop ends when the list throws, when `cancel`
   * says cancellation is pending after a placed frame, or after a frame at or
   * after `last` when `last` > 0.
   */
  function ImportAdvance(packets: seq<PacketSource.Packet>, landing: nat, plan: ImportPlan, cancel: nat -> bool, avg: int,
                         s: Importing): (out: (Option<ImportEnd>, Importing))
    requires s.d.position < |packets| && landing <= |packets|
    ensures out.1.d.position <= |packets| && out.0 != Some(EndOfFile)
    ensures out.0.None? ==> Pass(plan.first >= 0, out.1.d) < Pass(plan.first >= 0, s.d)
                            || (Pass(plan.first >= 0, out.1.d) == Pass(plan.first >= 0, s.d) && out.1.d.position > s.d.position)
  {
    var d := s.d;
    match packets[d.position]
    case OtherStream => (None, s.(d := d.(position := d.position + 1)))
    case VideoPacket(dts, pts, finished) =>
      var o := Observation(dts, pts, finished);
      var next := Step(d.info, o, avg);
      if !finished then
        (None, s.(d := d.(position := d.position + 1, info := next, run := d.run + [o])))
      else if d.firstPass && next.CurrentTimestamp > plan.first && plan.first >= 0 then
        (None, s.(d := d.(position := landing, info := next, firstPass := false, reseeked := true, pre := d.run + [o], run := [])))
      else
        var ts := next.CurrentTimestamp;
        var e := d.(position := d.position + 1, info := next, firstPass := false, run := d.run + [o]);
        if ts < plan.first then (None, s.(d := e))
        else
          var n := d.framesDecoded + 1;
          var p := AnalysisWindow.PlaceFrame(plan.strategy, s.frames, ts, n, plan.oldStart, plan.oldEnd);
          var t := Importing(e.(framesDecoded := n), if p.Placed? then p.frames else s.frames, s.imported + [ts]);
          (if p.Failed? then Some(Threw)
           else if cancel(n) then Some(Canceled)
           else if plan.last > 0 && ts >= plan.last then Some(Reached)
           else None, t)
  }

  /**
   * ExtractToMemory's loop from state `s` to its end: why it ended and the
   * final state, ImportAdvance turn after turn, or the end of the packets.
   */
  function ImportRun(packets: seq<PacketSource.Packet>, landing: nat, plan: ImportPlan, cancel: nat -> bool, avg: int,
                     s: Importing): (out: (ImportEnd, Importing))
    requires s.d.position <= |packets| && landing <= |packets|
    ensures out.1.d.position <= |packets|
    ensures out.0 == EndOfFile ==> out.1.d.position == |packets|
    decreases Pass(plan.first >= 0, s.d), |packets| - s.d.position
  {
    if s.d.position == |packets| then (EndOfFile, s)
    else
      var (stop, t) := ImportAdvance(packets, landing, plan, cancel, avg, s);
      if stop.Some? then (stop.value, t) else ImportRun(packets, landing, plan, cancel, avg, t)
  }

  /** One turn of ImportRun: ImportAdvance, then the rest of the run unless the turn ended it. */
  lemma ImportRunTurn(packets: seq<PacketSource.Packet>, landing: nat, plan: ImportPlan, cancel: nat -> bool, avg: int, s: Importing)
    requires s.d.position < |packets| && landing <= |packets|
    ensures var (stop, t) := ImportAdvance(packets, landing, plan, cancel, avg, s);
            ImportRun(packets, landing, plan, cancel, avg, s)
            == if stop.Some? then (stop.value, t) else ImportRun(packets, landing, plan, cancel, avg, t)
  {
  }

  /** A packet of another stream is skipped. */
  lemma ImportRunSkips(packets: seq<PacketSource.Packet>, landing: nat, plan: ImportPlan, cancel: nat -> bool, avg: int, s: Importing)
    requires s.d.position < |packets| && landing <= |packets| && packets[s.d.position].OtherStream?
    ensures ImportRun(packets, landing, plan, cancel, avg, s)
         == ImportRun(packets, landing, plan, cancel, avg, s.(d := s.d.(position := s.d.position + 1)))
  {
  }

  /** A packet that completes no picture only feeds the reconciler. */
  lemma ImportRunBuffers(packets: seq<PacketSource.Packet>, landing: nat, plan: ImportPlan, cancel: nat -> bool, avg: int,
                         s: Importing, o: Observation)
    requires s.d.position < |packets| && landing <= |packets|
    requires packets[s.d.position] == PacketSource.VideoPacket(o.dts, o.pts, o.decoded) && !o.decoded
    ensures ImportRun(packets, landing, plan, cancel, avg, s)
         == ImportRun(packets, landing, plan, cancel, avg,
                      s.(d := s.d.(position := s.d.position + 1, info := Step(s.d.info, o, avg), run := s.d.run + [o])))
  {
  }

  /** The first picture after the seek, when it lies after `first`, sends the loop back to `landing`. */
  lemma ImportRunReseeks(packets: seq<PacketSource.Packet>, landing: nat, plan: ImportPlan, cancel: nat -> bool, avg: int,
                         s: Importing, o: Observation)
    requires s.d.position < |packets| && landing <= |packets|
    requires packets[s.d.position] == PacketSource.VideoPacket(o.dts, o.pts, o.decoded) && o.decoded
    requires s.d.firstPass && Step(s.d.info, o, avg).CurrentTimestamp > plan.first && plan.first >= 0
    ensures ImportRun(packets, landing, plan, cancel, avg, s)
         == ImportRun(packets, landing, plan, cancel, avg,
                      s.(d := s.d.(position := landing, info := Step(s.d.info, o, avg), firstPass := false, reseeked := true,
                                   pre := s.d.run + [o], run := [])))
  {
  }

  /** A picture before `first` is decoded and dropped. */
  lemma ImportRunDrops(packets: seq<PacketSource.Packet>, landing: nat, plan: ImportPlan, cancel: nat -> bool, avg: int,
                       s: Importing, o: Observation)
    requires s.d.position < |packets| && landing <= |packets|
    requires packets[s.d.position] == PacketSource.VideoPacket(o.dts, o.pts, o.decoded) && o.decoded
    requires !(s.d.firstPass && Step(s.d.info, o, avg).CurrentTimestamp > plan.first && plan.first >= 0)
    requires Step(s.d.info, o, avg).CurrentTimestamp < plan.first
    ensures ImportRun(packets, landing, plan, cancel, avg, s)
         == ImportRun(packets, landing, plan, cancel, avg,
                      s.(d := s.d.(position := s.d.position + 1, info := Step(s.d.info, o, avg), firstPass := false, run := s.d.run + [o])))
  {
  }

  /** The state after a picture at or after `first` is counted and placed in the list. */
  function Placed(plan: ImportPlan, s: Importing, o: Observation, avg: int): (t: Importing)
    ensures t.imported == s.imported + [Step(s.d.info, o, avg).CurrentTimestamp]
    ensures t.d.framesDecoded == s.d.framesDecoded + 1
  {
    var next := Step(s.d.info, o, avg);
    var n := s.d.framesDecoded + 1;
    var p := AnalysisWindow.PlaceFrame(plan.strategy, s.frames, next.CurrentTimestamp, n, plan.oldStart, plan.oldEnd);
    Importing(s.d.(position := s.d.position + 1, info := next, firstPass := false, framesDecoded := n, run := s.d.run + [o]),
              if p.Placed? then p.frames else s.frames, s.imported + [next.CurrentTimestamp])
  }

  /** A picture at or after `first` is placed; the loop ends there on a throw, on cancellation, or at `last`. */
  lemma ImportRunPlaces(packets: seq<PacketSource.Packet>, landing: nat, plan: ImportPlan, cancel: nat -> bool, avg: int,
                        s: Importing, o: Observation)
    requires s.d.position < |packets| && landing <= |packets|
    requires packets[s.d.position] == PacketSource.VideoPacket(o.dts, o.pts, o.decoded) && o.decoded
    requires !(s.d.firstPass && Step(s.d.info, o, avg).CurrentTimestamp > plan.first && plan.first >= 0)
    requires Step(s.d.info, o, avg).CurrentTimestamp >= plan.first
    ensures var ts := Step(s.d.info, o, avg).CurrentTimestamp;
            var n := s.d.framesDecoded + 1;
            var t := Placed(plan, s, o, avg);
            ImportRun(packets, landing, plan, cancel, avg, s)
            == if AnalysisWindow.PlaceFrame(plan.strategy, s.frames, ts, n, plan.oldStart, plan.oldEnd).Failed? then (Threw, t)
               else if cancel(n) then (Canceled, t)
               else if plan.last > 0 && ts >= plan.last then (Reached, t)
               else ImportRun(packets, landing, plan, cancel, avg, t)
  {
  }

  /**
   * What the import strategies promise about the frame list, given the list
   * before the import (`base`) and the frames counted so far: a complete
   * import holds exactly them; an insertion after the selection appends those
   * after its end; an insertion before it, while no counted frame but the
   * newest reached the selection, puts those before its start in front of it;
   * an unset strategy leaves the list alone.
   */
  ghost predicate ListHolds(strategy: AnalysisWindow.ImportStrategy, frames: seq<int>, base: seq<int>, imported: seq<int>,
                            oldStart: int, oldEnd: int) {
    && (strategy == AnalysisWindow.Complete ==> frames == imported)
    && (strategy == AnalysisWindow.InsertionAfter ==> frames == base + Later(imported, oldEnd))
    && (strategy == AnalysisWindow.InsertionBefore && (forall i :: 0 <= i < |imported| - 1 ==> imported[i] < oldStart) ==>
          frames == Earlier(imported, oldStart) + base)
    && (strategy == AnalysisWindow.Unset ==> frames == base)
  }

  /** An insertion before the selection keeps ListHolds, and throws only once a counted frame reached the selection. */
  lemma PlaceKeepsBefore(frames: seq<int>, base: seq<int>, imported: seq<int>, ts: int, oldStart: int, oldEnd: int)
    requires ListHolds(AnalysisWindow.InsertionBefore, frames, base, imported, oldStart, oldEnd)
    ensures var p := AnalysisWindow.PlaceFrame(AnalysisWindow.InsertionBefore, frames, ts, |imported| + 1, oldStart, oldEnd);
            && (p.Failed? ==> exists i :: 0 <= i < |imported| && imported[i] >= oldStart)
            && (p.Placed? ==> ListHolds(AnalysisWindow.InsertionBefore, p.frames, base, imported + [ts], oldStart, oldEnd))
  {
    EarlierAppend(imported, ts, oldStart);
    if forall i :: 0 <= i < |imported| ==> imported[i] < oldStart {
      assert forall i :: 0 <= i < |imported| - 1 ==> imported[i] < oldStart;
      assert frames == imported + base;
      if ts < oldStart {
        AnalysisWindow.InsertionBeforeBuildsPrefix(imported, base, ts, oldStart, oldEnd);
      }
    }
  }

  /**
   * Placing a frame keeps ListHolds, and it throws only for an insertion
   * before the selection once an earlier counted frame reached the selection.
   */
  lemma PlaceKeeps(strategy: AnalysisWindow.ImportStrategy, frames: seq<int>, base: seq<int>, imported: seq<int>,
                   ts: int, oldStart: int, oldEnd: int)
    requires ListHolds(strategy, frames, base, imported, oldStart, oldEnd)
    ensures var p := AnalysisWindow.PlaceFrame(strategy, frames, ts, |imported| + 1, oldStart, oldEnd);
            && (p.Failed? ==> strategy == AnalysisWindow.InsertionBefore && exists i :: 0 <= i < |imported| && imported[i] >= oldStart)
            && (p.Placed? ==> ListHolds(strategy, p.frames, base, imported + [ts], oldStart, oldEnd))
  {
    match strategy
    case InsertionBefore => PlaceKeepsBefore(frames, base, imported, ts, oldStart, oldEnd);
    case InsertionAfter => LaterAppend(imported, ts, oldEnd);
    case _ =>
  }

  /**
   * What ExtractToMemory's loop promises about its outcome when it started
   * at packet `from` with reconciler state `init` and the list `base`: as
   * Decoded for its observations, the frames it counted are the completed
   * pictures after the correction at or after `first`, it stopped for one of
   * the reasons of ImportStops, the list throws only for an insertion before
   * the selection, and the list is what the strategy promises.
   */
  ghost predicate Imports(packets: seq<PacketSource.Packet>, from: nat, landing: nat, init: TimestampInfo,
                          plan: ImportPlan, cancel: nat -> bool, avg: int, base: seq<int>, out: (ImportEnd, Importing)) {
    var s := out.1;
    var d := s.d;
    var resumed := Replay(init, d.pre, avg);
    && ReadFrom(packets, from, landing, d.position, d.pre, d.run, d.reseeked)
    && (plan.first >= 0 ==> Corrected(init, d.pre, d.run, plan.first, avg, d.reseeked))
    && (plan.first < 0 ==> !d.reseeked)
    && d.info == Replay(resumed, d.run, avg)
    && BufferedWellFormed(d.info)
    && s.imported == Later(Stamps(resumed, d.run, avg), plan.first - 1)
    && ImportStops(s.imported, plan.last, cancel, out.0 == Canceled, out.0 == Threw, d.position == |packets|)
    && (out.0 == Threw ==>
          plan.strategy == AnalysisWindow.InsertionBefore && exists i :: 0 <= i < |s.imported| - 1 && s.imported[i] >= plan.oldStart)
    && ListHolds(plan.strategy, s.frames, base, s.imported, plan.oldStart, plan.oldEnd)
  }

  /** Imports speaks of the loop's outcome only: it carries over to any state whose run has the same outcome. */
  lemma ImportsOutcome(packets: seq<PacketSource.Packet>, from: nat, landing: nat, init: TimestampInfo,
                       plan: ImportPlan, cancel: nat -> bool, avg: int, base: seq<int>, s: Importing, out: (ImportEnd, Importing))
    requires s.d.position <= |packets| && landing <= |packets|
    requires Imports(packets, from, landing, init, plan, cancel, avg, base, out)
    requires ImportRun(packets, landing, plan, cancel, avg, s) == out
    ensures Imports(packets, from, landing, init, plan, cancel, avg, base, ImportRun(packets, landing, plan, cancel, avg, s))
  {
  }

  /**
   * What the import loop keeps about the frames it counted (`imported`,
   * `framesDecoded` of them) when the pictures of its current run have
   * timestamps `stamps`: they are those at or after `first`, none of them
   * reached `last` or was followed by a pending cancellation, and the list is
   * what the strategy promises.
   */
  ghost predicate Counted(plan: ImportPlan, cancel: nat -> bool, base: seq<int>,
                          frames: seq<int>, imported: seq<int>, framesDecoded: nat, stamps: seq<int>) {
    && imported == Later(stamps, plan.first - 1) && framesDecoded == |imported|
    && (plan.last > 0 ==> forall i :: 0 <= i < |imported| ==> imported[i] < plan.last)
    && (forall n :: 1 <= n <= |imported| ==> !cancel(n))
    && ListHolds(plan.strategy, frames, base, imported, plan.oldStart, plan.oldEnd)
  }

  /** A state the import loop can reach: Tracking and Counted hold of it. */
  ghost predicate ImportResumable(packets: seq<PacketSource.Packet>, from: nat, landing: nat, init: TimestampInfo,
                                  plan: ImportPlan, cancel: nat -> bool, avg: int, base: seq<int>,
                                  s: Importing, stamps: seq<int>, resumed: TimestampInfo, k: nat) {
    && landing <= |packets|
    && Tracking(packets, from, landing, init, plan.first, avg, s.d.position, s.d.info, s.d.firstPass, s.d.pre, s.d.run,
                stamps, resumed, k, s.d.reseeked)
    && Counted(plan, cancel, base, s.frames, s.imported, s.d.framesDecoded, stamps)
  }


  /** At the end of the packets the import ends with EndOfFile, keeping the promises of Imports. */
  lemma ImportAtEnd(packets: seq<PacketSource.Packet>, from: nat, landing: nat, init: TimestampInfo,
                    plan: ImportPlan, cancel: nat -> bool, avg: int, base: seq<int>,
                    s: Importing, stamps: seq<int>, resumed: TimestampInfo, k: nat)
    requires ImportResumable(packets, from, landing, init, plan, cancel, avg, base, s, stamps, resumed, k) && s.d.position == |packets|
    ensures Imports(packets, from, landing, init, plan, cancel, avg, base, ImportRun(packets, landing, plan, cancel, avg, s))
  {
    var d := s.d;
    TrackingFacts(packets, from, landing, init, plan.first, avg, d.position, d.info, d.firstPass, d.pre, d.run, stamps, resumed, k, d.reseeked);
  }

  /** After a packet of another stream the import loop can go on. */
  lemma SkipResumes(packets: seq<PacketSource.Packet>, from: nat, landing: nat, init: TimestampInfo,
                    plan: ImportPlan, cancel: nat -> bool, avg: int, base: seq<int>,
                    s: Importing, stamps: seq<int>, resumed: TimestampInfo, k: nat)
    requires ImportResumable(packets, from, landing, init, plan, cancel, avg, base, s, stamps, resumed, k)
    requires s.d.position < |packets| && packets[s.d.position].OtherStream?
    ensures ImportResumable(packets, from, landing, init, plan, cancel, avg, base, s.(d := s.d.(position := s.d.position + 1)), stamps, resumed, k)
  {
    var d := s.d;
    TrackOther(packets, from, landing, init, plan.first, avg, d.position, d.info, d.firstPass, d.pre, d.run, stamps, resumed, k, d.reseeked,
               d.position + 1);
  }

  /** After a packet that completes no picture the import loop can go on. */
  lemma BufferResumes(packets: seq<PacketSource.Packet>, from: nat, landing: nat, init: TimestampInfo,
                    plan: ImportPlan, cancel: nat -> bool, avg: int, base: seq<int>,
                    s: Importing, stamps: seq<int>, resumed: TimestampInfo, k: nat, o: Observation)
    requires ImportResumable(packets, from, landing, init, plan, cancel, avg, base, s, stamps, resumed, k)
    requires s.d.position < |packets| && packets[s.d.position] == PacketSource.VideoPacket(o.dts, o.pts, o.decoded) && !o.decoded
    ensures ImportResumable(packets, from, landing, init, plan, cancel, avg, base, s.(d := s.d.(position := s.d.position + 1, info := Step(s.d.info, o, avg), run := s.d.run + [o])),
                            stamps, resumed, k)
  {
    var d := s.d;
    var t := s.(d := s.d.(position := s.d.position + 1, info := Step(s.d.info, o, avg), run := s.d.run + [o]));
    TrackObserve(packets, from, landing, init, plan.first, avg, d.position, d.info, d.firstPass, d.pre, d.run, stamps, resumed, k, d.reseeked,
                 o, d.position + 1, Step(d.info, o, avg), d.firstPass, d.run + [o], stamps);
    assert t.frames == s.frames && t.imported == s.imported && t.d.framesDecoded == d.framesDecoded;
  }

  /** After the seek back that corrects an overshoot the import loop can go on, with nothing counted yet. */
  lemma ReseekResumes(packets: seq<PacketSource.Packet>, from: nat, landing: nat, init: TimestampInfo,
                    plan: ImportPlan, cancel: nat -> bool, avg: int, base: seq<int>,
                    s: Importing, stamps: seq<int>, resumed: TimestampInfo, k: nat, o: Observation)
    requires ImportResumable(packets, from, landing, init, plan, cancel, avg, base, s, stamps, resumed, k)
    requires s.d.position < |packets| && packets[s.d.position] == PacketSource.VideoPacket(o.dts, o.pts, o.decoded) && o.decoded
    requires s.d.firstPass && Step(s.d.info, o, avg).CurrentTimestamp > plan.first && plan.first >= 0
    ensures ImportResumable(packets, from, landing, init, plan, cancel, avg, base, s.(d := s.d.(position := landing, info := Step(s.d.info, o, avg), firstPass := false, reseeked := true,
                                                pre := s.d.run + [o], run := [])),
                            [], Step(s.d.info, o, avg), s.d.position + 1)
  {
    var d := s.d;
    TrackReseek(packets, from, landing, init, plan.first, avg, d.position, d.info, d.firstPass, d.pre, d.run, stamps, resumed, k, d.reseeked,
                o, Step(d.info, o, avg), d.run + [o], d.position + 1);
  }

  /** A picture before `first` is not counted. */
  lemma CountedDrop(plan: ImportPlan, cancel: nat -> bool, base: seq<int>,
                    frames: seq<int>, imported: seq<int>, framesDecoded: nat, stamps: seq<int>, ts: int)
    requires Counted(plan, cancel, base, frames, imported, framesDecoded, stamps) && ts < plan.first
    ensures Counted(plan, cancel, base, frames, imported, framesDecoded, stamps + [ts])
  {
    LaterAppend(stamps, ts, plan.first - 1);
  }

  /**
   * A picture at or after `first` is counted and placed: the list throws
   * only for an insertion before the selection once an earlier counted frame
   * reached the selection, and ListHolds is kept.
   */
  lemma CountedPlace(plan: ImportPlan, cancel: nat -> bool, base: seq<int>,
                     frames: seq<int>, imported: seq<int>, framesDecoded: nat, stamps: seq<int>, ts: int)
    requires Counted(plan, cancel, base, frames, imported, framesDecoded, stamps) && ts >= plan.first
    ensures var p := AnalysisWindow.PlaceFrame(plan.strategy, frames, ts, framesDecoded + 1, plan.oldStart, plan.oldEnd);
            var imported' := imported + [ts];
            && imported' == Later(stamps + [ts], plan.first - 1) && framesDecoded + 1 == |imported'|
            && (plan.last > 0 ==> forall i :: 0 <= i < |imported'| - 1 ==> imported'[i] < plan.last)
            && (forall n :: 1 <= n < |imported'| ==> !cancel(n))
            && (p.Failed? ==> plan.strategy == AnalysisWindow.InsertionBefore
                              && exists i :: 0 <= i < |imported'| - 1 && imported'[i] >= plan.oldStart)
            && ListHolds(plan.strategy, if p.Placed? then p.frames else frames, base, imported', plan.oldStart, plan.oldEnd)
  {
    LaterAppend(stamps, ts, plan.first - 1);
    PlaceKeeps(plan.strategy, frames, base, imported, ts, plan.oldStart, plan.oldEnd);
    var imported' := imported + [ts];
    assert forall i :: 0 <= i < |imported| ==> imported'[i] == imported[i];
  }

  /** A placed picture that neither reaches `last` nor is followed by a pending cancellation keeps Counted. */
  lemma CountedGoesOn(plan: ImportPlan, cancel: nat -> bool, base: seq<int>,
                      frames: seq<int>, imported: seq<int>, framesDecoded: nat, stamps: seq<int>, ts: int)
    requires Counted(plan, cancel, base, frames, imported, framesDecoded, stamps) && ts >= plan.first
    requires AnalysisWindow.PlaceFrame(plan.strategy, frames, ts, framesDecoded + 1, plan.oldStart, plan.oldEnd).Placed?
    requires !cancel(framesDecoded + 1) && !(plan.last > 0 && ts >= plan.last)
    ensures Counted(plan, cancel, base, AnalysisWindow.PlaceFrame(plan.strategy, frames, ts, framesDecoded + 1, plan.oldStart, plan.oldEnd).frames,
                    imported + [ts], framesDecoded + 1, stamps + [ts])
  {
    CountedPlace(plan, cancel, base, frames, imported, framesDecoded, stamps, ts);
  }


  /** A picture before `first` is observed: the state after it tracks the packets. */
  lemma DropTracking(packets: seq<PacketSource.Packet>, from: nat, landing: nat, init: TimestampInfo,
                      plan: ImportPlan, cancel: nat -> bool, avg: int, base: seq<int>,
                      s: Importing, stamps: seq<int>, resumed: TimestampInfo, k: nat, o: Observation)
    requires Tracking(packets, from, landing, init, plan.first, avg, s.d.position, s.d.info, s.d.firstPass, s.d.pre, s.d.run,
                      stamps, resumed, k, s.d.reseeked)
    requires s.d.position < |packets| && packets[s.d.position] == PacketSource.VideoPacket(o.dts, o.pts, o.decoded) && o.decoded
    requires !(s.d.firstPass && Step(s.d.info, o, avg).CurrentTimestamp > plan.first && plan.first >= 0)
    ensures var t := s.(d := s.d.(position := s.d.position + 1, info := Step(s.d.info, o, avg), firstPass := false, run := s.d.run + [o]));
            Tracking(packets, from, landing, init, plan.first, avg, t.d.position, t.d.info, t.d.firstPass, t.d.pre, t.d.run,
                     stamps + [Step(s.d.info, o, avg).CurrentTimestamp], resumed, k, t.d.reseeked)
  {
    var d := s.d;
    var next := Step(d.info, o, avg);
    TrackObserve(packets, from, landing, init, plan.first, avg, d.position, d.info, d.firstPass, d.pre, d.run, stamps, resumed, k, d.reseeked,
                 o, d.position + 1, next, false, d.run + [o], stamps + [next.CurrentTimestamp]);
  }

  /** After a picture before `first` the import loop can go on, having counted nothing more. */
  lemma DropResumes(packets: seq<PacketSource.Packet>, from: nat, landing: nat, init: TimestampInfo,
                    plan: ImportPlan, cancel: nat -> bool, avg: int, base: seq<int>,
                    s: Importing, stamps: seq<int>, resumed: TimestampInfo, k: nat, o: Observation)
    requires ImportResumable(packets, from, landing, init, plan, cancel, avg, base, s, stamps, resumed, k)
    requires s.d.position < |packets| && packets[s.d.position] == PacketSource.VideoPacket(o.dts, o.pts, o.decoded) && o.decoded
    requires !(s.d.firstPass && Step(s.d.info, o, avg).CurrentTimestamp > plan.first && plan.first >= 0)
    requires Step(s.d.info, o, avg).CurrentTimestamp < plan.first
    ensures ImportResumable(packets, from, landing, init, plan, cancel, avg, base, s.(d := s.d.(position := s.d.position + 1, info := Step(s.d.info, o, avg), firstPass := false,
                                                run := s.d.run + [o])),
                            stamps + [Step(s.d.info, o, avg).CurrentTimestamp], resumed, k)
  {
    var d := s.d;
    var next := Step(d.info, o, avg);
    DropTracking(packets, from, landing, init, plan, cancel, avg, base, s, stamps, resumed, k, o);
    CountedDrop(plan, cancel, base, s.frames, s.imported, d.framesDecoded, stamps, next.CurrentTimestamp);
  }

  /** A placed picture is observed: the state after it tracks the packets. */
  lemma PlaceTracks(packets: seq<PacketSource.Packet>, from: nat, landing: nat, init: TimestampInfo,
                    plan: ImportPlan, cancel: nat -> bool, avg: int, base: seq<int>,
                    s: Importing, stamps: seq<int>, resumed: TimestampInfo, k: nat, o: Observation)
    requires Tracking(packets, from, landing, init, plan.first, avg, s.d.position, s.d.info, s.d.firstPass, s.d.pre, s.d.run,
                      stamps, resumed, k, s.d.reseeked)
    requires s.d.position < |packets| && packets[s.d.position] == PacketSource.VideoPacket(o.dts, o.pts, o.decoded) && o.decoded
    requires !(s.d.firstPass && Step(s.d.info, o, avg).CurrentTimestamp > plan.first && plan.first >= 0)
    ensures var t := Placed(plan, s, o, avg);
            Tracking(packets, from, landing, init, plan.first, avg, t.d.position, t.d.info, t.d.firstPass, t.d.pre, t.d.run,
                     stamps + [Step(s.d.info, o, avg).CurrentTimestamp], resumed, k, t.d.reseeked)
  {
    var d := s.d;
    var next := Step(d.info, o, avg);
    TrackObserve(packets, from, landing, init, plan.first, avg, d.position, d.info, d.firstPass, d.pre, d.run, stamps, resumed, k, d.reseeked,
                 o, d.position + 1, next, false, d.run + [o], stamps + [next.CurrentTimestamp]);
  }

  /** The loop ending on a placed picture, for one of the reasons of ImportStops, keeps the promises of Imports. */
  lemma ImportEnds(packets: seq<PacketSource.Packet>, from: nat, landing: nat, init: TimestampInfo,
                   plan: ImportPlan, cancel: nat -> bool, avg: int, base: seq<int>,
                   stop: ImportEnd, t: Importing, stamps: seq<int>, resumed: TimestampInfo, k: nat)
    requires Tracking(packets, from, landing, init, plan.first, avg, t.d.position, t.d.info, t.d.firstPass, t.d.pre, t.d.run,
                      stamps, resumed, k, t.d.reseeked)
    requires t.imported == Later(stamps, plan.first - 1) && t.imported != []
    requires plan.last > 0 ==> forall i :: 0 <= i < |t.imported| - 1 ==> t.imported[i] < plan.last
    requires forall n :: 1 <= n < |t.imported| ==> !cancel(n)
    requires stop != EndOfFile
    requires stop == Threw ==>
               plan.strategy == AnalysisWindow.InsertionBefore && exists i :: 0 <= i < |t.imported| - 1 && t.imported[i] >= plan.oldStart
    requires stop == Canceled ==> cancel(|t.imported|)
    requires stop == Reached ==> !cancel(|t.imported|) && plan.last > 0 && t.imported[|t.imported| - 1] >= plan.last
    requires ListHolds(plan.strategy, t.frames, base, t.imported, plan.oldStart, plan.oldEnd)
    ensures Imports(packets, from, landing, init, plan, cancel, avg, base, (stop, t))
  {
    TrackingFacts(packets, from, landing, init, plan.first, avg, t.d.position, t.d.info, t.d.firstPass, t.d.pre, t.d.run,
                  stamps, resumed, k, t.d.reseeked);
  }

  /** Skipping a packet of another stream keeps the promises of Imports. */
  lemma {:induction false} ImportSkipTracks(packets: seq<PacketSource.Packet>, from: nat, landing: nat, init: TimestampInfo,
                    plan: ImportPlan, cancel: nat -> bool, avg: int, base: seq<int>,
                    s: Importing, stamps: seq<int>, resumed: TimestampInfo, k: nat)
    requires ImportResumable(packets, from, landing, init, plan, cancel, avg, base, s, stamps, resumed, k)
    requires s.d.position < |packets| && packets[s.d.position].OtherStream?
    ensures Imports(packets, from, landing, init, plan, cancel, avg, base, ImportRun(packets, landing, plan, cancel, avg, s))
    decreases Pass(plan.first >= 0, s.d), |packets| - s.d.position, 0
  {
    var t := s.(d := s.d.(position := s.d.position + 1));
    SkipResumes(packets, from, landing, init, plan, cancel, avg, base, s, stamps, resumed, k);
    ImportRunTracks(packets, from, landing, init, plan, cancel, avg, base, t, stamps, resumed, k);
    ImportRunSkips(packets, landing, plan, cancel, avg, s);
    ImportsOutcome(packets, from, landing, init, plan, cancel, avg, base, s, ImportRun(packets, landing, plan, cancel, avg, t));
  }

  /** Feeding a packet that completes no picture keeps the promises of Imports. */
  lemma {:induction false} ImportBufferTracks(packets: seq<PacketSource.Packet>, from: nat, landing: nat, init: TimestampInfo,
                    plan: ImportPlan, cancel: nat -> bool, avg: int, base: seq<int>,
                    s: Importing, stamps: seq<int>, resumed: TimestampInfo, k: nat, o: Observation)
    requires ImportResumable(packets, from, landing, init, plan, cancel, avg, base, s, stamps, resumed, k)
    requires s.d.position < |packets| && packets[s.d.position] == PacketSource.VideoPacket(o.dts, o.pts, o.decoded) && !o.decoded
    ensures Imports(packets, from, landing, init, plan, cancel, avg, base, ImportRun(packets, landing, plan, cancel, avg, s))
    decreases Pass(plan.first >= 0, s.d), |packets| - s.d.position, 0
  {
    var t := s.(d := s.d.(position := s.d.position + 1, info := Step(s.d.info, o, avg), run := s.d.run + [o]));
    BufferResumes(packets, from, landing, init, plan, cancel, avg, base, s, stamps, resumed, k, o);
    ImportRunTracks(packets, from, landing, init, plan, cancel, avg, base, t, stamps, resumed, k);
    ImportRunBuffers(packets, landing, plan, cancel, avg, s, o);
    ImportsOutcome(packets, from, landing, init, plan, cancel, avg, base, s, ImportRun(packets, landing, plan, cancel, avg, t));
  }

  /** Seeking back after an overshoot keeps the promises of Imports. */
  lemma {:induction false} ImportReseekTracks(packets: seq<PacketSource.Packet>, from: nat, landing: nat, init: TimestampInfo,
                    plan: ImportPlan, cancel: nat -> bool, avg: int, base: seq<int>,
                    s: Importing, stamps: seq<int>, resumed: TimestampInfo, k: nat, o: Observation)
    requires ImportResumable(packets, from, landing, init, plan, cancel, avg, base, s, stamps, resumed, k)
    requires s.d.position < |packets| && packets[s.d.position] == PacketSource.VideoPacket(o.dts, o.pts, o.decoded) && o.decoded
    requires s.d.firstPass && Step(s.d.info, o, avg).CurrentTimestamp > plan.first && plan.first >= 0
    ensures Imports(packets, from, landing, init, plan, cancel, avg, base, ImportRun(packets, landing, plan, cancel, avg, s))
    decreases Pass(plan.first >= 0, s.d), |packets| - s.d.position, 0
  {
    var t := s.(d := s.d.(position := landing, info := Step(s.d.info, o, avg), firstPass := false, reseeked := true,
                          pre := s.d.run + [o], run := []));
    ReseekResumes(packets, from, landing, init, plan, cancel, avg, base, s, stamps, resumed, k, o);
    ImportRunTracks(packets, from, landing, init, plan, cancel, avg, base, t, [], Step(s.d.info, o, avg), s.d.position + 1);
    ImportRunReseeks(packets, landing, plan, cancel, avg, s, o);
    ImportsOutcome(packets, from, landing, init, plan, cancel, avg, base, s, ImportRun(packets, landing, plan, cancel, avg, t));
  }

  /** Dropping a picture before `first` keeps the promises of Imports. */
  lemma {:induction false} ImportDropTracks(packets: seq<PacketSource.Packet>, from: nat, landing: nat, init: TimestampInfo,
                    plan: ImportPlan, cancel: nat -> bool, avg: int, base: seq<int>,
                    s: Importing, stamps: seq<int>, resumed: TimestampInfo, k: nat, o: Observation)
    requires ImportResumable(packets, from, landing, init, plan, cancel, avg, base, s, stamps, resumed, k)
    requires s.d.position < |packets| && packets[s.d.position] == PacketSource.VideoPacket(o.dts, o.pts, o.decoded) && o.decoded
    requires !(s.d.firstPass && Step(s.d.info, o, avg).CurrentTimestamp > plan.first && plan.first >= 0)
    requires Step(s.d.info, o, avg).CurrentTimestamp < plan.first
    ensures Imports(packets, from, landing, init, plan, cancel, avg, base, ImportRun(packets, landing, plan, cancel, avg, s))
    decreases Pass(plan.first >= 0, s.d), |packets| - s.d.position, 0
  {
    var t := s.(d := s.d.(position := s.d.position + 1, info := Step(s.d.info, o, avg), firstPass := false, run := s.d.run + [o]));
    DropResumes(packets, from, landing, init, plan, cancel, avg, base, s, stamps, resumed, k, o);
    ImportRunTracks(packets, from, landing, init, plan, cancel, avg, base, t, stamps + [Step(s.d.info, o, avg).CurrentTimestamp], resumed, k);
    ImportRunDrops(packets, landing, plan, cancel, avg, s, o);
    ImportsOutcome(packets, from, landing, init, plan, cancel, avg, base, s, ImportRun(packets, landing, plan, cancel, avg, t));
  }

  /** Placing a picture at or after `first` keeps the promises of Imports, whether the loop ends there or goes on. */
  lemma {:induction false} ImportPlaceTracks(packets: seq<PacketSource.Packet>, from: nat, landing: nat, init: TimestampInfo,
                    plan: ImportPlan, cancel: nat -> bool, avg: int, base: seq<int>,
                    s: Importing, stamps: seq<int>, resumed: TimestampInfo, k: nat, o: Observation)
    requires ImportResumable(packets, from, landing, init, plan, cancel, avg, base, s, stamps, resumed, k)
    requires s.d.position < |packets| && packets[s.d.position] == PacketSource.VideoPacket(o.dts, o.pts, o.decoded) && o.decoded
    requires !(s.d.firstPass && Step(s.d.info, o, avg).CurrentTimestamp > plan.first && plan.first >= 0)
    requires Step(s.d.info, o, avg).CurrentTimestamp >= plan.first
    ensures Imports(packets, from, landing, init, plan, cancel, avg, base, ImportRun(packets, landing, plan, cancel, avg, s))
    decreases Pass(plan.first >= 0, s.d), |packets| - s.d.position, 1
  {
    var ts := Step(s.d.info, o, avg).CurrentTimestamp;
    var n := s.d.framesDecoded + 1;
    var failed := AnalysisWindow.PlaceFrame(plan.strategy, s.frames, ts, n, plan.oldStart, plan.oldEnd).Failed?;
    if failed || cancel(n) || (plan.last > 0 && ts >= plan.last) {
      ImportPlaceEnds(packets, from, landing, init, plan, cancel, avg, base, s, stamps, resumed, k, o);
    } else {
      ImportPlaceGoesOn(packets, from, landing, init, plan, cancel, avg, base, s, stamps, resumed, k, o);
    }
  }

  /** A placed picture that ends the loop (a throw, a cancellation, or `last` reached) keeps the promises of Imports. */
  lemma ImportPlaceEnds(packets: seq<PacketSource.Packet>, from: nat, landing: nat, init: TimestampInfo,
                        plan: ImportPlan, cancel: nat -> bool, avg: int, base: seq<int>,
                        s: Importing, stamps: seq<int>, resumed: TimestampInfo, k: nat, o: Observation)
    requires ImportResumable(packets, from, landing, init, plan, cancel, avg, base, s, stamps, resumed, k)
    requires s.d.position < |packets| && packets[s.d.position] == PacketSource.VideoPacket(o.dts, o.pts, o.decoded) && o.decoded
    requires !(s.d.firstPass && Step(s.d.info, o, avg).CurrentTimestamp > plan.first && plan.first >= 0)
    requires Step(s.d.info, o, avg).CurrentTimestamp >= plan.first
    requires var ts := Step(s.d.info, o, avg).CurrentTimestamp;
             var n := s.d.framesDecoded + 1;
             AnalysisWindow.PlaceFrame(plan.strategy, s.frames, ts, n, plan.oldStart, plan.oldEnd).Failed?
             || cancel(n) || (plan.last > 0 && ts >= plan.last)
    ensures Imports(packets, from, landing, init, plan, cancel, avg, base, ImportRun(packets, landing, plan, cancel, avg, s))
  {
    var ts := Step(s.d.info, o, avg).CurrentTimestamp;
    var n := s.d.framesDecoded + 1;
    var t := Placed(plan, s, o, avg);
    var failed := AnalysisWindow.PlaceFrame(plan.strategy, s.frames, ts, n, plan.oldStart, plan.oldEnd).Failed?;
    var stop := if failed then Threw else if cancel(n) then Canceled else Reached;
    PlaceTracks(packets, from, landing, init, plan, cancel, avg, base, s, stamps, resumed, k, o);
    PlaceStops(plan, cancel, base, s, stamps, o, avg, stop);
    ImportEnds(packets, from, landing, init, plan, cancel, avg, base, stop, t, stamps + [ts], resumed, k);
    ImportRunPlaces(packets, landing, plan, cancel, avg, s, o);
    ImportsOutcome(packets, from, landing, init, plan, cancel, avg, base, s, (stop, t));
  }

  /** The counted frames after a placed picture that ends the loop meet what ImportEnds asks of them. */
  lemma PlaceStops(plan: ImportPlan, cancel: nat -> bool, base: seq<int>, s: Importing, stamps: seq<int>, o: Observation, avg: int,
                   stop: ImportEnd)
    requires Counted(plan, cancel, base, s.frames, s.imported, s.d.framesDecoded, stamps)
    requires Step(s.d.info, o, avg).CurrentTimestamp >= plan.first
    requires var ts := Step(s.d.info, o, avg).CurrentTimestamp;
             var n := s.d.framesDecoded + 1;
             var failed := AnalysisWindow.PlaceFrame(plan.strategy, s.frames, ts, n, plan.oldStart, plan.oldEnd).Failed?;
             stop == if failed then Threw else if cancel(n) then Canceled else if plan.last > 0 && ts >= plan.last then Reached else EndOfFile
    requires stop != EndOfFile
    ensures var t := Placed(plan, s, o, avg);
            && t.imported == Later(stamps + [Step(s.d.info, o, avg).CurrentTimestamp], plan.first - 1) && t.imported != []
            && (plan.last > 0 ==> forall i :: 0 <= i < |t.imported| - 1 ==> t.imported[i] < plan.last)
            && (forall n :: 1 <= n < |t.imported| ==> !cancel(n))
            && (stop == Threw ==>
                  plan.strategy == AnalysisWindow.InsertionBefore && exists i :: 0 <= i < |t.imported| - 1 && t.imported[i] >= plan.oldStart)
            && (stop == Canceled ==> cancel(|t.imported|))
            && (stop == Reached ==> !cancel(|t.imported|) && plan.last > 0 && t.imported[|t.imported| - 1] >= plan.last)
            && ListHolds(plan.strategy, t.frames, base, t.imported, plan.oldStart, plan.oldEnd)
  {
    CountedPlace(plan, cancel, base, s.frames, s.imported, s.d.framesDecoded, stamps, Step(s.d.info, o, avg).CurrentTimestamp);
  }

  /** A placed picture after which the loop goes on keeps the promises of Imports. */
  lemma {:induction false} ImportPlaceGoesOn(packets: seq<PacketSource.Packet>, from: nat, landing: nat, init: TimestampInfo,
                    plan: ImportPlan, cancel: nat -> bool, avg: int, base: seq<int>,
                    s: Importing, stamps: seq<int>, resumed: TimestampInfo, k: nat, o: Observation)
    requires ImportResumable(packets, from, landing, init, plan, cancel, avg, base, s, stamps, resumed, k)
    requires s.d.position < |packets| && packets[s.d.position] == PacketSource.VideoPacket(o.dts, o.pts, o.decoded) && o.decoded
    requires !(s.d.firstPass && Step(s.d.info, o, avg).CurrentTimestamp > plan.first && plan.first >= 0)
    requires Step(s.d.info, o, avg).CurrentTimestamp >= plan.first
    requires var ts := Step(s.d.info, o, avg).CurrentTimestamp;
             var n := s.d.framesDecoded + 1;
             !(AnalysisWindow.PlaceFrame(plan.strategy, s.frames, ts, n, plan.oldStart, plan.oldEnd).Failed?
               || cancel(n) || (plan.last > 0 && ts >= plan.last))
    ensures Imports(packets, from, landing, init, plan, cancel, avg, base, ImportRun(packets, landing, plan, cancel, avg, s))
    decreases Pass(plan.first >= 0, s.d), |packets| - s.d.position, 0
  {
    var ts := Step(s.d.info, o, avg).CurrentTimestamp;
    var t := Placed(plan, s, o, avg);
    PlaceTracks(packets, from, landing, init, plan, cancel, avg, base, s, stamps, resumed, k, o);
    CountedGoesOn(plan, cancel, base, s.frames, s.imported, s.d.framesDecoded, stamps, ts);
    assert ImportResumable(packets, from, landing, init, plan, cancel, avg, base, t, stamps + [ts], resumed, k);
    ImportRunTracks(packets, from, landing, init, plan, cancel, avg, base, t, stamps + [ts], resumed, k);
    ImportRunPlaces(packets, landing, plan, cancel, avg, s, o);
    ImportsOutcome(packets, from, landing, init, plan, cancel, avg, base, s, ImportRun(packets, landing, plan, cancel, avg, t));
  }

  /** ImportRun from any state the loop can reach keeps the promises of Imports. */
  lemma {:induction false} ImportRunTracks(packets: seq<PacketSource.Packet>, from: nat, landing: nat, init: TimestampInfo,
                                           plan: ImportPlan, cancel: nat -> bool, avg: int, base: seq<int>,
                                           s: Importing, stamps: seq<int>, resumed: TimestampInfo, k: nat)
    requires ImportResumable(packets, from, landing, init, plan, cancel, avg, base, s, stamps, resumed, k)
    ensures Imports(packets, from, landing, init, plan, cancel, avg, base, ImportRun(packets, landing, plan, cancel, avg, s))
    decreases Pass(plan.first >= 0, s.d), |packets| - s.d.position, 2
  {
    if s.d.position == |packets| {
      ImportAtEnd(packets, from, landing, init, plan, cancel, avg, base, s, stamps, resumed, k);
    } else {
      match packets[s.d.position]
      case OtherStream =>
        ImportSkipTracks(packets, from, landing, init, plan, cancel, avg, base, s, stamps, resumed, k);
      case VideoPacket(dts, pts, finished) =>
        var o := Observation(dts, pts, finished);
        var ts := Step(s.d.info, o, avg).CurrentTimestamp;
        if !finished {
          ImportBufferTracks(packets, from, landing, init, plan, cancel, avg, base, s, stamps, resumed, k, o);
        } else if s.d.firstPass && ts > plan.first && plan.first >= 0 {
          ImportReseekTracks(packets, from, landing, init, plan, cancel, avg, base, s, stamps, resumed, k, o);
        } else if ts < plan.first {
          ImportDropTracks(packets, from, landing, init, plan, cancel, avg, base, s, stamps, resumed, k, o);
        } else {
          ImportPlaceTracks(packets, from, landing, init, plan, cancel, avg, base, s, stamps, resumed, k, o);
        }
    }
  }

  /**
   * ExtractToMemory's loop, started at packet `from` with reconciler state
   * `init` and the list `base` (empty for a complete import), keeps the
   * promises of Imports.
   */
  lemma ImportFramesImports(packets: seq<PacketSource.Packet>, from: nat, landing: nat, init: TimestampInfo,
                            plan: ImportPlan, cancel: nat -> bool, avg: int, base: seq<int>)
    requires from <= |packets| && landing <= |packets| && BufferedWellFormed(init)
    requires plan.strategy == AnalysisWindow.Complete ==> base == []
    ensures Imports(packets, from, landing, init, plan, cancel, avg, base,
                    ImportRun(packets, landing, plan, cancel, avg, Importing(StartDecoding(from, init), base, [])))
  {
    TrackStart(packets, from, landing, init, plan.first, avg);
    ImportRunTracks(packets, from, landing, init, plan, cancel, avg, base, Importing(StartDecoding(from, init), base, []), [], init, from);
  }
}
