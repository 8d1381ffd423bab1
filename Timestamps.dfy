/**
 * The timestamp reconciler of VideoReaderFFMpeg (`SetTimestampFromPacket`).
 *
 * libav reports, with every packet it reads, the decoding and presentation
 * timestamps of that packet; the picture the decoder hands back may however
 * be an older one it kept for B-frame reordering. The reconciler keeps one
 * "pending" (buffered) timestamp to compensate, and derives from each
 * observation the presentation time of the picture just completed.
 */
module Timestamps {
  import opened Numerics

  /** AV_NOPTS_VALUE: libav's "no timestamp" marker. */
  const NoPtsValue: int := Int64Min
  /** The "nothing buffered" sentinel of BufferedPTS. */
  const Unset: int := Int64Max

  datatype TimestampInfo = TimestampInfo(CurrentTimestamp: int, LastDecodedPTS: int, BufferedPTS: int)

  /** State after open, after every seek of ReadFrame, and after close: nothing decoded, nothing buffered. */
  const EmptyTimestampInfo := TimestampInfo(-1, -1, Unset)

  /** What ReadFrame reports for one video packet: its dts and pts, and whether a picture was completed. */
  datatype Observation = Observation(dts: int, pts: int, decoded: bool)

  /** A timestamp libav reported and that the reconciler accepts (AV_NOPTS_VALUE is negative). */
  predicate Usable(t: int) { t != NoPtsValue && t >= 0 }

  /** The pending timestamp is either unset or a usable timestamp. */
  predicate BufferedWellFormed(info: TimestampInfo) {
    info.BufferedPTS == Unset || info.BufferedPTS >= 0
  }

  predicate HasPending(info: TimestampInfo) { info.BufferedPTS < Unset }

  /**
   * One observation: `dts`, `pts` of the packet just read, `decoded` when the
   * decoder completed a picture (otherwise it only buffered the packet).
   */
  function SetTimestampFromPacket(info: TimestampInfo, dts: int, pts: int, decoded: bool, averageTimeStampsPerFrame: int): (r: TimestampInfo)
    ensures !decoded ==> r.CurrentTimestamp == info.CurrentTimestamp && r.LastDecodedPTS == info.LastDecodedPTS
    ensures decoded ==> r.LastDecodedPTS == r.CurrentTimestamp
    ensures BufferedWellFormed(info) ==> BufferedWellFormed(r)
    ensures decoded && BufferedWellFormed(info) && averageTimeStampsPerFrame >= 0 ==> r.CurrentTimestamp >= 0
  {
    if pts == NoPtsValue || pts < 0 then
      if decoded then
        var (current, buffered) :=
          if dts == NoPtsValue || dts < 0 then
            if info.BufferedPTS < Unset then (info.BufferedPTS, Unset)
            else if info.LastDecodedPTS >= 0 then (info.LastDecodedPTS + averageTimeStampsPerFrame, info.BufferedPTS)
            else (0, info.BufferedPTS)
          else if info.BufferedPTS < dts then (info.BufferedPTS, dts)
          else (Max(0, dts), info.BufferedPTS);
        TimestampInfo(current, current, buffered)
      else if dts < 0 then info.(BufferedPTS := Unset)
      else if dts == NoPtsValue then info.(BufferedPTS := 0)
      else info.(BufferedPTS := dts)
    else if decoded then
      if info.BufferedPTS < pts then TimestampInfo(info.BufferedPTS, info.BufferedPTS, pts)
      else TimestampInfo(pts, pts, info.BufferedPTS)
    else info.(BufferedPTS := pts)
  }

  /**
   * A completed picture whose packet carries a usable timestamp `t` (its pts,
   * or its dts when the pts is missing) gets the earlier of `t` and the
   * pending timestamp; the later of the two stays pending.
   */
  lemma DecodedWithTimestamp(info: TimestampInfo, dts: int, pts: int, avg: int)
    requires Usable(pts) || Usable(dts)
    ensures var t := if Usable(pts) then pts else dts;
            var r := SetTimestampFromPacket(info, dts, pts, true, avg);
            && r.CurrentTimestamp == Min(info.BufferedPTS, t)
            && r.BufferedPTS == Max(info.BufferedPTS, t)
            && r.LastDecodedPTS == r.CurrentTimestamp
  {
  }

  /**
   * A completed picture whose packet carries neither a usable pts nor a usable
   * dts takes the pending timestamp (which is consumed), else extrapolates one
   * frame after the last decoded picture, else is the first picture, at 0.
   */
  lemma DecodedWithoutTimestamp(info: TimestampInfo, dts: int, pts: int, avg: int)
    requires !Usable(pts) && !Usable(dts)
    ensures var r := SetTimestampFromPacket(info, dts, pts, true, avg);
            && (HasPending(info) ==> r.CurrentTimestamp == info.BufferedPTS && r.BufferedPTS == Unset)
            && (!HasPending(info) && info.LastDecodedPTS >= 0 ==>
                  r.CurrentTimestamp == info.LastDecodedPTS + avg && r.BufferedPTS == info.BufferedPTS)
            && (!HasPending(info) && info.LastDecodedPTS < 0 ==>
                  r.CurrentTimestamp == 0 && r.BufferedPTS == info.BufferedPTS)
            && r.LastDecodedPTS == r.CurrentTimestamp
  {
  }

  /**
   * A packet the decoder only buffered changes nothing but the pending
   * timestamp, which becomes its pts, else its dts, else unset. In
   * particular the `BufferedPTS = 0` branch for a missing dts can never be
   * taken, because AV_NOPTS_VALUE is negative and is caught by `dts < 0`.
   */
  lemma Buffering(info: TimestampInfo, dts: int, pts: int, avg: int)
    ensures SetTimestampFromPacket(info, dts, pts, false, avg)
            == info.(BufferedPTS := if Usable(pts) then pts else if Usable(dts) then dts else Unset)
  {
  }

  /**
   * A decoded picture never gets a later timestamp than the one left pending,
   * as long as an extrapolated timestamp stays below the sentinel.
   */
  lemma DecodedNotAfterPending(info: TimestampInfo, dts: int, pts: int, avg: int)
    requires info.LastDecodedPTS + avg < Unset
    ensures var r := SetTimestampFromPacket(info, dts, pts, true, avg);
            r.CurrentTimestamp <= r.BufferedPTS
  {
  }

  function Step(info: TimestampInfo, o: Observation, avg: int): TimestampInfo {
    SetTimestampFromPacket(info, o.dts, o.pts, o.decoded, avg)
  }

  /** The reconciler's state after a sequence of observations, oldest first. */
  function Replay(info: TimestampInfo, obs: seq<Observation>, avg: int): TimestampInfo
    decreases |obs|
  {
    if obs == [] then info
    else Step(Replay(info, obs[..|obs| - 1], avg), obs[|obs| - 1], avg)
  }

  /** Number of observations that completed a picture. */
  function DecodedCount(obs: seq<Observation>): nat
    decreases |obs|
  {
    if obs == [] then 0
    else DecodedCount(obs[..|obs| - 1]) + (if obs[|obs| - 1].decoded then 1 else 0)
  }

  lemma ReplayAppend(info: TimestampInfo, obs: seq<Observation>, o: Observation, avg: int)
    ensures Replay(info, obs + [o], avg) == Step(Replay(info, obs, avg), o, avg)
    ensures DecodedCount(obs + [o]) == DecodedCount(obs) + (if o.decoded then 1 else 0)
  {
    assert (obs + [o])[..|obs + [o]| - 1] == obs;
  }

  /** The pending timestamp stays unset or usable whatever libav reports. */
  lemma {:induction false} ReplayKeepsBufferedWellFormed(info: TimestampInfo, obs: seq<Observation>, avg: int)
    requires BufferedWellFormed(info)
    ensures BufferedWellFormed(Replay(info, obs, avg))
  {
    if obs != [] {
      ReplayKeepsBufferedWellFormed(info, obs[..|obs| - 1], avg);
    }
  }

  /** Observations that only buffer never move the current or last decoded timestamp. */
  lemma {:induction false} ReplayBufferingOnly(info: TimestampInfo, obs: seq<Observation>, avg: int)
    requires DecodedCount(obs) == 0
    ensures Replay(info, obs, avg).CurrentTimestamp == info.CurrentTimestamp
    ensures Replay(info, obs, avg).LastDecodedPTS == info.LastDecodedPTS
  {
    if obs != [] {
      ReplayBufferingOnly(info, obs[..|obs| - 1], avg);
    }
  }

  /**
   * Once a picture has been completed, the current timestamp is the last
   * decoded one and it is never negative: no sentinel leaks out as a frame
   * position.
   */
  lemma {:induction false} ReplayDecodedNonNegative(info: TimestampInfo, obs: seq<Observation>, avg: int)
    requires BufferedWellFormed(info) && avg >= 0
    requires DecodedCount(obs) > 0
    ensures Replay(info, obs, avg).CurrentTimestamp >= 0
    ensures Replay(info, obs, avg).LastDecodedPTS == Replay(info, obs, avg).CurrentTimestamp
  {
    var init := obs[..|obs| - 1];
    ReplayKeepsBufferedWellFormed(info, init, avg);
    if !obs[|obs| - 1].decoded {
      ReplayDecodedNonNegative(info, init, avg);
    }
  }

  /** The timestamps given to the pictures completed along `obs`, in order. */
  function Stamps(info: TimestampInfo, obs: seq<Observation>, avg: int): seq<int>
    decreases |obs|
  {
    if obs == [] then []
    else Stamps(info, obs[..|obs| - 1], avg)
         + (if obs[|obs| - 1].decoded then [Replay(info, obs, avg).CurrentTimestamp] else [])
  }

  lemma StampsAppend(info: TimestampInfo, obs: seq<Observation>, o: Observation, avg: int)
    ensures Stamps(info, obs + [o], avg)
            == Stamps(info, obs, avg) + (if o.decoded then [Step(Replay(info, obs, avg), o, avg).CurrentTimestamp] else [])
  {
    assert (obs + [o])[..|obs + [o]| - 1] == obs;
  }

  /** One timestamp per completed picture, and the last is the reconciler's current one. */
  lemma {:induction false} StampsCount(info: TimestampInfo, obs: seq<Observation>, avg: int)
    ensures |Stamps(info, obs, avg)| == DecodedCount(obs)
    ensures DecodedCount(obs) > 0 ==>
              Stamps(info, obs, avg)[|Stamps(info, obs, avg)| - 1] == Replay(info, obs, avg).CurrentTimestamp
  {
    if obs != [] {
      var init := obs[..|obs| - 1];
      StampsCount(info, init, avg);
      if !obs[|obs| - 1].decoded && DecodedCount(init) > 0 {
        ReplayBufferingOnly(Replay(info, init, avg), [obs[|obs| - 1]], avg);
      }
    }
  }

  /** No completed picture is ever placed at a negative time. */
  lemma {:induction false} StampsNonNegative(info: TimestampInfo, obs: seq<Observation>, avg: int)
    requires BufferedWellFormed(info) && avg >= 0
    ensures forall i :: 0 <= i < |Stamps(info, obs, avg)| ==> Stamps(info, obs, avg)[i] >= 0
  {
    if obs != [] {
      var init := obs[..|obs| - 1];
      StampsNonNegative(info, init, avg);
      if obs[|obs| - 1].decoded {
        ReplayDecodedNonNegative(info, obs, avg);
      }
    }
  }
}
