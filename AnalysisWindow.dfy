/**
 * The analysis window of VideoReaderFFMpeg: a selection of frames decoded
 * into memory (`m_FrameList`) together with its mode, length and cursor
 * (`m_PrimarySelection`). Frames are represented by their timestamps; the
 * images are not. The list is not necessarily sorted: its order is the order
 * in which frames were placed.
 */
module AnalysisWindow {
  import opened Numerics
  import opened PlaybackCache

  //---------------------------------------------------------------------------
  // GetFrameNumber
  //---------------------------------------------------------------------------

  /**
   * The index GetFrameNumber returns: the first frame whose timestamp is at or
   * after `position`, clamped to the last frame; 0 for an empty list.
   */
  function FrameNumber(frames: seq<int>, position: int): (r: nat)
    ensures |frames| == 0 ==> r == 0
    ensures |frames| > 0 ==> r < |frames|
    ensures forall i :: 0 <= i < r ==> frames[i] < position
    ensures r < |frames| - 1 ==> frames[r] >= position
    decreases |frames|
  {
    if |frames| <= 1 || frames[0] >= position then 0
    else 1 + FrameNumber(frames[1..], position)
  }

  /** The characterisation above determines the index. */
  lemma FrameNumberIs(frames: seq<int>, position: int, k: int)
    requires 0 <= k < |frames|
    requires forall i :: 0 <= i < k ==> frames[i] < position
    requires k < |frames| - 1 ==> frames[k] >= position
    ensures FrameNumber(frames, position) == k
  {
  }

  //---------------------------------------------------------------------------
  // Reductions of PrepareSelection
  //---------------------------------------------------------------------------

  /** The end-reduction: when `end` is before the last frame, keep frames 0 .. FrameNumber(end). */
  function ReduceEnd(frames: seq<int>, end: int): (r: seq<int>)
    ensures |frames| > 0 ==> 0 < |r|
    ensures r <= frames
  {
    if |frames| > 0 && end < frames[|frames| - 1] then frames[..FrameNumber(frames, end) + 1]
    else frames
  }

  /** The start-reduction: when `start` is after the first frame, drop frames 0 .. FrameNumber(start) - 1. */
  function ReduceStart(frames: seq<int>, start: int): (r: seq<int>)
    ensures |frames| > 0 ==> 0 < |r|
    ensures |r| <= |frames| && r == frames[|frames| - |r|..]
  {
    if |frames| > 0 && start > frames[0] then frames[FrameNumber(frames, start)..]
    else frames
  }

  /**
   * On a sorted selection the end-reduction keeps a frame exactly when the
   * frame before it is earlier than `end` (and always keeps the first): every
   * frame before `end`, the first one at or after it, and nothing later.
   */
  lemma ReduceEndSorted(frames: seq<int>, end: int)
    requires StrictlyIncreasing(frames)
    ensures var r := ReduceEnd(frames, end);
            && (|frames| > 0 ==> |r| > 0)
            && forall i :: 0 <= i < |frames| - 1 ==> (i + 1 < |r| <==> frames[i] < end)
  {
    var r := ReduceEnd(frames, end);
    if |frames| > 0 && end < frames[|frames| - 1] {
      var k := FrameNumber(frames, end);
      assert frames[k] >= end;
      forall i | 0 <= i < |frames| - 1
        ensures i + 1 < |r| <==> frames[i] < end
      {
        if i >= k {
          assert frames[k] <= frames[i];
        }
      }
    }
  }

  /**
   * On a sorted selection the start-reduction keeps a frame exactly when it
   * is at or after `start`, except that the last frame is always kept.
   */
  lemma ReduceStartSorted(frames: seq<int>, start: int)
    requires StrictlyIncreasing(frames)
    ensures var r := ReduceStart(frames, start);
            forall i :: 0 <= i < |frames| ==> (i >= |frames| - |r| <==> frames[i] >= start || i == |frames| - 1)
  {
    var r := ReduceStart(frames, start);
    if |frames| > 0 && start > frames[0] {
      var k := FrameNumber(frames, start);
      forall i | 0 <= i < |frames|
        ensures i >= |frames| - |r| <==> frames[i] >= start || i == |frames| - 1
      {
        if k <= i < |frames| - 1 {
          assert frames[k] >= start;
          assert frames[k] <= frames[i];
        }
      }
    }
  }

  //---------------------------------------------------------------------------
  // PrepareSelection
  //---------------------------------------------------------------------------

  /**
   * How ExtractToMemory must load a selection. `Unset` stands for the value
   * PrepareSelection leaves uninitialised when no branch assigns it.
   */
  datatype ImportStrategy = Complete | Reduction | InsertionBefore | InsertionAfter | Unset

  /** What PrepareSelection leaves: the strategy, the frame list and the rewritten start and end. */
  datatype Preparation = Preparation(strategy: ImportStrategy, frames: seq<int>, start: int, end: int)

  /**
   * PrepareSelection as a function of the window's mode and frames.
   * `avg` is the average number of timestamps per frame. An empty list in
   * analysis mode stands for the null list of the source.
   */
  function Prepare(mode: int, frames: seq<int>, start: int, end: int, forceReload: bool, avg: int): Preparation {
    if mode == 0 || forceReload || frames == [] then Preparation(Complete, [], start, end)
    else
      var oldStart := frames[0];
      var oldEnd := frames[|frames| - 1];
      var reduced := ReduceStart(ReduceEnd(frames, end), start);
      if end >= oldEnd + avg then Preparation(InsertionAfter, reduced, oldEnd, end)
      else if start <= oldStart - avg then Preparation(InsertionBefore, reduced, start, oldStart)
      else if end < oldEnd || start > oldStart then Preparation(Reduction, reduced, start, end)
      else Preparation(Unset, reduced, start, end)
  }

  /** Outside analysis mode, or when forced, everything is reloaded into an empty list. */
  lemma PrepareReloads(mode: int, frames: seq<int>, start: int, end: int, forceReload: bool, avg: int)
    requires mode == 0 || forceReload
    ensures Prepare(mode, frames, start, end, forceReload, avg) == Preparation(Complete, [], start, end)
  {
  }

  /**
   * In analysis mode the surviving frames are a non-empty contiguous run of
   * the old list, unchanged and in their order, and all of it when the new
   * bounds do not cut into the selection.
   */
  lemma PrepareSurvivors(mode: int, frames: seq<int>, start: int, end: int, avg: int)
    requires mode != 0 && frames != []
    ensures var p := Prepare(mode, frames, start, end, false, avg);
            && p.frames != []
            && (exists a, b :: 0 <= a < b <= |frames| && p.frames == frames[a..b])
            && (frames[|frames| - 1] <= end && start <= frames[0] ==> p.frames == frames)
  {
    var e := ReduceEnd(frames, end);
    var p := Prepare(mode, frames, start, end, false, avg);
    assert p.frames == ReduceStart(e, start);
    var a := |e| - |p.frames|;
    assert e == frames[..|e|];
    assert p.frames == frames[a..|e|];
  }

  /**
   * In analysis mode, extending after the last frame takes precedence over
   * extending before the first; each rewrites the bound on the other side to
   * the old selection's edge; the strategy is left unset exactly when the new
   * bounds neither shrink the selection nor extend it by a frame.
   */
  lemma PrepareStrategy(mode: int, frames: seq<int>, start: int, end: int, avg: int)
    requires mode != 0 && frames != []
    ensures var p := Prepare(mode, frames, start, end, false, avg);
            var oldStart := frames[0];
            var oldEnd := frames[|frames| - 1];
            && (end >= oldEnd + avg ==> p.strategy == InsertionAfter && p.start == oldEnd && p.end == end)
            && (end < oldEnd + avg && start <= oldStart - avg ==>
                  p.strategy == InsertionBefore && p.start == start && p.end == oldStart)
            && (p.strategy == Reduction <==>
                  end < oldEnd + avg && start > oldStart - avg && (end < oldEnd || start > oldStart))
            && (p.strategy == Reduction ==> p.start == start && p.end == end)
            && (p.strategy == Unset <==>
                  end < oldEnd + avg && start > oldStart - avg && oldEnd <= end && start <= oldStart)
            && p.strategy != Complete
  {
  }

  /** The strategy is Complete exactly when the prepared list is empty. */
  lemma PrepareCompleteIffEmpty(mode: int, frames: seq<int>, start: int, end: int, forceReload: bool, avg: int)
    ensures var p := Prepare(mode, frames, start, end, forceReload, avg);
            p.strategy == Complete <==> p.frames == []
  {
    if !(mode == 0 || forceReload || frames == []) {
      var e := ReduceEnd(frames, end);
      assert |e| > 0;
      assert |ReduceStart(e, start)| > 0;
    }
  }

  /** A window of 41 frames, 10 timestamps apart, from 100 to 500. */
  function ExampleWindow(): seq<int> {
    seq(41, i => 100 + 10 * i)
  }

  /**
   * Requesting [100, 520] on that window is an insertion after it: nothing
   * is dropped and decoding starts from the old last frame, 500.
   */
  lemma ExampleInsertionAfter()
    ensures Prepare(1, ExampleWindow(), 100, 520, false, 10) == Preparation(InsertionAfter, ExampleWindow(), 500, 520)
  {
  }

  /**
   * Requesting [150, 450] on that window is a pure reduction: the frames
   * before 150 and after 450 are dropped and nothing is decoded.
   */
  lemma ExampleReduction()
    ensures Prepare(1, ExampleWindow(), 150, 450, false, 10) == Preparation(Reduction, seq(31, i => 150 + 10 * i), 150, 450)
  {
    var w := ExampleWindow();
    assert |w| == 41 && w[35] == 450 && w[40] == 500;
    FrameNumberIs(w, 450, 35);
    var e := w[..36];
    assert ReduceEnd(w, 450) == e;
    assert |e| == 36 && e[0] == 100 && e[5] == 150;
    FrameNumberIs(e, 150, 5);
    assert ReduceStart(e, 150) == e[5..];
    assert e[5..] == seq(31, i => 150 + 10 * i);
  }

  /** A sorted selection stays sorted through PrepareSelection. */
  lemma PrepareKeepsSorted(mode: int, frames: seq<int>, start: int, end: int, forceReload: bool, avg: int)
    requires StrictlyIncreasing(frames)
    ensures StrictlyIncreasing(Prepare(mode, frames, start, end, forceReload, avg).frames)
  {
    if !(mode == 0 || forceReload || frames == []) {
      var e := ReduceEnd(frames, end);
      SliceIncreasing(frames, 0, |e|);
      assert e == frames[0..|e|];
      var r := ReduceStart(e, start);
      SliceIncreasing(e, |e| - |r|, |e|);
      assert StrictlyIncreasing(r);
      PrepareFrames(mode, frames, start, end, avg);
    }
  }

  lemma PrepareFrames(mode: int, frames: seq<int>, start: int, end: int, avg: int)
    requires mode != 0 && frames != []
    ensures Prepare(mode, frames, start, end, false, avg).frames == ReduceStart(ReduceEnd(frames, end), start)
  {
  }

  lemma SliceIncreasing(s: seq<int>, a: int, b: int)
    requires StrictlyIncreasing(s) && 0 <= a <= b <= |s|
    ensures StrictlyIncreasing(s[a..b])
  {
  }

  //---------------------------------------------------------------------------
  // Frame placement of ExtractToMemory
  //---------------------------------------------------------------------------

  /** Placing a frame either gives the new list or throws (an insertion index past the end). */
  datatype Placement = Placed(frames: seq<int>) | Failed

  /**
   * Where ExtractToMemory puts a decoded frame of timestamp `ts` (already
   * known to be at or after the start). `framesDecoded` counts the frames of
   * the selection decoded so far, this one included.
   */
  function PlaceFrame(strategy: ImportStrategy, frames: seq<int>, ts: int, framesDecoded: int, oldStart: int, oldEnd: int): (p: Placement)
    ensures p.Failed? <==> strategy == InsertionBefore && ts < oldStart && !(0 <= framesDecoded - 1 <= |frames|)
    ensures strategy == Complete ==> p == Placed(frames + [ts])
    ensures strategy == InsertionAfter ==> p == Placed(if ts > oldEnd then frames + [ts] else frames)
    ensures strategy in {Reduction, Unset} ==> p == Placed(frames)
    ensures strategy == InsertionBefore && ts >= oldStart ==> p == Placed(frames)
  {
    if strategy == InsertionBefore && ts < oldStart then
      var i := framesDecoded - 1;
      if 0 <= i <= |frames| then Placed(frames[..i] + [ts] + frames[i..])
      else Failed
    else if strategy == InsertionAfter && ts > oldEnd then Placed(frames + [ts])
    else if strategy == Complete then Placed(frames + [ts])
    else Placed(frames)
  }

  /**
   * An insertion before the selection puts the frame at index
   * `framesDecoded - 1`, shifting the rest and losing nothing.
   */
  lemma PlaceFrameBefore(frames: seq<int>, ts: int, framesDecoded: int, oldStart: int, oldEnd: int)
    requires ts < oldStart && 0 <= framesDecoded - 1 <= |frames|
    ensures var p := PlaceFrame(InsertionBefore, frames, ts, framesDecoded, oldStart, oldEnd);
            && p.Placed?
            && multiset(p.frames) == multiset(frames) + multiset{ts}
            && |p.frames| == |frames| + 1
            && p.frames[framesDecoded - 1] == ts
            && p.frames[..framesDecoded - 1] == frames[..framesDecoded - 1]
            && p.frames[framesDecoded..] == frames[framesDecoded - 1..]
  {
    var i := framesDecoded - 1;
    assert frames == frames[..i] + frames[i..];
  }

  /**
   * Insertions before the selection build a prefix in decoding order: when
   * the frames inserted so far are exactly the frames decoded so far, the
   * next one goes right after them and before the old selection.
   */
  lemma InsertionBeforeBuildsPrefix(inserted: seq<int>, selection: seq<int>, ts: int, oldStart: int, oldEnd: int)
    requires ts < oldStart
    ensures PlaceFrame(InsertionBefore, inserted + selection, ts, |inserted| + 1, oldStart, oldEnd)
            == Placed((inserted + [ts]) + selection)
  {
    var p := PlaceFrame(InsertionBefore, inserted + selection, ts, |inserted| + 1, oldStart, oldEnd);
    assert (inserted + selection)[..|inserted|] == inserted;
    assert (inserted + selection)[|inserted|..] == selection;
  }

  //---------------------------------------------------------------------------
  // EstimateNumberOfFrames
  //---------------------------------------------------------------------------

  /**
   * The number of frames of a selection, for progress reporting: its length in
   * timestamps (up to the end of the file when `end` is -1) over the average
   * frame length, truncated like C++ division and narrowed to a 32-bit int.
   */
  function EstimateNumberOfFrames(start: int, end: int, durationTimeStamps: int, avg: int): (n: int)
    requires avg != 0
    ensures -0x8000_0000 <= n < 0x8000_0000
    ensures var length := if end == -1 then durationTimeStamps - start else end - start;
            && (n - TruncDiv(length, avg)) % 0x1_0000_0000 == 0
            && (-0x8000_0000 <= TruncDiv(length, avg) < 0x8000_0000 ==>
                  && Abs(length - avg * n) < Abs(avg)
                  && (length - avg * n == 0 || (length - avg * n > 0 <==> length > 0))
                  && (n == 0 || (n > 0 <==> (length > 0) == (avg > 0))))
  {
    var length := if end == -1 then durationTimeStamps - start else end - start;
    ToInt32(TruncDiv(length, avg))
  }

  /** A selection exactly k frames long is estimated at k frames, whenever k fits in an `int`. */
  lemma EstimateWholeFrames(start: int, end: int, durationTimeStamps: int, avg: int, k: int)
    requires avg != 0 && -0x8000_0000 <= k < 0x8000_0000
    requires (if end == -1 then durationTimeStamps - start else end - start) == k * avg
    ensures EstimateNumberOfFrames(start, end, durationTimeStamps, avg) == k
  {
    var length := if end == -1 then durationTimeStamps - start else end - start;
    var q := TruncDiv(length, avg);
    assert length - avg * q == avg * (k - q);
    if q != k {
      AtLeastOneMultiple(avg, k - q);
    }
  }

  /** A non-zero multiple of a non-zero integer is at least as large in magnitude. */
  lemma AtLeastOneMultiple(a: int, m: int)
    requires a != 0 && m != 0
    ensures Abs(a * m) >= Abs(a)
    decreases if m < 0 then -2 * m else m
  {
    if m < 0 {
      AtLeastOneMultiple(a, -m);
      assert a * m == -(a * -m);
    } else if m > 1 {
      AtLeastOneMultiple(a, m - 1);
      assert a * m == a * (m - 1) + a;
    }
  }

  //---------------------------------------------------------------------------
  // The selection state
  //---------------------------------------------------------------------------

  /** After an import: the selection is kept only when it was not cancelled and holds frames. */
  datatype Outcome = Outcome(mode: int, durationFrame: int, currentFrame: int, frames: seq<int>)

  function Finalised(frames: seq<int>, cancelled: bool, currentFrame: int): (o: Outcome)
    ensures o.mode == 1 <==> !cancelled && frames != []
    ensures o.mode != 1 ==> o == Outcome(0, 0, -1, [])
    ensures o.mode == 1 ==>
              && o.frames == frames && o.durationFrame == |frames|
              && 0 <= o.currentFrame < |frames|
              && (0 <= currentFrame < |frames| ==> o.currentFrame == currentFrame)
              && (currentFrame >= |frames| ==> o.currentFrame == |frames| - 1)
              && (currentFrame < 0 ==> o.currentFrame == 0)
  {
    if frames != [] && !cancelled then
      Outcome(1, |frames|, if currentFrame > |frames| - 1 then |frames| - 1 else if currentFrame < 0 then 0 else currentFrame, frames)
    else Outcome(0, 0, -1, [])
  }

  class Selection {
    /** Timestamps of the frames in memory, in list order. */
    var Frames: seq<int>
    /** 1 when the selection is in memory (analysis mode), 0 otherwise. */
    var AnalysisMode: int
    var DurationFrame: int
    var CurrentFrame: int

    ghost predicate Valid()
      reads this
    {
      && (AnalysisMode == 0 || AnalysisMode == 1)
      && (AnalysisMode == 1 ==> Frames != [] && DurationFrame == |Frames| && 0 <= CurrentFrame < |Frames|)
    }

    constructor ()
      ensures Valid() && Frames == [] && AnalysisMode == 0 && DurationFrame == 0 && CurrentFrame == -1
    {
      Frames := [];
      AnalysisMode := 0;
      DurationFrame := 0;
      CurrentFrame := -1;
    }

    /** The linear search of GetFrameNumber over the frame list. */
    method GetFrameNumber(position: int) returns (r: int)
      ensures r == FrameNumber(Frames, position)
    {
      r := 0;
      if |Frames| > 0 {
        var ts := Frames[0];
        while ts < position && r < |Frames| - 1
          invariant 0 <= r < |Frames|
          invariant ts == Frames[r]
          invariant forall i :: 0 <= i < r ==> Frames[i] < position
          decreases |Frames| - r
        {
          r := r + 1;
          ts := Frames[r];
        }
        FrameNumberIs(Frames, position, r);
      }
    }

    /**
     * PrepareSelection: trims the list in place and returns the strategy with
     * the start and end it rewrote.
     */
    method PrepareSelection(start: int, end: int, forceReload: bool, avg: int)
      returns (strategy: ImportStrategy, newStart: int, newEnd: int)
      requires Valid()
      modifies this`Frames
      ensures var p := Prepare(AnalysisMode, old(Frames), start, end, forceReload, avg);
              strategy == p.strategy && Frames == p.frames && newStart == p.start && newEnd == p.end
    {
      newStart, newEnd := start, end;
      if AnalysisMode == 0 || forceReload || Frames == [] {
        Frames := [];
        strategy := ImportStrategy.Complete;
        return;
      }
      strategy := Unset;
      var oldStart := Frames[0];
      var oldEnd := Frames[|Frames| - 1];
      ghost var original := Frames;
      if end < oldEnd {
        var newLast := GetFrameNumber(end);
        Frames := Frames[..newLast + 1];
        strategy := Reduction;
      }
      assert Frames == ReduceEnd(original, end);
      ghost var afterEnd := Frames;
      if start > oldStart {
        var newFirst := GetFrameNumber(start);
        Frames := Frames[newFirst..];
        strategy := Reduction;
      }
      assert Frames == ReduceStart(afterEnd, start);
      if end >= oldEnd + avg {
        newStart := oldEnd;
        strategy := InsertionAfter;
      } else if start <= oldStart - avg {
        newEnd := oldStart;
        strategy := InsertionBefore;
      }
    }

    /** Puts a decoded frame in the list; false when the list throws (the frame is then not placed). */
    method Place(strategy: ImportStrategy, ts: int, framesDecoded: int, oldStart: int, oldEnd: int) returns (ok: bool)
      modifies this`Frames
      ensures var p := PlaceFrame(strategy, old(Frames), ts, framesDecoded, oldStart, oldEnd);
              ok == p.Placed? && Frames == (if ok then p.frames else old(Frames))
    {
      var p := PlaceFrame(strategy, Frames, ts, framesDecoded, oldStart, oldEnd);
      ok := p.Placed?;
      if ok {
        Frames := p.frames;
      }
    }

    /** The end of ExtractToMemory: keep the selection and clamp the cursor, or discard it. */
    method Finalise(cancelled: bool)
      modifies this
      ensures Valid()
      ensures var o := Finalised(old(Frames), cancelled, old(CurrentFrame));
              AnalysisMode == o.mode && DurationFrame == o.durationFrame && CurrentFrame == o.currentFrame && Frames == o.frames
    {
      if |Frames| > 0 && !cancelled {
        AnalysisMode := 1;
        DurationFrame := |Frames|;
        if CurrentFrame > DurationFrame - 1 {
          CurrentFrame := DurationFrame - 1;
        } else if CurrentFrame < 0 {
          CurrentFrame := 0;
        }
      } else {
        AnalysisMode := 0;
        DurationFrame := 0;
        CurrentFrame := -1;
        Frames := [];
      }
    }
  }
}
