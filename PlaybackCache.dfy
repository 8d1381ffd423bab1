/**
 * The playback cache the reader fills (`Cache` in VideoReaderFFMpeg, of
 * class VideoFrameCache). Its implementation is not part of this model: it
 * is represented by what the reader relies on, a sequence of frame
 * timestamps in strictly increasing order and a cursor on the frame being
 * shown. Frame images are not represented.
 */
module PlaybackCache {

  predicate StrictlyIncreasing(s: seq<int>) {
    forall i, j :: 0 <= i < j < |s| ==> s[i] < s[j]
  }

  /** A strictly increasing sequence stays so when a later element is appended. */
  lemma IncreasingAppend(s: seq<int>, x: int)
    ensures StrictlyIncreasing(s) && (forall y :: y in s ==> y < x) ==> StrictlyIncreasing(s + [x])
  {
    if StrictlyIncreasing(s) && (forall y :: y in s ==> y < x) {
      forall i, j | 0 <= i < j < |s + [x]|
        ensures (s + [x])[i] < (s + [x])[j]
      {
        if j == |s| {
          assert s[i] in s;
        }
      }
    }
  }

  /** The cache after `Add(ts)`: a frame is kept only when it comes after every cached frame. */
  function Appended(s: seq<int>, ts: int): (r: seq<int>)
    ensures StrictlyIncreasing(s) ==> StrictlyIncreasing(r)
    ensures r == s || r == s + [ts]
    ensures StrictlyIncreasing(s) ==> (r == s + [ts] <==> forall k :: 0 <= k < |s| ==> s[k] < ts)
  {
    if s == [] || s[|s| - 1] < ts then s + [ts] else s
  }

  class FrameCache {
    /** Timestamps of the cached frames, oldest first. */
    var Timestamps: seq<int>
    /** Index of the current frame; -1 before the first `MoveNext` after a clear. */
    var cursor: int

    ghost predicate Valid()
      reads this
    {
      StrictlyIncreasing(Timestamps) && -1 <= cursor < |Timestamps|
    }

    constructor ()
      ensures Valid() && Timestamps == [] && cursor == -1
    {
      Timestamps := [];
      cursor := -1;
    }

    predicate Contains(ts: int)
      reads this
    {
      ts in Timestamps
    }

    predicate HasNext()
      reads this
    {
      cursor + 1 < |Timestamps|
    }

    predicate HasCurrent()
      reads this
    {
      0 <= cursor < |Timestamps|
    }

    function Current(): int
      reads this
      requires HasCurrent()
    {
      Timestamps[cursor]
    }

    method Add(ts: int)
      requires Valid()
      modifies this
      ensures Valid()
      ensures Timestamps == Appended(old(Timestamps), ts) && cursor == old(cursor)
    {
      Timestamps := Appended(Timestamps, ts);
    }

    method Clear()
      requires Valid()
      modifies this
      ensures Valid() && Timestamps == [] && cursor == -1
    {
      Timestamps := [];
      cursor := -1;
    }

    method MoveNext() returns (ok: bool)
      requires Valid()
      modifies this`cursor
      ensures Valid()
      ensures ok == old(HasNext())
      ensures cursor == if ok then old(cursor) + 1 else old(cursor)
    {
      ok := cursor + 1 < |Timestamps|;
      if ok {
        cursor := cursor + 1;
      }
    }

    method MoveTo(ts: int) returns (ok: bool)
      requires Valid()
      modifies this`cursor
      ensures Valid()
      ensures ok == (ts in Timestamps)
      ensures ok ==> HasCurrent() && Current() == ts
      ensures !ok ==> cursor == old(cursor)
    {
      ok := ts in Timestamps;
      if ok {
        var i :| 0 <= i < |Timestamps| && Timestamps[i] == ts;
        cursor := i;
      }
    }
  }
}
