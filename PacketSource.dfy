/**
 * The demuxer/decoder collaborator (libav's format and codec contexts), as
 * the reader sees it: a sequence of packets read one at a time, and an
 * approximate backward seek that lands on some packet. Each packet is either
 * from another stream, or a video packet with its dts and pts and whether
 * decoding it completed a picture.
 */
module PacketSource {
  import opened Numerics

  datatype Packet =
    | OtherStream
    | VideoPacket(dts: int, pts: int, finished: bool)

  class PacketSource {
    /** The packets of the file, in demuxing order. */
    const Packets: seq<Packet>
    /** Where an approximate seek to a target timestamp lands (a packet index). */
    const SeekPoint: int -> nat
    /** Index of the next packet `av_read_frame` returns. */
    var position: nat
    /** Every seek target requested so far, oldest first. */
    ghost var seeks: seq<int>

    ghost predicate Valid()
      reads this
    {
      position <= |Packets|
    }

    constructor (packets: seq<Packet>, seekPoint: int -> nat)
      ensures Valid() && Packets == packets && SeekPoint == seekPoint
      ensures position == 0 && seeks == []
    {
      Packets := packets;
      SeekPoint := seekPoint;
      position := 0;
      seeks := [];
    }

    /** `av_read_frame`: the next packet, or None at the end of the file. */
    method Read() returns (p: Option<Packet>)
      requires Valid()
      modifies this`position
      ensures Valid()
      ensures old(position) < |Packets| ==> p == Some(Packets[old(position)]) && position == old(position) + 1
      ensures old(position) == |Packets| ==> p == None && position == old(position)
    {
      if position < |Packets| {
        p := Some(Packets[position]);
        position := position + 1;
      } else {
        p := None;
      }
    }

    /** The packet a seek toward `target` lands on, the end of the file at the latest. */
    function Landing(target: int): (i: nat)
      ensures i <= |Packets|
    {
      if SeekPoint(target) < |Packets| then SeekPoint(target) else |Packets|
    }

    /** A backward seek toward `target` followed by a flush of the decoder's buffers. */
    method Seek(target: int)
      requires Valid()
      modifies this`position, this`seeks
      ensures Valid()
      ensures position == Landing(target)
      ensures seeks == old(seeks) + [target]
    {
      position := Landing(target);
      seeks := seeks + [target];
    }
  }
}
