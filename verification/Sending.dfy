/** proto/udp/udp.go, `msgSending`: a message behind its length prefix, cut into numbered bodies. */
module Sending {
  import opened Bytes
  import opened Segments

  const MAX_MSG_SIZE: int := 1024 * 1024 * 16

  /** The prefix counts itself. */
  function Wire(message: bytes): (w: bytes)
    ensures |w| == 4 + |message| && w[4..] == message
    ensures GetU32(w[..4]) == ToU32(|w|)
  {
    PutU32(ToU32(|message| + 4)) + message
  }

  /** The message sizes `Write` hands to `SendMsg`, and `SendMsg` accepts. */
  predicate Sendable(message: bytes) { 1 <= |message| <= MAX_MSG_SIZE }

  /** `segmentCount`, with its conversion to 16 bits. */
  function SegmentCount(w: bytes): u16 {
    var c := |w| / BODY_MAX_SIZE;
    ToU16(if |w| % BODY_MAX_SIZE != 0 then c + 1 else c)
  }

  /** How many bytes of w the first k bodies carry. */
  function EndOf(w: bytes, k: nat): nat { Min(k * BODY_MAX_SIZE, |w|) }

  /** The body numbered i. */
  function Fragment(w: bytes, i: nat): bytes { w[EndOf(w, i)..EndOf(w, i + 1)] }

  datatype MsgSending = MsgSending(types: byte, flags: u16, streamID: u32, transID: u16, message: bytes) {

    static function New(types: byte, flags: u16, streamID: u32, transID: u16, message: bytes): MsgSending {
      MsgSending(types, flags, streamID, transID, Wire(message))
    }

    /** The i-th segment of this message. */
    function Nth(i: u16): Segment {
      MakeSegment(types, flags, streamID, transID, i, Fragment(message, i))
    }

    /** `IterBufferd`: the segments put into the channel, in order. */
    method IterBuffered() returns (segs: seq<Segment>)
      requires 0 < |message| <= MAX_MSG_SIZE + 4
      ensures |segs| == SegmentCount(message)
      ensures forall i :: 0 <= i < |segs| ==> segs[i] == Nth(i)
    {
      CountIsExact(message);
      var length, sum := |message|, SegmentCount(message);
      segs := [];
      for i := 0 to sum
        invariant |segs| == i
        invariant forall j :: 0 <= j < i ==> segs[j] == Nth(j)
      {
        var end := (i + 1) * BODY_MAX_SIZE;
        if end > length {
          end := length;
        }
        var r := NewSegment(types, flags, streamID, transID, i, message[i * BODY_MAX_SIZE..end]);
        segs := segs + [r.value];
      }
    }

    /** A start past the end of the message would panic on the slice. */
    method GetSegmentByOrderID(orderID: u16) returns (seg: Segment)
      requires orderID * BODY_MAX_SIZE <= |message|
      ensures seg == Nth(orderID)
    {
      var start := orderID * BODY_MAX_SIZE;
      var end := start + BODY_MAX_SIZE;
      if end > |message| {
        end := |message|;
      }
      var r := NewSegment(types, flags, streamID, transID, orderID, message[start..end]);
      seg := r.value;
    }
  }

  /** The 16-bit count does not wrap below the size limit, and is the number of bodies needed. */
  lemma CountIsExact(w: bytes)
    requires 0 < |w| <= MAX_MSG_SIZE + 4
    ensures 1 <= SegmentCount(w) <= 12105
    ensures (SegmentCount(w) - 1) * BODY_MAX_SIZE < |w| <= SegmentCount(w) * BODY_MAX_SIZE
  {
    var c := |w| / BODY_MAX_SIZE;
    assert |w| == c * BODY_MAX_SIZE + |w| % BODY_MAX_SIZE;
  }

  /** Facts about one body that the receiver relies on. */
  lemma FragmentShape(w: bytes, i: nat)
    requires 0 < |w| <= MAX_MSG_SIZE + 4 && i < SegmentCount(w)
    ensures 1 <= |Fragment(w, i)| <= BODY_MAX_SIZE
    ensures |Fragment(w, i)| == EndOf(w, i + 1) - EndOf(w, i)
    ensures EndOf(w, i) == i * BODY_MAX_SIZE
    ensures i == 0 && |w| >= 4 ==> |Fragment(w, 0)| >= 4 && Fragment(w, 0)[..4] == w[..4]
  {
    CountIsExact(w);
  }

  ghost function Bodies(segs: seq<Segment>): bytes {
    if segs == [] then [] else Bodies(segs[..|segs| - 1]) + segs[|segs| - 1].b
  }

  lemma {:induction false} BodiesArePrefix(s: MsgSending, segs: seq<Segment>)
    requires 0 < |s.message| <= MAX_MSG_SIZE + 4
    requires |segs| <= SegmentCount(s.message)
    requires forall i :: 0 <= i < |segs| ==> segs[i] == s.Nth(i)
    ensures Bodies(segs) == s.message[..EndOf(s.message, |segs|)]
  {
    if segs != [] {
      var n := |segs| - 1;
      BodiesArePrefix(s, segs[..n]);
      FragmentShape(s.message, n);
      assert segs[n].b == Fragment(s.message, n);
      hide SegmentCount, MsgSending.Nth, HeaderBytes, Bodies;
      assert s.message[..EndOf(s.message, n)] + Fragment(s.message, n) == s.message[..EndOf(s.message, n + 1)];
    }
  }

  /** A sendable message behind its prefix: the prefix is the length of the whole. */
  ghost predicate IsWire(w: bytes) {
    4 < |w| <= MAX_MSG_SIZE + 4 && GetU32(w[..4]) == |w|
  }

  lemma SendableIsWire(message: bytes)
    requires Sendable(message)
    ensures IsWire(Wire(message)) && Wire(message) == PutU32(|message| + 4) + message
  {
  }

  /** Fragmentation: the bodies `IterBuffered` yields for a message concatenate to the length prefix
      and the message; each is nonempty and fits a datagram, and the first holds the whole prefix. */
  lemma FragmentationIsLossless(s: MsgSending, message: bytes, segs: seq<Segment>)
    requires Sendable(message) && s.message == Wire(message)
    requires |segs| == SegmentCount(s.message)
    requires forall i :: 0 <= i < |segs| ==> segs[i] == s.Nth(i)
    ensures Bodies(segs) == PutU32(|message| + 4) + message
    ensures 1 <= |segs| < U16_SIZE
    ensures forall i :: 0 <= i < |segs| ==> 1 <= |segs[i].b| <= BODY_MAX_SIZE
    ensures |segs[0].b| >= 4
  {
    var w := s.message;
    SendableIsWire(message);
    CountIsExact(w);
    BodiesArePrefix(s, segs);
    assert w[..EndOf(w, |segs|)] == w;
    forall i | 0 <= i < |segs| ensures 1 <= |segs[i].b| <= BODY_MAX_SIZE {
      FragmentShape(w, i);
    }
    FragmentShape(w, 0);
  }
}
