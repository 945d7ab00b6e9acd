/** proto/udp/segment.go: the datagram format. */
module Segments {
  import opened Bytes

  const HEADER_SIZE: int := 14
  const SEGMENT_MAX_SIZE: int := 1400
  const BODY_MAX_SIZE: int := SEGMENT_MAX_SIZE - HEADER_SIZE

  const TYPE_REQ: byte := 5
  const TYPE_REP: byte := 6
  const TYPE_RECEIVED: byte := 7
  const TYPE_TRANS: byte := 9

  /** A segment holds its encoded header and its body. */
  datatype Segment = Segment(h: bytes, b: bytes) {
    predicate HasHeader() { |h| == HEADER_SIZE }

    function Version(): byte requires HasHeader() { h[0] }
    function Type(): byte requires HasHeader() { h[1] }
    function Flags(): u16 requires HasHeader() { GetU16(h[2..4]) }
    function StreamID(): u32 requires HasHeader() { GetU32(h[4..8]) }
    function TransID(): u16 requires HasHeader() { GetU16(h[8..10]) }
    function OrderID(): u16 requires HasHeader() { GetU16(h[10..12]) }
    function Length(): u16 requires HasHeader() { GetU16(h[12..14]) }

    /** The datagram written to the socket. */
    function Datagram(): bytes { h + b }
  }

  datatype SegmentError = BodyTooLarge

  /** What the six arguments of `header.encode` leave in a 14-byte header. */
  function HeaderBytes(types: byte, flags: u16, streamID: u32, transID: u16, orderID: u16, length: u16): (h: bytes)
    ensures |h| == HEADER_SIZE
  {
    [0, types] + PutU16(flags) + PutU32(streamID) + PutU16(transID) + PutU16(orderID) + PutU16(length)
  }

  function MakeSegment(types: byte, flags: u16, streamID: u32, transID: u16, orderID: u16, body: bytes): Segment
    requires |body| <= BODY_MAX_SIZE
  {
    Segment(HeaderBytes(types, flags, streamID, transID, orderID, |body|), body)
  }

  /** `header.encode` fills the header buffer in place. */
  method Encode(h: array<byte>, types: byte, flags: u16, streamID: u32, transID: u16, orderID: u16, length: u16)
    requires h.Length == HEADER_SIZE
    modifies h
    ensures h[..] == HeaderBytes(types, flags, streamID, transID, orderID, length)
  {
    h[0] := 0;
    h[1] := types;
    assert h[..2] == [0, types];
    StoreU16(h, 2, flags);
    StoreU32(h, 4, streamID);
    StoreU16(h, 8, transID);
    StoreU16(h, 10, orderID);
    StoreU16(h, 12, length);
    assert h[..] == h[..14];
  }

  method NewSegment(types: byte, flags: u16, streamID: u32, transID: u16, orderID: u16, body: bytes)
    returns (r: Result<Segment, SegmentError>)
    ensures r.Ok? <==> |body| <= BODY_MAX_SIZE
    ensures r.Ok? ==> r.value == MakeSegment(types, flags, streamID, transID, orderID, body)
  {
    if |body| > BODY_MAX_SIZE {
      return Err(BodyTooLarge);
    }
    var hdr := new byte[HEADER_SIZE];
    Encode(hdr, types, flags, streamID, transID, orderID, |body|);
    return Ok(Segment(hdr[..], body));
  }

  /** `loadSegment` copies the header and the rest of the datagram out of the receive buffer. */
  method LoadSegment(data: array<byte>, n: nat) returns (seg: Segment)
    requires HEADER_SIZE <= n <= data.Length
    ensures seg.HasHeader() && seg.Datagram() == data[..n]
  {
    var hdr := new byte[HEADER_SIZE];
    forall i | 0 <= i < HEADER_SIZE { hdr[i] := data[i]; }
    var b := new byte[n - HEADER_SIZE];
    forall i | 0 <= i < n - HEADER_SIZE { b[i] := data[HEADER_SIZE + i]; }
    seg := Segment(hdr[..], b[..]);
    assert seg.Datagram() == data[..n];
  }

  /** A segment is the only one with its datagram, so whatever `LoadSegment` returns for a written
      datagram is the segment that was written: every header field and the body survive the wire,
      for all field values and body lengths, and the datagram fits the 1400-byte receive buffer. */
  lemma WireRoundTrip(types: byte, flags: u16, streamID: u32, transID: u16, orderID: u16, body: bytes, loaded: Segment)
    requires |body| <= BODY_MAX_SIZE
    requires loaded.HasHeader()
    requires loaded.Datagram() == MakeSegment(types, flags, streamID, transID, orderID, body).Datagram()
    ensures loaded.Version() == 0 && loaded.Type() == types && loaded.Flags() == flags
    ensures loaded.StreamID() == streamID && loaded.TransID() == transID && loaded.OrderID() == orderID
    ensures loaded.Length() == |loaded.b| && loaded.b == body
    ensures |loaded.Datagram()| <= SEGMENT_MAX_SIZE
  {
    var sent := MakeSegment(types, flags, streamID, transID, orderID, body);
    assert sent.h == sent.Datagram()[..HEADER_SIZE] && sent.b == sent.Datagram()[HEADER_SIZE..];
    assert loaded.h == loaded.Datagram()[..HEADER_SIZE] && loaded.b == loaded.Datagram()[HEADER_SIZE..];
    assert loaded == sent;
    assert sent.h[2..4] == PutU16(flags) && sent.h[4..8] == PutU32(streamID) && sent.h[8..10] == PutU16(transID);
    assert sent.h[10..12] == PutU16(orderID) && sent.h[12..14] == PutU16(|body|);
  }
}
