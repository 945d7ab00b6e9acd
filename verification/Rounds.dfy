/** proto/udp/udp.go, `SendMsg`: what one pass of the sending loop writes. */
module Rounds {
  import opened Bytes
  import opened Segments
  import opened Sending

  /** Where a pass ends: query again at once, wait for the acknowledgement, or return an error. */
  datatype After = ToQuery | ToWait | ToError

  datatype Round = Round(ids: seq<int>, after: After)

  function Cut(all: seq<int>, window: nat): Round {
    if |all| > window then Round(all[..window], ToQuery) else Round(all, ToWait)
  }

  /** The whole message from the start, when nothing is known of the receiver. */
  function FullRound(count: nat, window: nat): Round { Cut(Range(0, count), window) }

  /** The position of the first missing ID that the message does not have. */
  function FirstTooLarge(missing: seq<u16>, count: nat): (k: nat)
    ensures k <= |missing|
    ensures forall j :: 0 <= j < k ==> missing[j] < count
    ensures k < |missing| ==> missing[k] >= count
  {
    if missing == [] || missing[0] >= count then 0 else 1 + FirstTooLarge(missing[1..], count)
  }

  /** The missing segments, then those past the largest ID the receiver has. */
  function ResendRound(largest: u16, missing: seq<u16>, count: nat, window: nat): Round {
    var k := FirstTooLarge(missing, count);
    if k == |missing| then Cut(missing + Range(ToU16(largest + 1), count), window)
    else if k < window then Round(missing[..k], ToError)
    else Round(missing[..window], ToQuery)
  }

  ghost predicate AreSegments(s: MsgSending, segs: seq<Segment>, ids: seq<int>) {
    |segs| == |ids| && forall i :: 0 <= i < |ids| ==> 0 <= ids[i] < U16_SIZE && segs[i] == s.Nth(ids[i])
  }

  /** The loop over `IterBufferd`. The segments are returned in the order they are written. */
  method SendFull(s: MsgSending, window: nat) returns (sent: seq<Segment>, after: After)
    requires 0 < |s.message| <= MAX_MSG_SIZE + 4
    ensures AreSegments(s, sent, FullRound(SegmentCount(s.message), window).ids)
    ensures after == FullRound(SegmentCount(s.message), window).after
  {
    var remain := window;
    var segs := s.IterBuffered();
    sent := [];
    for i := 0 to |segs|
      invariant i + remain == window && remain >= 0 && sent == segs[..i]
    {
      if remain <= 0 {
        return sent, ToQuery;
      }
      sent := sent + [segs[i]];
      remain := remain - 1;
    }
    return sent, ToWait;
  }

  /** The loop over the missing IDs of a not-completed status; `stop` when it leaves the pass. */
  method ResendMissing(s: MsgSending, missing: seq<u16>, window: nat)
    returns (sent: seq<Segment>, remain: nat, stop: Option<After>)
    requires 0 < |s.message| <= MAX_MSG_SIZE + 4
    ensures var k := FirstTooLarge(missing, SegmentCount(s.message));
            && |sent| == Min(k, window) && remain == window - |sent|
            && AreSegments(s, sent, missing[..|sent|])
            && stop == if window < |missing| && window <= k then Some(ToQuery)
                       else if k < |missing| then Some(ToError) else None
  {
    hide MsgSending.Nth;
    CountIsExact(s.message);
    var maxOrderID := SegmentCount(s.message) - 1;
    remain, sent := window, [];
    for i := 0 to |missing|
      invariant i <= FirstTooLarge(missing, SegmentCount(s.message))
      invariant i + remain == window && AreSegments(s, sent, missing[..i])
    {
      if remain <= 0 {
        return sent, remain, Some(ToQuery);
      }
      if missing[i] > maxOrderID {
        return sent, remain, Some(ToError);
      }
      var seg := s.GetSegmentByOrderID(missing[i]);
      sent := sent + [seg];
      remain := remain - 1;
    }
    return sent, remain, None;
  }

  /** The loop over the IDs past the largest. */
  method ResendRest(s: MsgSending, start: u16, window: nat) returns (sent: seq<Segment>, after: After)
    requires 0 < |s.message| <= MAX_MSG_SIZE + 4
    ensures AreSegments(s, sent, Cut(Range(start, SegmentCount(s.message)), window).ids)
    ensures after == Cut(Range(start, SegmentCount(s.message)), window).after
  {
    hide MsgSending.Nth;
    CountIsExact(s.message);
    var maxOrderID := SegmentCount(s.message) - 1;
    var remain := window;
    sent := [];
    var orderID: int := start;
    while orderID <= maxOrderID
      invariant start <= orderID && (orderID <= maxOrderID + 1 || orderID == start)
      invariant orderID - start + remain == window && 0 <= remain
      invariant AreSegments(s, sent, Range(start, orderID))
    {
      if remain <= 0 {
        return sent, ToQuery;
      }
      var seg := s.GetSegmentByOrderID(orderID);
      sent := sent + [seg];
      remain := remain - 1;
      orderID := orderID + 1;
    }
    return sent, ToWait;
  }

  /** A window that the first IDs do not use up is left to the others. */
  lemma CutAfter(ids: seq<int>, more: seq<int>, window: nat)
    ensures |ids| <= window ==>
              var rest := Cut(more, window - |ids|); Cut(ids + more, window) == Round(ids + rest.ids, rest.after)
    ensures |ids| > window ==> Cut(ids + more, window) == Round(ids[..window], ToQuery)
  {
  }

  lemma JoinSegments(s: MsgSending, a: seq<Segment>, b: seq<Segment>, ids: seq<int>, more: seq<int>)
    requires AreSegments(s, a, ids) && AreSegments(s, b, more)
    ensures AreSegments(s, a + b, ids + more)
  {
    hide MsgSending.Nth;
  }

  /** The two loops over a not-completed status. */
  method Resend(s: MsgSending, largest: u16, missing: seq<u16>, window: nat)
    returns (sent: seq<Segment>, after: After)
    requires 0 < |s.message| <= MAX_MSG_SIZE + 4
    ensures AreSegments(s, sent, ResendRound(largest, missing, SegmentCount(s.message), window).ids)
    ensures after == ResendRound(largest, missing, SegmentCount(s.message), window).after
  {
    hide MsgSending.Nth, SegmentCount, AreSegments, Cut;
    var first, remain, stop := ResendMissing(s, missing, window);
    ghost var more := Range(ToU16(largest + 1), SegmentCount(s.message));
    CutAfter(missing, more, window);
    if stop.Some? {
      return first, stop.value;
    }
    var rest: seq<Segment>;
    rest, after := ResendRest(s, ToU16(largest + 1), remain);
    sent := first + rest;
    assert missing[..|missing|] == missing;
    JoinSegments(s, first, rest, missing, Cut(more, remain).ids);
  }
}
