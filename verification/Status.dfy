/** proto/udp/udp.go: the answer to a receive query, on the wire and decoded. */
module Status {
  import opened Bytes
  import opened Segments
  import opened Recving

  const SEND_WINDOW: nat := 64
  const NOT_EXIST: byte := 1
  const COMPLETED: byte := 2
  const NOT_COMPLETED: byte := 3

  datatype Status =
    | NotExist
    | Completed
    | NotCompleted(largest: u16, missing: seq<u16>)
    | Unknown(code: byte)

  datatype StatusError = TooShort

  /** How many missing IDs a reply carries. */
  function ReplyLimit(len: nat, window: nat): nat {
    Min(Min(len, (BODY_MAX_SIZE - 7) / 2), window)
  }

  /** The status a receiver reports for the `msgRecving` in a slot. */
  function StatusOf(recving: Option<Recv>, window: nat): Status {
    match recving
    case None => NotExist
    case Some(r) =>
      if r.completed then Completed
      else var (largest, ml) := r.GetMissing(); NotCompleted(largest, ml[..ReplyLimit(|ml|, window)])
  }

  function IDsBytes(ids: seq<u16>): (b: bytes)
    ensures |b| == 2 * |ids|
  {
    if ids == [] then [] else IDsBytes(ids[..|ids| - 1]) + PutU16(ids[|ids| - 1])
  }

  function StatusBytes(s: Status): bytes {
    match s
    case NotExist => [NOT_EXIST]
    case Completed => [COMPLETED]
    case NotCompleted(largest, missing) => [NOT_COMPLETED] + PutU16(largest) + IDsBytes(missing)
    case Unknown(code) => [code]
  }

  /** The loop that writes the missing IDs into a reply. */
  method StoreIDs(b: array<byte>, at: nat, ids: seq<u16>)
    requires at + 2 * |ids| == b.Length
    modifies b
    ensures b[..] == old(b[..at]) + IDsBytes(ids)
  {
    ghost var head := b[..at];
    for i := 0 to |ids|
      invariant b[..at + i * 2] == head + IDsBytes(ids[..i])
    {
      StoreU16(b, at + i * 2, ids[i]);
      assert ids[..i + 1][..i] == ids[..i];
    }
    assert ids[..|ids|] == ids && b[..] == b[..at + |ids| * 2];
  }

  /** Fill the body of a not-completed reply in place. */
  method NotCompletedBody(id: bytes, largest: u16, ids: seq<u16>) returns (body: bytes)
    requires |id| == 4
    ensures body == id + StatusBytes(NotCompleted(largest, ids))
  {
    var b := new byte[7 + |ids| * 2];
    forall i | 0 <= i < 4 { b[i] := id[i]; }
    b[4] := NOT_COMPLETED;
    assert b[..5] == id + [NOT_COMPLETED];
    StoreU16(b, 5, largest);
    hide PutU16;
    ghost var head := b[..7];
    assert head == (id + [NOT_COMPLETED]) + PutU16(largest) == id + ([NOT_COMPLETED] + PutU16(largest));
    StoreIDs(b, 7, ids);
    body := b[..];
    assert body == head + IDsBytes(ids);
  }

  /** The reply body of `handleReqQueryReceive` and `responseQueryReceive`: the request ID is copied
      from the request, the status follows. */
  method ReplyBody(request: bytes, recving: MsgRecving?, window: nat) returns (body: bytes)
    requires |request| >= 4
    ensures body == request[..4]
              + StatusBytes(StatusOf(if recving == null then None else Some(recving.View()), window))
  {
    if recving == null {
      return request[..4] + [NOT_EXIST];
    }
    var done := recving.IsCompleted();
    if done {
      return request[..4] + [COMPLETED];
    }
    var largest, ml := recving.GetMissing();
    var max := |ml|;
    if max > (BODY_MAX_SIZE - 7) / 2 {
      max := (BODY_MAX_SIZE - 7) / 2;
    }
    if max > window {
      max := window;
    }
    body := NotCompletedBody(request[..4], largest, ml[..max]);
  }

  function DecodeIDs(res: bytes, count: nat): (ids: seq<u16>)
    requires |res| >= 3 + 2 * count
    ensures |ids| == count
  {
    if count == 0 then []
    else DecodeIDs(res, count - 1) + [GetU16(res[1 + 2 * count..3 + 2 * count])]
  }

  function DecodeStatus(res: bytes): Result<Status, StatusError>
    requires |res| >= 1
  {
    if res[0] == COMPLETED then Ok(Completed)
    else if res[0] == NOT_EXIST then Ok(NotExist)
    else if |res| < 3 then Err(TooShort)
    else if res[0] == NOT_COMPLETED then
      Ok(NotCompleted(GetU16(res[1..3]), DecodeIDs(res, (|res| - 3) / 2)))
    else Ok(Unknown(res[0]))
  }

  /** The part of `queryMsgReceive` that reads a reply off the request's channel. */
  method ReadStatus(res: bytes) returns (r: Result<Status, StatusError>)
    requires |res| >= 1
    ensures r == DecodeStatus(res)
  {
    var status := res[0];
    if status == COMPLETED {
      return Ok(Completed);
    }
    if status == NOT_EXIST {
      return Ok(NotExist);
    }
    if |res| < 3 {
      return Err(TooShort);
    }
    var largest := GetU16(res[1..3]);
    var missing: seq<u16> := [];
    for j := 0 to (|res| - 3) / 2
      invariant missing == DecodeIDs(res, j)
    {
      missing := missing + [GetU16(res[3 + j * 2..3 + j * 2 + 2])];
    }
    return if status == NOT_COMPLETED then Ok(NotCompleted(largest, missing)) else Ok(Unknown(status));
  }

  lemma {:induction false} DecodeReadsPrefix(res: bytes, more: bytes, count: nat)
    requires |res| >= 3 + 2 * count
    ensures DecodeIDs(res + more, count) == DecodeIDs(res, count)
  {
    if count > 0 {
      DecodeReadsPrefix(res, more, count - 1);
      assert (res + more)[1 + 2 * count..3 + 2 * count] == res[1 + 2 * count..3 + 2 * count];
    }
  }

  lemma {:induction false} DecodeIDsBytes(head: bytes, ids: seq<u16>)
    requires |head| == 3
    ensures DecodeIDs(head + IDsBytes(ids), |ids|) == ids
  {
    if ids != [] {
      var n := |ids| - 1;
      var init, last := ids[..n], PutU16(ids[n]);
      var res := head + IDsBytes(init);
      DecodeIDsBytes(head, init);
      DecodeReadsPrefix(res, last, n);
      assert head + IDsBytes(ids) == res + last;
      assert (res + last)[3 + 2 * n..5 + 2 * n] == last;
      calc {
        DecodeIDs(res + last, |ids|);
        DecodeIDs(res + last, n) + [GetU16(last)];
        init + [ids[n]];
        ids;
      }
    }
  }

  lemma NotCompletedRoundTrip(largest: u16, missing: seq<u16>)
    ensures var s := NotCompleted(largest, missing);
            DecodeStatus(StatusBytes(s)) == Ok(s) && |StatusBytes(s)| == 3 + 2 * |missing|
  {
    var head, s := [NOT_COMPLETED] + PutU16(largest), NotCompleted(largest, missing);
    DecodeIDsBytes(head, missing);
    assert StatusBytes(s) == head + IDsBytes(missing);
    assert StatusBytes(s)[1..3] == PutU16(largest);
    hide IDsBytes, DecodeIDs;
  }

  /** The sender decodes exactly the receiver's status: its largest ID and the first 64 missing IDs
      in order; and the reply always fits one segment. */
  lemma StatusRoundTrip(recving: Option<Recv>, window: nat)
    ensures DecodeStatus(StatusBytes(StatusOf(recving, window))) == Ok(StatusOf(recving, window))
    ensures 4 + |StatusBytes(StatusOf(recving, window))| <= BODY_MAX_SIZE
    ensures !StatusOf(recving, window).Unknown?
  {
    var s := StatusOf(recving, window);
    if s.NotCompleted? {
      NotCompletedRoundTrip(s.largest, s.missing);
      hide DecodeStatus, StatusBytes;
    }
  }
}
