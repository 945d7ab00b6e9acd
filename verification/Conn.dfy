/** proto/udp/udp.go, `Conn`: the shared state that the datagram handlers and `SendMsg` update. Each
    method is tied to the step of the endpoint that it takes. */
module Conns {
  import opened Bytes
  import opened Segments
  import opened Sending
  import opened Recving
  import opened Status
  import opened Rounds
  import opened Endpoint
  import opened SendPath
  import opened Scripts
  import IdPool

  datatype HandleError = TransIDTooLarge | InvalidRequest | UnknownRequest

  const STATUS_UNKNOWN_TYPE: byte := 0

  datatype Waited = Acked | TimedOut | Down

  /** The datagram a transfer or query segment stands for. */
  function AsTrans(seg: Segment): Packet
    requires seg.HasHeader()
  {
    Trans(seg.TransID(), seg.OrderID(), seg.b)
  }

  ghost predicate Distinct(rl: seq<MsgRecving?>) {
    forall i, j :: 0 <= i < j < |rl| && rl[i] != null ==> rl[i] != rl[j]
  }

  ghost function ViewOf(recving: MsgRecving?): Option<Recv>
    reads recving
  {
    if recving == null then None else Some(recving.View())
  }

  ghost function Views(rl: seq<MsgRecving?>): (views: seq<Option<Recv>>)
    reads rl
    ensures |views| == |rl| && forall i :: 0 <= i < |rl| ==> views[i] == ViewOf(rl[i])
  {
    if rl == [] then [] else Views(rl[..|rl| - 1]) + [ViewOf(rl[|rl| - 1])]
  }

  /** Of the calls, only c, the latest, has moved, and it still sends the same message. */
  ghost predicate OnlyCall(s: Sender, s': Sender, c: nat) {
    c < |s.calls| == |s'.calls| && s'.calls[..c] == s.calls[..c] && s'.calls[c].message == s.calls[c].message
  }

  /** Call c has returned and its slot is free. */
  ghost predicate IsDone(s: Sender, s': Sender, c: nat, k: u16, ok: bool) {
    && WellShaped(s') && s'.stuck == s.stuck && OnlyCall(s, s', c) && s'.calls[c].pc == Returned(ok)
    && k < |s'.sl| && s'.sl[k].None?
  }

  /** What a pass leaves behind: call c about to query or waiting, or returned. */
  ghost predicate Leaves(s: Sender, s': Sender, c: nat, k: u16, message: bytes, cut: bool,
                         stop: Option<Result<(), SendError>>)
  {
    && OnlyCall(s, s', c)
    && (stop.None? ==> At(s', c, k, message) && s'.calls[c].pc == if cut then Asking else Waiting)
    && (stop.Some? ==> IsDone(s, s', c, k, stop.value.Ok?))
  }

  /** What the script has told call c so far, which the run began. */
  ghost predicate Heard(script: seq<Happening>, at: nat, p: Path, c: nat) {
    at <= |script| && |p.start.calls| <= c && Told(script[..at], NewsOf(p.moves)) && OnTime(NewsOf(p.moves))
  }

  /** The same after a pass; the second that ended its wait is still to be taken in. */
  ghost predicate HeardPass(script: seq<Happening>, at: nat, p: Path, c: nat, waited: bool) {
    if waited then 0 < at <= |script| && script[at - 1].Elapsed? && Heard(script, at - 1, p, c)
    else Heard(script, at, p, c)
  }

  /** How a wait for the acknowledgement ends. */
  ghost predicate WaitEnds(script: seq<Happening>, at: nat, at': nat, woken: bool, w: Waited) {
    if woken then at' == at && w == Acked
    else if at >= |script| || script[at].Replied? then at' == at && w == Down
    else at' == at + 1 && w == match script[at]
                               case Acknowledged => Acked
                               case Elapsed => TimedOut
                               case _ => Down
  }

  /** How a pass ends that is not to go on: see `WritePass`. */
  ghost predicate PassStops(script: seq<Happening>, at: nat, at': nat, failed: bool, after: After,
                            r: Result<(), SendError>)
  {
    match r
    case Ok(_) => after.ToWait? && at <= at' && !failed
    case Err(WriteFailed) => failed && at' == at + 1
    case Err(OrderIDTooLarge) => after.ToError? && at' == at && !failed
    case Err(Shutdown) => after.ToWait? && WaitEnds(script, at, at', false, Down) && !failed
    case _ => false
  }

  /** How a pass ends, `failed` when a write in it did. */
  ghost predicate PassEnds(script: seq<Happening>, at: nat, at': nat, failed: bool, after: After,
                           stop: Option<Result<(), SendError>>)
  {
    && at <= at' <= |script| && (stop == Some(Err(WriteFailed)) <==> failed)
    && (stop.None? ==>
          !after.ToError? && if after.ToQuery? then at' == at else WaitEnds(script, at, at', false, TimedOut))
    && (stop.Some? ==> PassStops(script, at, at', failed, after, stop.value))
  }

  /** What it leaves behind: call c about to query or waiting, or returned. */
  ghost predicate PassLeaves(script: seq<Happening>, at: nat, p: Path, p': Path, c: nat, k: u16, message: bytes,
                             cut: bool, stop: Option<Result<(), SendError>>)
  {
    && Asks(p') == Asks(p) && Leaves(p.s, p'.s, c, k, message, cut, stop)
    && if stop.None? then HeardPass(script, at, p', c, !cut) else Heard(script, at, p', c)
  }

  /** A write fails in a pass of n segments that heeds it. */
  predicate Fails(script: seq<Happening>, at: nat, whole: bool, n: nat) {
    whole && at < |script| && script[at].WriteFails? && script[at].after < n
  }

  /** How many queries the run has begun. */
  ghost function Asks(p: Path): nat { CountAsked(NewsOf(p.moves)) }

  /** The next happening has been taken in. */
  lemma HeardNext(script: seq<Happening>, at: nat, p: Path, p': Path, c: nat, more: seq<News>)
    requires Heard(script, at, p, c) && at < |script| && p'.start == p.start
    requires NewsOf(p'.moves) == NewsOf(p.moves) + more && Adds(script[at], NewsOf(p.moves), more)
    requires more == [WaitOver] ==> Asks(p) < SEND_MSG_MAX_TIMES - 1
    ensures Heard(script, at + 1, p', c) && Asks(p') == Asks(p)
  {
    OnTimeMore(NewsOf(p.moves), more);
    ToldNext(script, at, NewsOf(p.moves), more);
    if more == [] { assert NewsOf(p.moves) + [] == NewsOf(p.moves); } else { CountMore(NewsOf(p.moves), more[0]); }
  }

  lemma HeardSame(script: seq<Happening>, at: nat, p: Path, p': Path, c: nat)
    requires Heard(script, at, p, c) && p'.start == p.start && NewsOf(p'.moves) == NewsOf(p.moves)
    ensures Heard(script, at, p', c) && Asks(p') == Asks(p)
  {
  }

  /** The connection goes down, at the end of the script or at a happening that brings no news. */
  lemma HeardDown(script: seq<Happening>, at: nat, p: Path, p': Path, c: nat)
    requires Heard(script, at, p, c) && p'.start == p.start && NewsOf(p'.moves) == NewsOf(p.moves)
    requires at < |script| ==> script[at].Expired? || script[at].WriteFails? || script[at].Closed?
    ensures Heard(script, if at == |script| then at else at + 1, p', c) && Asks(p') == Asks(p)
  {
    if at < |script| {
      assert NewsOf(p.moves) + [] == NewsOf(p.moves);
      HeardNext(script, at, p, p', c, []);
    }
  }

  lemma HearsAck(script: seq<Happening>, at: nat, p: Path, p': Path, c: nat, acked: bool)
    requires Heard(script, at, p, c) && at < |script| && script[at].Acknowledged? && p'.start == p.start
    requires NewsOf(p'.moves) == NewsOf(p.moves) + if acked then [] else [Ack]
    requires acked ==> Ack in NewsOf(p.moves)
    ensures Heard(script, at + 1, p', c) && Asks(p') == Asks(p)
  {
    assert NewsOf(p.moves) + [] == NewsOf(p.moves);
    HeardNext(script, at, p, p', c, if acked then [] else [Ack]);
  }

  lemma EndsAtOnce(script: seq<Happening>, at: nat, r: Result<Status, SendError>)
    requires at < |script| && script[at].WriteFails? && r == Err(WriteFailed)
    ensures QueryEnds(script, at, at + 1, r) && QueriesWritten(script, at, at + 1, r) == 0
  {
    assert CountElapsed(script, at, at) == 0;
  }

  lemma NothingHappened(script: seq<Happening>, at: nat)
    requires at <= |script|
    ensures Quiet(script, at, at) && CountElapsed(script, at, at) == 0
  {
  }

  /** The last happening was that a second passed. */
  ghost predicate EndsSecond(script: seq<Happening>, at: nat) { 0 < at <= |script| && script[at - 1].Elapsed? }

  /** After any acknowledgements, from `at` to `mid`, one second is waited for. */
  lemma OnceEnds(script: seq<Happening>, at: nat, mid: nat, at': nat, r: Option<Result<Status, SendError>>)
    requires Quiet(script, at, mid) && CountElapsed(script, at, mid) == 0
    requires mid < |script| ==> !script[mid].Acknowledged? && (mid == at ==> !script[mid].WriteFails?)
    requires if mid == |script| then at' == mid && r == Some(Err(Shutdown)) else
               at' == mid + 1 && r == (match script[mid]
                                       case Elapsed => None
                                       case Replied(code, rest) => Some(Decoded(code, rest))
                                       case Expired => Some(Err(Timeout))
                                       case _ => Some(Err(Shutdown)))
    ensures at <= at' <= |script|
    ensures r == None ==> Quiet(script, at, at') && CountElapsed(script, at, at') == 1 && EndsSecond(script, at')
    ensures r != None ==> QueryEnds(script, at, at', r.value) && r != Some(Err(TooManyQueries))
    ensures r != None ==> QueriesWritten(script, at, at', r.value) == 1
  {
    hide DecodeStatus;
  }

  lemma EndsLater(script: seq<Happening>, at: nat, mid: nat, at': nat, r: Result<Status, SendError>)
    requires Quiet(script, at, mid) && (mid == at || EndsSecond(script, mid))
    requires QueryEnds(script, mid, at', r) && r != Err(TooManyQueries)
    ensures QueryEnds(script, at, at', r)
    ensures QueriesWritten(script, at, at', r) == CountElapsed(script, at, mid) + QueriesWritten(script, mid, at', r)
  {
    ElapsedAdds(script, at, mid, at');
    hide CountElapsed, Decoded;
  }

  lemma EndsAfterAll(script: seq<Happening>, at: nat, at': nat)
    requires Quiet(script, at, at') && CountElapsed(script, at, at') == QUERY_MAX_TIMES
    ensures QueryEnds(script, at, at', Err(TooManyQueries))
    ensures QueriesWritten(script, at, at', Err(TooManyQueries)) == QUERY_MAX_TIMES
  {
  }

  /** Why a pass that a status led to stops with an error. */
  lemma PassErrorIsExplained(script: seq<Happening>, at: nat, mid: nat, at': nat, status: Status,
                             count: nat, r: Result<(), SendError>, asked: nat)
    requires QueryEnds(script, at, mid, Ok(status)) && !status.Completed? && mid <= at' <= |script|
    requires var pass := PassAfter(status, count);
             PassStops(script, mid, at', Fails(script, mid, !status.NotCompleted?, |pass.ids|), pass.after, r)
    requires r.Err?
    ensures Explained(script, at', r.error, count, asked)
  {
    hide DecodeStatus, CountElapsed;
    if status.NotCompleted? {
      var i := FirstTooLarge(status.missing, count);
      assert i < |status.missing| ==> status.missing[i] in status.missing;
    }
  }

  /** How the first pass ends, or goes on. */
  lemma FirstPassIsExplained(script: seq<Happening>, at': nat, count: nat, n: nat, after: After,
                             stop: Option<Result<(), SendError>>)
    requires var pass := FullRound(count, SEND_WINDOW); after == pass.after && n == |pass.ids|
    requires PassEnds(script, 0, at', Fails(script, 0, true, n), after, stop)
    ensures at' <= |script| && (stop.None? && after.ToQuery? ==> AsksNow(script, at', count))
    ensures stop.Some? && stop.value.Err? ==> Explained(script, at', stop.value.error, count, 0)
  {
  }

  lemma TimeoutIsExplained(script: seq<Happening>, at: nat, count: nat, asked: nat)
    requires 0 < at <= |script| && script[at - 1].Elapsed? && asked >= SEND_MSG_MAX_TIMES - 1
    ensures Explained(script, at, Timeout, count, asked)
  {
  }

  lemma NilIsExplained(script: seq<Happening>, used: nat, p: Path, c: nat)
    requires Heard(script, used, p, c) && IsPath(p) && c < |p.s.calls| && p.s.calls[c].pc == Returned(true)
    ensures HasReason(script, used)
  {
    NilHasReason(p.start, p.moves, p.s, p.out, c);
    NewsIsReason(script, used, NewsOf(p.moves));
  }

  lemma HeardAsked(script: seq<Happening>, at: nat, p: Path, p': Path, c: nat)
    requires Heard(script, at, p, c) && p'.start == p.start && NewsOf(p'.moves) == NewsOf(p.moves) + [Asked]
    ensures Heard(script, at, p', c) && Asks(p') == Asks(p) + 1
  {
    OnTimeMore(NewsOf(p.moves), [Asked]);
    ToldAsked(script[..at], NewsOf(p.moves));
    CountMore(NewsOf(p.moves), Asked);
  }

  lemma ElapsedAdds(script: seq<Happening>, from: nat, mid: nat, to: nat)
    requires from <= mid <= to <= |script|
    ensures CountElapsed(script, from, to) == CountElapsed(script, from, mid) + CountElapsed(script, mid, to)
  {
  }

  lemma QuietMore(script: seq<Happening>, from: nat, to: nat, to': nat)
    requires Quiet(script, from, to) && Quiet(script, to, to')
    ensures Quiet(script, from, to')
    ensures CountElapsed(script, from, to') == CountElapsed(script, from, to) + CountElapsed(script, to, to')
  {
    ElapsedAdds(script, from, to, to');
  }

  lemma OnlyCallOn(s: Sender, s': Sender, s'': Sender, c: nat, k: u16)
    requires OnlyCall(s, s', c) && s'.stuck == s.stuck
    ensures OnlyCall(s', s'', c) ==> OnlyCall(s, s'', c)
    ensures forall ok :: IsDone(s', s'', c, k, ok) ==> IsDone(s, s'', c, k, ok) && OnlyCall(s, s'', c)
  {
    hide WellShaped;
  }

  ghost function Concat(pieces: seq<bytes>): bytes {
    if pieces == [] then [] else Concat(pieces[..|pieces| - 1]) + pieces[|pieces| - 1]
  }

  /** Channels are named by the calls that make them, `begun` so far: each has one for its acknowledgement,
      which is in `woken` once that is closed, and one for the reply to a query, which is in `closed` once
      that is, and in `handed` with what was sent on it. `stuck` when `handleRep` has blocked for good: it
      keeps `requestMutex`, and the receive loop that called it handles no further datagram. */
  class Conn {
    const id: u32
    var rl: seq<MsgRecving?>
    var sl: seq<Option<MsgSending>>
    var slWait: map<u16, nat>
    var requests: map<u32, nat>
    var requestID: u32
    var woken: set<nat>
    var closed: set<nat>
    var handed: map<nat, bytes>
    var begun: nat
    var stuck: bool

    ghost predicate Valid()
      reads this
    {
      |rl| == |sl| == SLOTS && Distinct(rl)
    }

    /** The receiving half, as a value. */
    ghost function RL(): RecvList
      reads this, rl
      requires Valid()
    {
      Views(rl)
    }

    /** The sending half agrees with s. Slot k is left open, while the function that frees it is deferred. */
    ghost predicate Mirrors(s: Sender, k: nat)
      reads this
    {
      && requestID == s.requestID && begun == |s.calls| && stuck == s.stuck
      && requests == s.requests && slWait == s.slWait
      && |sl| == |s.sl| == SLOTS && (forall i :: 0 <= i < SLOTS && i != k ==> (sl[i].Some? <==> s.sl[i].Some?))
      && (forall c :: 0 <= c < |s.calls| ==> (c in woken <==> s.calls[c].acked))
      && (forall c :: c in woken ==> c < |s.calls|)
    }

    constructor (id: u32)
      ensures Valid() && RL() == NOTHING_RECEIVED && this.id == id
      ensures sl == [None, None, None, None, None, None, None, None, None, None]
      ensures slWait == map[] && requests == map[] && requestID == begun == 0 && woken == {} && !stuck
    {
      this.id := id;
      rl := [null, null, null, null, null, null, null, null, null, null];
      sl := [None, None, None, None, None, None, None, None, None, None];
      slWait, requests, requestID, begun := map[], map[], 0, 0;
      woken, closed, handed, stuck := {}, {}, map[], false;
    }

    /** `getRecving` and `setRecving` in `handleTrans`: a missing or completed receiver is replaced. */
    method Receiving(slot: u16) returns (recving: MsgRecving)
      requires Valid() && slot < SLOTS
      modifies this`rl
      ensures Valid() && recving == rl[slot] && (recving in old(rl) || fresh(recving))
      ensures rl == old(rl)[slot := recving]
      ensures recving.View() == Current(old(RL())[slot]) && RL() == old(RL())[slot := Some(recving.View())]
    {
      var current := rl[slot];
      var done := false;
      if current != null {
        done := current.IsCompleted();
      }
      if current == null || done {
        recving := new MsgRecving();
        rl := rl[slot := recving];
      } else {
        recving := current;
      }
    }

    /** `Save` into the receiver of one slot: the other slots stay as they are. */
    method SaveInto(slot: u16, recving: MsgRecving, seg: Segment) returns (msg: Option<bytes>)
      requires Valid() && slot < SLOTS && recving == rl[slot]
      requires seg.HasHeader() && recving.View().CanSave(seg.OrderID(), seg.b)
      modifies recving
      ensures Valid() && (recving.View(), msg) == old(recving.View()).Save(seg.OrderID(), seg.b)
      ensures RL() == old(RL())[slot := Some(recving.View())]
    {
      msg := recving.Save(seg);
    }

    /** `handleTrans`: save the segment in its slot's receiver, or in a new one; a completed message
        goes to `inbound` and is acknowledged. */
    method HandleTrans(seg: Segment) returns (r: Result<Option<Segment>, HandleError>, inbound: Option<bytes>)
      requires Valid() && seg.HasHeader()
      requires seg.TransID() < SLOTS ==> Current(RL()[seg.TransID()]).CanSave(seg.OrderID(), seg.b)
      modifies this`rl, rl
      ensures Valid() && fresh(set x | x in rl && x !in old(rl))
      ensures r.Ok? <==> seg.TransID() < SLOTS
      ensures RL() == old(AfterRequest(RL(), AsTrans(seg)))
      ensures inbound == old(Delivered(RL(), AsTrans(seg)))
      ensures r.Ok? ==> r.value == if inbound.Some? then Some(MakeSegment(TYPE_RECEIVED, 0, id, seg.TransID(), 0, []))
                                   else None
    {
      hide Distinct, Recv.Save, Current;
      var transID := seg.TransID();
      if transID >= SLOTS {
        return Err(TransIDTooLarge), None;
      }
      var recving := Receiving(transID);
      inbound := SaveInto(transID, recving, seg);
      if inbound.Some? {
        var ack := NewSegment(TYPE_RECEIVED, 0, id, transID, 0, []);
        return Ok(Some(ack.value)), inbound;
      }
      return Ok(None), inbound;
    }

    /** `handleReqQueryReceive`: report the status of the slot; nothing changes. */
    method HandleQuery(seg: Segment) returns (r: Result<Segment, HandleError>)
      requires Valid() && seg.HasHeader() && |seg.b| >= 5
      ensures r.Ok? <==> seg.TransID() < SLOTS
      ensures r.Ok? ==>
                var body := seg.b[..4] + StatusBytes(StatusOf(RL()[seg.TransID()], SEND_WINDOW));
                |body| <= BODY_MAX_SIZE && r.value == MakeSegment(TYPE_REP, 0, id, seg.TransID(), 0, body)
    {
      if seg.TransID() >= SLOTS {
        return Err(TransIDTooLarge);
      }
      StatusRoundTrip(RL()[seg.TransID()], SEND_WINDOW);
      var body := ReplyBody(seg.b, rl[seg.TransID()], SEND_WINDOW);
      var reply := NewSegment(TYPE_REP, 0, id, seg.TransID(), 0, body);
      return Ok(reply.value);
    }

    /** `handleReq`: a request too short for a type is an error, and one of another type is answered so. */
    method HandleReq(seg: Segment) returns (reply: Option<Segment>, error: Option<HandleError>)
      requires Valid() && seg.HasHeader()
      ensures error == if |seg.b| < 5 then Some(InvalidRequest)
                       else if seg.b[4] != QUERY_RECEIVE then Some(UnknownRequest)
                       else if seg.TransID() >= SLOTS then Some(TransIDTooLarge) else None
      ensures reply == if |seg.b| < 5 then None
                       else if seg.b[4] != QUERY_RECEIVE
                       then Some(MakeSegment(TYPE_REP, 0, seg.StreamID(), 0, 0, [STATUS_UNKNOWN_TYPE]))
                       else if seg.TransID() >= SLOTS then None
                       else
                         var body := seg.b[..4] + StatusBytes(StatusOf(RL()[seg.TransID()], SEND_WINDOW));
                         if |body| > BODY_MAX_SIZE then None
                         else Some(MakeSegment(TYPE_REP, 0, id, seg.TransID(), 0, body))
      ensures error.None? ==> reply.Some?
    {
      if |seg.b| < 5 {
        return None, Some(InvalidRequest);
      }
      if seg.b[4] != QUERY_RECEIVE {
        var unknown := NewSegment(TYPE_REP, 0, seg.StreamID(), 0, 0, [STATUS_UNKNOWN_TYPE]);
        return Some(unknown.value), Some(UnknownRequest);
      }
      var r := HandleQuery(seg);
      return if r.Ok? then Some(r.value) else None, if r.Ok? then None else Some(TransIDTooLarge);
    }

    /** `handleRep`: hand the body to the request's channel, once. The channel has no buffer: if nothing
        will receive from it, this never returns, and no datagram is handled after this one. */
    method HandleRep(seg: Segment, receiving: bool)
      requires |seg.b| >= 4 && !stuck
      modifies this`requests, this`closed, this`handed, this`stuck
      ensures var i := GetU32(seg.b[..4]);
              && (stuck <==> i in old(requests) && !receiving)
              && if i in old(requests) && receiving
                 then requests == old(requests) - {i} && closed == old(closed) + {old(requests)[i]}
                      && handed == old(handed)[old(requests)[i] := seg.b[4..]]
                 else requests == old(requests) && closed == old(closed) && handed == old(handed)
    {
      var i := GetU32(seg.b[0..4]);
      assert seg.b[0..4] == seg.b[..4];
      if i in requests {
        if !receiving {
          stuck := true;
          return;
        }
        var ch := requests[i];
        handed := handed[ch := seg.b[4..]];
        requests := requests - {i};
        closed := closed + {ch};
      }
    }

    /** The reply to a query whose call has returned an error and left its ID pending: what `handleRep`
        then does is the endpoint's step. */
    method LateReply(seg: Segment, status: Status, ghost s: Sender)
      requires WellShaped(s) && Mirrors(s, SLOTS) && |seg.b| >= 4 && !stuck
      requires var i := GetU32(seg.b[..4]); i in requests && s.calls[s.requests[i]].pc.Returned?
      modifies this`requests, this`closed, this`handed, this`stuck
      ensures stuck && Mirrors(OnReply(s, GetU32(seg.b[..4]), status), SLOTS)
      ensures requests == old(requests)
    {
      HandleRep(seg, false);
    }

    /** `handleReceived`: close the channel of the call that waits on the slot, once. */
    method HandleReceived(seg: Segment)
      requires seg.HasHeader() && !stuck
      modifies this`slWait, this`woken
      ensures var k := seg.TransID();
              && slWait == old(slWait) - {k}
              && woken == if k in old(slWait) then old(woken) + {old(slWait)[k]} else old(woken)
    {
      var transID := seg.TransID();
      if transID in slWait {
        woken := woken + {slWait[transID]};
        slWait := slWait - {transID};
      }
      assert slWait == old(slWait) - {transID};
    }

    /** The slot search of `SendMsg`: the first free slot is taken, or none if all ten are in use. */
    method TakeSlot(message: bytes) returns (sending: Option<MsgSending>)
      requires Valid()
      modifies this`sl
      ensures Valid() && rl == old(rl)
      ensures var k := FreeSlot(old(sl));
              && (sending.Some? <==> k < SLOTS)
              && (sending.None? ==> sl == old(sl))
              && (sending.Some? ==> sending.value == MsgSending.New(TYPE_TRANS, 0, id, k, message)
                                    && sl == old(sl)[k := sending])
    {
      sending := None;
      for i := 0 to |sl|
        invariant sl == old(sl) && sending.None?
        invariant FreeSlot(sl) >= i
      {
        if sl[i].None? {
          FreeSlotIs(sl, i);
          sending := Some(MsgSending.New(TYPE_TRANS, 0, id, i, message));
          sl := sl[i := sending];
          break;
        }
      }
    }

    /** One pass of `SendMsg` after a query: the segments written, in order, and where it goes next;
        nothing is written, and the call is done, when the receiver has completed the message. */
    method SendPass(sending: MsgSending, status: Status) returns (sent: seq<Segment>, after: Option<After>)
      requires 0 < |sending.message| <= MAX_MSG_SIZE + 4
      ensures status.Completed? ==> sent == [] && after.None?
      ensures !status.Completed? ==>
                var pass := PassAfter(status, SegmentCount(sending.message));
                AreSegments(sending, sent, pass.ids) && |sent| == |pass.ids| && after == Some(pass.after)
    {
      hide MsgSending.Nth, SegmentCount;
      var next: After;
      match status {
        case Completed => return [], None;
        case NotCompleted(largest, missing) => sent, next := Resend(sending, largest, missing, SEND_WINDOW);
        case _ => sent, next := SendFull(sending, SEND_WINDOW);
      }
      after := Some(next);
    }

    /** A query's channel yields a reply: `handleRep` has put it there. */
    method TakeReply(c: nat, id: u32, body: bytes, ghost k: u16, ghost message: bytes, ghost p: Path)
      returns (r: Result<Status, SendError>, ghost p': Path)
      requires IsPath(p) && At(p.s, c, k, message) && p.s.calls[c].pc == Querying(id) && Mirrors(p.s, k)
      requires id in requests && requests[id] == c && body != []
      modifies this`requests, this`closed, this`handed, this`stuck
      ensures !stuck && requests == old(requests) - {id}
      ensures r == Decoded(body[0], body[1..])
      ensures IsPath(p') && p'.start == p.start && p'.out == p.out && Mirrors(p'.s, k)
      ensures NewsOf(p'.moves) == NewsOf(p.moves) + if r.Ok? then [Answer(r.value)] else []
      ensures OnlyCall(p.s, p'.s, c)
      ensures r.Ok? && !r.value.Completed? ==>
                var pass := PassAfter(r.value, SegmentCount(Wire(message)));
                At(p'.s, c, k, message) && p'.s.calls[c].pc == Writing(pass.ids, pass.after)
      ensures r.Err? || r.value.Completed? ==> IsDone(p.s, p'.s, c, k, r.Ok?)
    {
      hide IsPath, PassAfter, SegmentCount, DecodeStatus, NewsOf, Wire;
      var seg := Segment([], PutU32(id) + body);
      assert seg.b[..4] == PutU32(id) && seg.b[4..] == body;
      HandleRep(seg, true);
      assert body == [body[0]] + body[1..];
      var status := ReadStatus(handed[c]);
      hide WellShaped;
      if status.Err? {
        p' := FailPath(p, c, k, message, true);
        return Err(BadReply), p';
      }
      p' := ReplyPath(p, c, k, message, id, status.value);
      r := Ok(status.value);
    }

    /** The long timer of a query: it is no longer pending. */
    method ExpireQuery(c: nat, id: u32, k: u16, ghost message: bytes, ghost p: Path) returns (ghost p': Path)
      requires IsPath(p) && At(p.s, c, k, message) && p.s.calls[c].pc == Querying(id) && Mirrors(p.s, k)
      requires id in requests
      modifies this`requests, this`closed
      ensures requests == old(requests) - {id} && closed == old(closed) + {old(requests)[id]}
      ensures IsPath(p') && p'.start == p.start && p'.out == p.out && Mirrors(p'.s, k)
      ensures NewsOf(p'.moves) == NewsOf(p.moves) && IsDone(p.s, p'.s, c, k, false)
    {
      requests, closed := requests - {id}, closed + {requests[id]};
      p' := FailPath(p, c, k, message, true);
    }

    /** The acknowledgement of the slot comes while the call is elsewhere, or waits for it: `handleReceived`
        closes the call's channel. A second one finds nothing to close. */
    method TakeAck(c: nat, k: u16, ghost message: bytes, ghost p: Path) returns (ghost p': Path)
      requires IsPath(p) && At(p.s, c, k, message) && Mirrors(p.s, k)
      modifies this`slWait, this`woken
      ensures IsPath(p') && p'.start == p.start && p'.out == p.out && At(p'.s, c, k, message) && Mirrors(p'.s, k)
      ensures OnlyCall(p.s, p'.s, c) && p'.s.calls[c] == p.s.calls[c].(acked := true)
      ensures p'.s.requests == p.s.requests && p'.s.requestID == p.s.requestID
      ensures NewsOf(p'.moves) == NewsOf(p.moves) + if p.s.calls[c].acked then [] else [Ack]
    {
      hide IsPath;
      var ack := NewSegment(TYPE_RECEIVED, 0, id, k, 0, []);
      TransIDOf(ack.value, k);
      HandleReceived(ack.value);
      p' := p;
      if !p.s.calls[c].acked {
        p' := AckPath(p, c, k, message);
      }
    }

    /** The script's next happening is an acknowledgement. */
    method HearAck(c: nat, k: u16, script: seq<Happening>, at: nat, ghost message: bytes, ghost p: Path)
      returns (ghost p': Path)
      requires IsPath(p) && At(p.s, c, k, message) && Mirrors(p.s, k) && Heard(script, at, p, c)
      requires at < |script| && script[at].Acknowledged?
      modifies this`slWait, this`woken
      ensures IsPath(p') && p'.start == p.start && p'.out == p.out && At(p'.s, c, k, message) && Mirrors(p'.s, k)
      ensures OnlyCall(p.s, p'.s, c) && p'.s.calls[c] == p.s.calls[c].(acked := true)
      ensures p'.s.requests == p.s.requests && Heard(script, at + 1, p', c) && Asks(p') == Asks(p)
    {
      p' := TakeAck(c, k, message, p);
      if p.s.calls[c].acked { NilHasReason(p.start, p.moves, p.s, p.out, c); }
      hide IsPath, Mirrors, At, NewsOf, Asks;
      HearsAck(script, at, p, p', c, p.s.calls[c].acked);
    }

    /** Acknowledgements that come while a query waits: the query goes on waiting. */
    method TakeAcks(c: nat, k: u16, script: seq<Happening>, at: nat, ghost message: bytes, ghost p: Path)
      returns (at': nat, ghost p': Path)
      requires IsPath(p) && At(p.s, c, k, message) && Mirrors(p.s, k) && Heard(script, at, p, c)
      modifies this`slWait, this`woken
      ensures at <= at' <= |script| && (at' < |script| ==> !script[at'].Acknowledged?)
      ensures Heard(script, at', p', c) && Quiet(script, at, at') && CountElapsed(script, at, at') == 0
      ensures Asks(p') == Asks(p)
      ensures IsPath(p') && p'.start == p.start && p'.out == p.out && At(p'.s, c, k, message) && Mirrors(p'.s, k)
      ensures OnlyCall(p.s, p'.s, c) && p'.s.calls[c].pc == p.s.calls[c].pc && p'.s.requests == p.s.requests
    {
      assert at <= |script|;
      hide IsPath, Mirrors, Heard, Asks, NewsOf;
      at', p' := at, p;
      while at' < |script| && script[at'].Acknowledged?
        invariant at <= at' <= |script|
        invariant Heard(script, at', p', c) && Quiet(script, at, at') && CountElapsed(script, at, at') == 0
        invariant Asks(p') == Asks(p)
        invariant IsPath(p') && p'.start == p.start && p'.out == p.out && At(p'.s, c, k, message) && Mirrors(p'.s, k)
        invariant OnlyCall(p.s, p'.s, c) && p'.s.calls[c].pc == p.s.calls[c].pc && p'.s.requests == p.s.requests
      {
        ghost var q := p';
        p' := HearAck(c, k, script, at', message, q);
        at' := at' + 1;
      }
    }

    /** What ends one second of waiting for a reply; None when nothing did. */
    method AwaitOnce(c: nat, id: u32, script: seq<Happening>, at: nat, k: u16, ghost message: bytes, ghost p: Path)
      returns (r: Option<Result<Status, SendError>>, at': nat, ghost p': Path)
      requires IsPath(p) && At(p.s, c, k, message) && p.s.calls[c].pc == Querying(id) && Mirrors(p.s, k)
      requires id in requests && requests[id] == c && Heard(script, at, p, c)
      requires at < |script| ==> !script[at].Acknowledged?
      modifies this`requests, this`closed, this`handed, this`stuck
      ensures if at == |script| then at' == at && r == Some(Err(Shutdown)) else
                at' == at + 1 && r == (match script[at]
                                       case Elapsed => None
                                       case Replied(code, rest) => Some(Decoded(code, rest))
                                       case Expired => Some(Err(Timeout))
                                       case _ => Some(Err(Shutdown)))
      ensures Heard(script, at', p', c) && Asks(p') == Asks(p)
      ensures IsPath(p') && p'.start == p.start && p'.out == p.out && Mirrors(p'.s, k) && OnlyCall(p.s, p'.s, c)
      ensures r == None ==> p'.s == p.s && requests == old(requests)
      ensures r != None && r.value.Ok? ==> requests == old(requests) - {id}
      ensures r != None && r.value.Ok? && !r.value.value.Completed? ==>
                var pass := PassAfter(r.value.value, SegmentCount(Wire(message)));
                At(p'.s, c, k, message) && p'.s.calls[c].pc == Writing(pass.ids, pass.after)
      ensures r != None && (r.value.Err? || r.value.value.Completed?) ==> IsDone(p.s, p'.s, c, k, r.value.Ok?)
    {
      hide IsPath, PassAfter, SegmentCount, Mirrors, Heard, Asks, NewsOf, Decoded;
      at', p' := at, p;
      if at' < |script| {
        at' := at' + 1;
        match script[at' - 1] {
          case Elapsed =>
            HeardNext(script, at, p, p, c, []) by { assert NewsOf(p.moves) + [] == NewsOf(p.moves); }
            return None, at', p';
          case Replied(code, rest) =>
            var status;
            status, p' := TakeReply(c, id, [code] + rest, k, message, p);
            assert [code] + rest == [([code] + rest)[0]] + ([code] + rest)[1..] && ([code] + rest)[1..] == rest;
            HeardNext(script, at, p, p', c, if status.Ok? then [Answer(status.value)] else []);
            return Some(status), at', p';
          case Expired =>
            p' := ExpireQuery(c, id, k, message, p);
            HeardNext(script, at, p, p', c, []) by { assert NewsOf(p.moves) + [] == NewsOf(p.moves); }
            return Some(Err(Timeout)), at', p';
          case _ =>
        }
      }
      p' := FailQuery(c, k, message, p);
      HeardDown(script, at, p, p', c);
      return Some(Err(Shutdown)), at', p';
    }

    /** The call returns an error and leaves its query pending. */
    ghost method FailQuery(c: nat, k: u16, message: bytes, p: Path) returns (p': Path)
      requires IsPath(p) && At(p.s, c, k, message) && p.s.calls[c].pc.Querying? && Mirrors(p.s, k)
      ensures IsPath(p') && p'.start == p.start && p'.out == p.out && Mirrors(p'.s, k) && IsDone(p.s, p'.s, c, k, false)
      ensures NewsOf(p'.moves) == NewsOf(p.moves)
    {
      p' := FailPath(p, c, k, message, false);
    }

    /** Write the query and wait for a second; None when it has passed. */
    method AskOnce(query: Segment, c: nat, id: u32, k: u16, script: seq<Happening>, at: nat, sent: seq<Segment>,
                   ghost message: bytes, ghost p: Path)
      returns (r: Option<Result<Status, SendError>>, at': nat, sent': seq<Segment>, ghost p': Path)
      requires IsPath(p) && At(p.s, c, k, message) && p.s.calls[c].pc == Querying(id) && Mirrors(p.s, k)
      requires id in requests && requests[id] == c && Heard(script, at, p, c) && Wrote(sent, p.out, this.id)
      requires query == MakeSegment(TYPE_REQ, 0, this.id, k, 0, PutU32(id) + [QUERY_RECEIVE])
      modifies this`requests, this`slWait, this`woken, this`closed, this`handed, this`stuck
      ensures Heard(script, at', p', c) && Asks(p') == Asks(p)
      ensures r == None ==> Quiet(script, at, at') && CountElapsed(script, at, at') == 1 && EndsSecond(script, at')
      ensures r == None ==> |sent'| == |sent| + 1 && requests == old(requests)
      ensures r != None ==> QueryEnds(script, at, at', r.value) && r != Some(Err(TooManyQueries))
      ensures r != None ==> |sent'| == |sent| + QueriesWritten(script, at, at', r.value)
      ensures r != None && r.value.Ok? ==> requests == old(requests) - {id}
      ensures IsPath(p') && p'.start == p.start && Mirrors(p'.s, k) && Wrote(sent', p'.out, this.id)
      ensures OnlyCall(p.s, p'.s, c)
      ensures r == None ==> At(p'.s, c, k, message) && p'.s.calls[c].pc == Querying(id)
      ensures r != None && r.value.Ok? && !r.value.value.Completed? ==>
                var pass := PassAfter(r.value.value, SegmentCount(Wire(message)));
                At(p'.s, c, k, message) && p'.s.calls[c].pc == Writing(pass.ids, pass.after)
      ensures r != None && (r.value.Err? || r.value.value.Completed?) ==> IsDone(p.s, p'.s, c, k, r.value.Ok?)
    {
      assert at <= |script|;
      hide IsPath, PassAfter, SegmentCount, Wrote, Mirrors, Heard, Asks, NewsOf, Decoded;
      if at < |script| && script[at].WriteFails? {
        p' := FailQuery(c, k, message, p);
        HeardDown(script, at, p, p', c);
        EndsAtOnce(script, at, Err(WriteFailed));
        return Some(Err(WriteFailed)), at + 1, sent, p';
      }
      ghost var q := QueryPath(p, c, k, message, sent, this.id, query);
      sent' := sent + [query];
      HeardSame(script, at, p, q, c);
      at', q := TakeAcks(c, k, script, at, message, q);
      ghost var at1 := at';
      r, at', p' := AwaitOnce(c, id, script, at', k, message, q);
      OnceEnds(script, at, at1, at', r);
    }

    /** The loop of `queryMsgReceive`: send the query, again every second, until something ends it. */
    method AwaitReply(sending: MsgSending, c: nat, id: u32, script: seq<Happening>, at: nat, sent: seq<Segment>,
                      ghost message: bytes, ghost p: Path)
      returns (r: Result<Status, SendError>, at': nat, sent': seq<Segment>, ghost p': Path)
      requires IsPath(p) && At(p.s, c, sending.transID, message) && p.s.calls[c].pc == Querying(id)
      requires Mirrors(p.s, sending.transID) && id in requests && requests[id] == c
      requires Heard(script, at, p, c) && sending.flags == 0 && Wrote(sent, p.out, this.id)
      modifies this`requests, this`slWait, this`woken, this`closed, this`handed, this`stuck
      ensures QueryEnds(script, at, at', r) && Heard(script, at', p', c) && Asks(p') == Asks(p)
      ensures |sent'| == |sent| + QueriesWritten(script, at, at', r)
      ensures r.Ok? ==> requests == old(requests) - {id}
      ensures IsPath(p') && p'.start == p.start && Mirrors(p'.s, sending.transID) && Wrote(sent', p'.out, this.id)
      ensures OnlyCall(p.s, p'.s, c)
      ensures r.Ok? && !r.value.Completed? ==>
                var pass := PassAfter(r.value, SegmentCount(Wire(message)));
                At(p'.s, c, sending.transID, message) && p'.s.calls[c].pc == Writing(pass.ids, pass.after)
      ensures r.Err? || r.value.Completed? ==> IsDone(p.s, p'.s, c, sending.transID, r.Ok?)
    {
      assert at <= |script|;
      hide IsPath, PassAfter, SegmentCount, Wrote, Mirrors, Heard, Asks, QueryEnds, CountElapsed, Quiet;
      NothingHappened(script, at);
      var k := sending.transID;
      var query := NewSegment(TYPE_REQ, sending.flags, this.id, k, 0, PutU32(id) + [QUERY_RECEIVE]);
      at', sent', p' := at, sent, p;
      for i := 0 to QUERY_MAX_TIMES
        invariant at <= at' <= |script| && requests == old(requests)
        invariant Heard(script, at', p', c) && Quiet(script, at, at') && CountElapsed(script, at, at') == i
        invariant Asks(p') == Asks(p)
        invariant |sent'| == |sent| + i && (at' == at || EndsSecond(script, at'))
        invariant IsPath(p') && p'.start == p.start && Wrote(sent', p'.out, this.id) && Mirrors(p'.s, k)
        invariant At(p'.s, c, k, message) && p'.s.calls[c].pc == Querying(id) && OnlyCall(p.s, p'.s, c)
      {
        var ended;
        ghost var at0 := at';
        ended, at', sent', p' := AskOnce(query.value, c, id, k, script, at', sent', message, p');
        if ended.Some? {
          EndsLater(script, at, at0, at', ended.value);
          return ended.value, at', sent', p';
        }
        QuietMore(script, at, at0, at');
      }
      ghost var q := p';
      p' := FailQuery(c, k, message, q);
      HeardSame(script, at', q, p', c);
      EndsAfterAll(script, at, at');
      return Err(TooManyQueries), at', sent', p';
    }

    method QueryMsgReceive(sending: MsgSending, c: nat, script: seq<Happening>, at: nat, sent: seq<Segment>,
                           ghost message: bytes, ghost p: Path)
      returns (r: Result<Status, SendError>, at': nat, sent': seq<Segment>, ghost p': Path)
      requires IsPath(p) && At(p.s, c, sending.transID, message) && p.s.calls[c].pc == Asking
      requires Mirrors(p.s, sending.transID) && exists free: u32 :: free !in requests
      requires Heard(script, at, p, c) && sending.flags == 0 && Wrote(sent, p.out, this.id)
      modifies this`requests, this`requestID, this`slWait, this`woken, this`closed, this`handed, this`stuck
      ensures QueryEnds(script, at, at', r) && Heard(script, at', p', c) && Asks(p') == Asks(p) + 1
      ensures |sent'| == |sent| + QueriesWritten(script, at, at', r)
      ensures r.Ok? ==> requests == old(requests)
      ensures IsPath(p') && p'.start == p.start && Mirrors(p'.s, sending.transID) && Wrote(sent', p'.out, this.id)
      ensures OnlyCall(p.s, p'.s, c)
      ensures r.Ok? && !r.value.Completed? ==>
                var pass := PassAfter(r.value, SegmentCount(Wire(message)));
                At(p'.s, c, sending.transID, message) && p'.s.calls[c].pc == Writing(pass.ids, pass.after)
      ensures r.Err? || r.value.Completed? ==> IsDone(p.s, p'.s, c, sending.transID, r.Ok?)
    {
      hide IsPath, PassAfter, SegmentCount, Wrote, QueryEnds, Heard, Asks, NewsOf, QueriesWritten;
      ghost var before := requests;
      var id := GenRequestID(c);
      IsNextIDIsFree(p.s.requestID, before.Keys, id);
      p' := AskPath(p, c, sending.transID, message, id);
      HeardAsked(script, at, p, p', c);
      hide IdPool.IsNextID;
      r, at', sent', p' := AwaitReply(sending, c, id, script, at, sent, message, p');
      assert before[id := c] - {id} == before;
    }

    /** The connection is shut down while the call waits. */
    ghost method GoDown(c: nat, k: u16, message: bytes, p: Path) returns (p': Path)
      requires IsPath(p) && At(p.s, c, k, message) && p.s.calls[c].pc.Waiting? && Mirrors(p.s, k)
      ensures IsPath(p') && p'.start == p.start && p'.out == p.out && Mirrors(p'.s, k) && IsDone(p.s, p'.s, c, k, false)
      ensures NewsOf(p'.moves) == NewsOf(p.moves)
    {
      p' := FailPath(p, c, k, message, false);
    }

    /** A call that waits finds its channel closed. */
    ghost method SeeAck(c: nat, k: u16, message: bytes, p: Path) returns (p': Path)
      requires IsPath(p) && At(p.s, c, k, message) && p.s.calls[c].pc.Waiting? && Mirrors(p.s, k)
      requires p.s.calls[c].acked || c in woken
      ensures IsPath(p') && p'.start == p.start && p'.out == p.out && Mirrors(p'.s, k) && IsDone(p.s, p'.s, c, k, true)
      ensures NewsOf(p'.moves) == NewsOf(p.moves)
    {
      p' := SeeAckPath(p, c, k, message);
    }

    /** The wait that ends a pass. An acknowledgement that came before ends it at once. */
    method AwaitReceived(c: nat, k: u16, script: seq<Happening>, at: nat, ghost message: bytes, ghost p: Path)
      returns (w: Waited, at': nat, ghost p': Path)
      requires IsPath(p) && At(p.s, c, k, message) && p.s.calls[c].pc == Waiting && Mirrors(p.s, k)
      requires Heard(script, at, p, c)
      modifies this`slWait, this`woken
      ensures at <= at' <= |script| && WaitEnds(script, at, at', c in old(woken), w)
      ensures Asks(p') == Asks(p) && (w.TimedOut? ==> p' == p) && (!w.TimedOut? ==> Heard(script, at', p', c))
      ensures IsPath(p') && p'.start == p.start && p'.out == p.out && Mirrors(p'.s, k)
      ensures w.TimedOut? ==> p'.s == p.s
      ensures !w.TimedOut? ==> IsDone(p.s, p'.s, c, k, w.Acked?)
    {
      assert at <= |script|;
      hide IsPath, Heard, Asks, NewsOf, At, Mirrors, IsDone, WellShaped;
      at', p' := at, p;
      if c !in woken {
        if at == |script| || script[at].Replied? {
          p' := GoDown(c, k, message, p);
          HeardSame(script, at, p, p', c);
          return Down, at, p';
        }
        at' := at + 1;
        match script[at] {
          case Acknowledged => p' := HearAck(c, k, script, at, message, p);
          case Elapsed => return TimedOut, at', p';
          case _ =>
            p' := GoDown(c, k, message, p);
            HeardDown(script, at, p, p', c);
            return Down, at', p';
        }
      }
      ghost var q := p';
      p' := SeeAck(c, k, message, q);
      OnlyCallOn(p.s, q.s, p'.s, c, k);
      HeardSame(script, at', q, p', c);
      return Acked, at', p';
    }

    /** Write the segments of a pass, and wait unless the pass was cut short. A failing write ends the call
        in a pass over the whole message, and is not noticed in a pass over what is missing. */
    method WritePass(sending: MsgSending, c: nat, segs: seq<Segment>, whole: bool, after: After, script: seq<Happening>,
                     at: nat, sent: seq<Segment>, ghost message: bytes, ghost p: Path)
      returns (stop: Option<Result<(), SendError>>, at': nat, sent': seq<Segment>, ghost p': Path)
      requires sending == MsgSending.New(TYPE_TRANS, 0, id, sending.transID, message)
      requires IsPath(p) && At(p.s, c, sending.transID, message) && Mirrors(p.s, sending.transID)
      requires p.s.calls[c].pc.Writing? && p.s.calls[c].pc.after == after
      requires AreSegments(sending, segs, p.s.calls[c].pc.ids)
      requires Heard(script, at, p, c) && Wrote(sent, p.out, id)
      modifies this`slWait, this`woken
      ensures PassEnds(script, at, at', Fails(script, at, whole, |segs|), after, stop)
      ensures PassLeaves(script, at', p, p', c, sending.transID, message, after.ToQuery?, stop)
      ensures IsPath(p') && p'.start == p.start && Mirrors(p'.s, sending.transID) && Wrote(sent', p'.out, id)
    {
      hide IsPath, Wrote, AreSegments, Heard, At, Mirrors, WaitEnds, MsgSending.New, PassLeaves;
      if Fails(script, at, whole, |segs|) {
        p' := BreakOff(sending, c, segs, script, at, sent, after, message, p);
        return Some(Err(WriteFailed)), at + 1, sent + segs[..script[at].after], p';
      }
      stop, at', sent', p' := WriteWhole(sending, c, segs, after, script, at, sent, message, p);
    }

    /** The same when no write fails, or none is seen to. */
    method WriteWhole(sending: MsgSending, c: nat, segs: seq<Segment>, after: After, script: seq<Happening>, at: nat,
                      sent: seq<Segment>, ghost message: bytes, ghost p: Path)
      returns (stop: Option<Result<(), SendError>>, at': nat, sent': seq<Segment>, ghost p': Path)
      requires sending == MsgSending.New(TYPE_TRANS, 0, id, sending.transID, message)
      requires IsPath(p) && At(p.s, c, sending.transID, message) && Mirrors(p.s, sending.transID)
      requires p.s.calls[c].pc.Writing? && p.s.calls[c].pc.after == after
      requires AreSegments(sending, segs, p.s.calls[c].pc.ids)
      requires Heard(script, at, p, c) && Wrote(sent, p.out, id)
      modifies this`slWait, this`woken
      ensures PassEnds(script, at, at', false, after, stop)
      ensures PassLeaves(script, at', p, p', c, sending.transID, message, after.ToQuery?, stop)
      ensures IsPath(p') && p'.start == p.start && Mirrors(p'.s, sending.transID) && Wrote(sent', p'.out, id)
    {
      assert at <= |script| && !p.s.stuck;
      hide IsPath, Wrote, AreSegments, SegmentCount, Heard, Asks, NewsOf, At, Mirrors, Leaves, WaitEnds, MsgSending.New;
      p' := EndPass(sending, c, segs, after, sent, message, p);
      sent' := sent + segs;
      at' := at;
      HeardSame(script, at, p, p', c);
      match after {
        case ToError => return Some(Err(OrderIDTooLarge)), at', sent', p';
        case ToQuery => return None, at', sent', p';
        case ToWait =>
          stop, at', p' := AwaitPass(c, sending.transID, script, at', p.s, message, p');
      }
    }

    /** Write the segments of a pass and end it. */
    ghost method EndPass(sending: MsgSending, c: nat, segs: seq<Segment>, after: After, sent: seq<Segment>,
                         message: bytes, p: Path)
      returns (p': Path)
      requires sending == MsgSending.New(TYPE_TRANS, 0, id, sending.transID, message)
      requires IsPath(p) && At(p.s, c, sending.transID, message) && Mirrors(p.s, sending.transID)
      requires p.s.calls[c].pc.Writing? && p.s.calls[c].pc.after == after
      requires AreSegments(sending, segs, p.s.calls[c].pc.ids) && Wrote(sent, p.out, id)
      ensures IsPath(p') && p'.start == p.start && Mirrors(p'.s, sending.transID) && Wrote(sent + segs, p'.out, id)
      ensures NewsOf(p'.moves) == NewsOf(p.moves) && p'.s.stuck == p.s.stuck
      ensures Leaves(p.s, p'.s, c, sending.transID, message, after.ToQuery?,
                     if after.ToError? then Some(Err(OrderIDTooLarge)) else None)
    {
      hide IsPath, Wrote, AreSegments, NewsOf;
      p' := PassPath(p, c, sending, message, segs);
    }

    /** Writing fails, and with it the call. */
    ghost method BreakOff(sending: MsgSending, c: nat, segs: seq<Segment>, script: seq<Happening>, at: nat,
                          sent: seq<Segment>, after: After, message: bytes, p: Path)
      returns (p': Path)
      requires sending == MsgSending.New(TYPE_TRANS, 0, id, sending.transID, message)
      requires IsPath(p) && At(p.s, c, sending.transID, message) && Mirrors(p.s, sending.transID)
      requires p.s.calls[c].pc.Writing? && AreSegments(sending, segs, p.s.calls[c].pc.ids)
      requires Fails(script, at, true, |segs|) && Heard(script, at, p, c) && Wrote(sent, p.out, id)
      ensures IsPath(p') && p'.start == p.start && Mirrors(p'.s, sending.transID)
      ensures Wrote(sent + segs[..script[at].after], p'.out, id)
      ensures PassLeaves(script, at + 1, p, p', c, sending.transID, message, after.ToQuery?, Some(Err(WriteFailed)))
    {
      hide IsPath, Wrote, NewsOf, Asks, Heard;
      p' := BrokenPath(p, c, sending, message, segs, script[at].after, sent);
      HeardDown(script, at, p, p', c);
    }

    /** The wait that ends a pass, as a reason to stop. */
    method AwaitPass(c: nat, k: u16, script: seq<Happening>, at: nat, ghost s: Sender, ghost message: bytes,
                     ghost p: Path)
      returns (stop: Option<Result<(), SendError>>, at': nat, ghost p': Path)
      requires Leaves(s, p.s, c, k, message, false, None) && s.stuck == p.s.stuck
      requires IsPath(p) && Mirrors(p.s, k) && Heard(script, at, p, c)
      modifies this`slWait, this`woken
      ensures PassEnds(script, at, at', false, ToWait, stop)
      ensures Asks(p') == Asks(p) && Leaves(s, p'.s, c, k, message, false, stop)
      ensures if stop.None? then HeardPass(script, at', p', c, true) else Heard(script, at', p', c)
      ensures IsPath(p') && p'.start == p.start && p'.out == p.out && Mirrors(p'.s, k)
    {
      hide IsPath, Heard, Asks, NewsOf, At, Mirrors, IsDone, OnlyCall;
      var w: Waited;
      w, at', p' := AwaitReceived(c, k, script, at, message, p);
      OnlyCallOn(s, p.s, p'.s, c, k);
      stop := if w.TimedOut? then None else if w.Acked? then Some(Ok(())) else Some(Err(Shutdown));
    }

    /** A round that starts with a query; `cut` when its pass was cut short. */
    method QueriedRound(sending: MsgSending, c: nat, script: seq<Happening>, at: nat, sent: seq<Segment>,
                        ghost message: bytes, ghost p: Path)
      returns (stop: Option<Result<(), SendError>>, cut: bool, at': nat, sent': seq<Segment>, ghost p': Path)
      requires sending == MsgSending.New(TYPE_TRANS, 0, id, sending.transID, message) && Sendable(message)
      requires IsPath(p) && At(p.s, c, sending.transID, message) && p.s.calls[c].pc == Asking
      requires Mirrors(p.s, sending.transID) && exists free: u32 :: free !in requests
      requires Heard(script, at, p, c) && Wrote(sent, p.out, id)
      requires AsksNow(script, at, SegmentCount(Wire(message)))
      modifies this`requests, this`requestID, this`slWait, this`woken, this`closed, this`handed, this`stuck
      ensures at <= at' <= |script| && (stop.None? ==> at < at' && requests == old(requests))
      ensures Asks(p') == Asks(p) + 1
      ensures stop.None? ==> HeardPass(script, at', p', c, !cut)
      ensures stop.None? && cut ==> AsksNow(script, at', SegmentCount(Wire(message)))
      ensures stop.Some? ==> Heard(script, at', p', c)
      ensures stop.Some? && stop.value.Err? ==>
                Explained(script, at', stop.value.error, SegmentCount(Wire(message)), Asks(p'))
      ensures IsPath(p') && p'.start == p.start && Mirrors(p'.s, sending.transID) && Wrote(sent', p'.out, id)
      ensures Leaves(p.s, p'.s, c, sending.transID, message, cut, stop)
    {
      hide IsPath, PassAfter, SegmentCount, Wrote, AreSegments, Heard, Asks, NewsOf, QueriesWritten;
      var status: Result<Status, SendError>;
      status, at', sent', p' := QueryMsgReceive(sending, c, script, at, sent, message, p);
      if status.Err? {
        QueryErrorIsExplained(script, at, at', status, SegmentCount(Wire(message)), Asks(p'));
        return Some(Err(status.error)), false, at', sent', p';
      }
      if status.value.Completed? {
        return Some(Ok(())), false, at', sent', p';
      }
      var segs, after := SendPass(sending, status.value);
      hide Mirrors, At;
      ghost var at0 := at';
      stop, at', sent', p' :=
        WritePass(sending, c, segs, !status.value.NotCompleted?, after.value, script, at', sent', message, p');
      cut := after.value.ToQuery?;
      if stop.Some? && stop.value.Err? {
        PassErrorIsExplained(script, at, at0, at', status.value, SegmentCount(Wire(message)), stop.value, Asks(p'));
      }
    }

    /** The timeout that ends a wait, if there was one, and a round. */
    method NextRound(waited: bool, sending: MsgSending, c: nat, script: seq<Happening>, at: nat, sent: seq<Segment>,
                     ghost message: bytes, ghost p: Path)
      returns (stop: Option<Result<(), SendError>>, cut: bool, at': nat, sent': seq<Segment>, ghost p': Path)
      requires sending == MsgSending.New(TYPE_TRANS, 0, id, sending.transID, message) && Sendable(message)
      requires IsPath(p) && At(p.s, c, sending.transID, message)
      requires p.s.calls[c].pc == if waited then Waiting else Asking
      requires Mirrors(p.s, sending.transID) && exists free: u32 :: free !in requests
      requires HeardPass(script, at, p, c, waited) && Wrote(sent, p.out, id)
      requires if waited then Asks(p) < SEND_MSG_MAX_TIMES - 1 else AsksNow(script, at, SegmentCount(Wire(message)))
      modifies this`requests, this`requestID, this`slWait, this`woken, this`closed, this`handed, this`stuck
      ensures at <= at' <= |script| && (stop.None? ==> at < at' && requests == old(requests))
      ensures Asks(p') == Asks(p) + 1
      ensures stop.None? ==> HeardPass(script, at', p', c, !cut)
      ensures stop.None? && cut ==> AsksNow(script, at', SegmentCount(Wire(message)))
      ensures stop.Some? ==> Heard(script, at', p', c)
      ensures stop.Some? && stop.value.Err? ==>
                Explained(script, at', stop.value.error, SegmentCount(Wire(message)), Asks(p'))
      ensures IsPath(p') && p'.start == p.start && Mirrors(p'.s, sending.transID) && Wrote(sent', p'.out, id)
      ensures Leaves(p.s, p'.s, c, sending.transID, message, cut, stop)
    {
      hide IsPath, Wrote, Heard, Asks, NewsOf, Explained, SegmentCount;
      p' := p;
      if waited {
        p' := TimeoutPath(p, c, sending.transID, message);
        HeardNext(script, at - 1, p, p', c, [WaitOver]);
      }
      stop, cut, at', sent', p' := QueriedRound(sending, c, script, at, sent, message, p');
    }

    /** After the last round: the registration is removed. */
    method GiveUp(c: nat, k: u16, ghost script: seq<Happening>, ghost at: nat, ghost message: bytes, ghost p: Path)
      returns (ghost p': Path)
      requires IsPath(p) && At(p.s, c, k, message) && p.s.calls[c].pc == Waiting && Mirrors(p.s, k)
      requires HeardPass(script, at, p, c, true) && Asks(p) >= SEND_MSG_MAX_TIMES - 1
      modifies this`slWait
      ensures IsPath(p') && p'.start == p.start && p'.out == p.out && Mirrors(p'.s, k)
      ensures IsDone(p.s, p'.s, c, k, false) && Heard(script, at, p', c)
      ensures Explained(script, at, Timeout, SegmentCount(Wire(message)), Asks(p'))
    {
      slWait := slWait - {k};
      p' := FailPath(p, c, k, message, true);
      hide IsPath, At, Mirrors, Heard, Asks, NewsOf, SegmentCount;
      assert NewsOf(p.moves) + [] == NewsOf(p.moves);
      HeardNext(script, at - 1, p, p', c, []);
      TimeoutIsExplained(script, at, SegmentCount(Wire(message)), Asks(p'));
    }

    /** The first round needs no query. */
    method FirstRound(sending: MsgSending, c: nat, script: seq<Happening>, ghost message: bytes, ghost p: Path)
      returns (stop: Option<Result<(), SendError>>, cut: bool, at': nat, sent': seq<Segment>, ghost p': Path)
      requires sending == MsgSending.New(TYPE_TRANS, 0, id, sending.transID, message) && Sendable(message)
      requires IsPath(p) && At(p.s, c, sending.transID, message) && Mirrors(p.s, sending.transID) && p.out == []
      requires var first := FullRound(SegmentCount(Wire(message)), SEND_WINDOW);
               p.s.calls[c].pc == Writing(first.ids, first.after)
      requires Heard(script, 0, p, c)
      modifies this`slWait, this`woken
      ensures at' <= |script| && Asks(p') == Asks(p)
      ensures stop.None? ==> HeardPass(script, at', p', c, !cut)
      ensures stop.None? && cut ==> AsksNow(script, at', SegmentCount(Wire(message)))
      ensures stop.Some? ==> Heard(script, at', p', c)
      ensures stop.Some? && stop.value.Err? ==>
                Explained(script, at', stop.value.error, SegmentCount(Wire(message)), 0)
      ensures IsPath(p') && p'.start == p.start && Mirrors(p'.s, sending.transID) && Wrote(sent', p'.out, id)
      ensures Leaves(p.s, p'.s, c, sending.transID, message, cut, stop)
    {
      assert Wrote([], p.out, id);
      ghost var count := SegmentCount(Wire(message));
      hide IsPath, SegmentCount, Wrote, Mirrors, Heard, Asks, NewsOf, FullRound, At, WellShaped;
      var segs, after := SendFull(sending, SEND_WINDOW);
      assert |segs| == |FullRound(count, SEND_WINDOW).ids|;
      hide AreSegments, PassEnds, Fails, Explained, AsksNow, Leaves, HeardPass;
      cut := after.ToQuery?;
      stop, at', sent', p' := WritePass(sending, c, segs, true, after, script, 0, [], message, p);
      FirstPassIsExplained(script, at', count, |segs|, after, stop);
    }

    /** The loop of `SendMsg`. Its first pass needs no query; a pass that is cut short queries at once,
        without looking at the round counter. */
    method SendRounds(sending: MsgSending, c: nat, script: seq<Happening>, ghost message: bytes, ghost p: Path)
      returns (r: Result<(), SendError>, used: nat, sent: seq<Segment>, ghost p': Path)
      requires sending == MsgSending.New(TYPE_TRANS, 0, id, sending.transID, message) && Sendable(message)
      requires IsPath(p) && At(p.s, c, sending.transID, message) && Mirrors(p.s, sending.transID) && p.out == []
      requires var first := FullRound(SegmentCount(Wire(message)), SEND_WINDOW);
               p.s.calls[c].pc == Writing(first.ids, first.after)
      requires Heard(script, 0, p, c) && Asks(p) == 0 && exists free: u32 :: free !in requests
      modifies this`requests, this`requestID, this`slWait, this`woken, this`closed, this`handed, this`stuck
      ensures IsPath(p') && p'.start == p.start && Mirrors(p'.s, sending.transID) && Wrote(sent, p'.out, id)
      ensures IsDone(p.s, p'.s, c, sending.transID, r.Ok?)
      ensures Heard(script, used, p', c)
      ensures r.Err? ==> Explained(script, used, r.error, SegmentCount(Wire(message)), Asks(p'))
    {
      var k := sending.transID;
      hide IsPath, SegmentCount, Wrote, FullRound, Mirrors, Heard, Asks, NewsOf, Explained, WellShaped, MsgSending.New;
      var i, at, stop, cut := 1, 0, None, false;
      stop, cut, at, sent, p' := FirstRound(sending, c, script, message, p);
      while stop.None? && (cut || i < SEND_MSG_MAX_TIMES)
        invariant at <= |script| && (stop.None? ==> requests == old(requests))
        invariant Asks(p') == i - 1 && (stop.None? ==> HeardPass(script, at, p', c, !cut))
        invariant stop.None? && cut ==> AsksNow(script, at, SegmentCount(Wire(message)))
        invariant stop.Some? ==> Heard(script, at, p', c)
        invariant stop.Some? && stop.value.Err? ==>
                    Explained(script, at, stop.value.error, SegmentCount(Wire(message)), Asks(p'))
        invariant IsPath(p') && p'.start == p.start && Mirrors(p'.s, k) && Wrote(sent, p'.out, id)
        invariant Leaves(p.s, p'.s, c, k, message, cut, stop)
        decreases |script| - at, if stop.None? then 1 else 0
      {
        i := i + 1;
        stop, cut, at, sent, p' := NextRound(!cut, sending, c, script, at, sent, message, p');
      }
      if stop.Some? {
        return stop.value, at, sent, p';
      }
      ghost var q := p';
      p' := GiveUp(c, k, script, at, message, q);
      OnlyCallOn(p.s, q.s, p'.s, c, k);
      return Err(Timeout), at, sent, p';
    }

    /** The beginning of `SendMsg`: take a slot and register for its acknowledgement. */
    method StartSending(message: bytes, ghost s: Sender) returns (sending: Option<MsgSending>, c: nat, ghost p: Path)
      requires Valid() && WellShaped(s) && Mirrors(s, SLOTS) && !stuck && Sendable(message)
      modifies this`sl, this`slWait, this`begun
      ensures Valid() && (sending.None? <==> FreeSlot(old(sl)) == SLOTS)
      ensures sending.None? ==> Mirrors(s, SLOTS)
      ensures sending.Some? ==>
                var k, first := sending.value.transID, FullRound(SegmentCount(Wire(message)), SEND_WINDOW);
                && sending.value == MsgSending.New(TYPE_TRANS, 0, id, k, message) && c == |s.calls|
                && IsPath(p) && p.start == s && p.out == [] && At(p.s, c, k, message) && Mirrors(p.s, k)
                && p.s.calls[c].pc == Writing(first.ids, first.after)
                && |p.s.calls| == c + 1 && p.s.calls[..c] == s.calls && NewsOf(p.moves) == []
                && !p.s.stuck && k < SLOTS && p.s.calls[c].message == message
    {
      c, p := 0, Path(s, [], s, []);
      SameFreeSlot(sl, s.sl);
      hide IsPath, FullRound, SegmentCount, FreeSlot;
      sending := TakeSlot(message);
      if sending.Some? {
        var k := sending.value.transID;
        assert k == FreeSlot(s.sl);
        c := begun;
        begun := begun + 1;
        slWait := slWait[k := c];
        p := StartPath(s, message);
        NewCallIsMirrored(s, p.s, k);
        hide MsgSending.New, Mirrors, At;
      }
    }

    /** The slot is free again when `SendMsg` returns. */
    method Release(k: u16, ghost c: nat, ghost ok: bool, ghost s: Sender, ghost s': Sender)
      requires Valid() && k < SLOTS && IsDone(s, s', c, k, ok) && Mirrors(s', k)
      modifies this`sl
      ensures Valid() && Mirrors(s', SLOTS) && stuck == s.stuck
    {
      hide WellShaped, OnlyCall;
      sl := sl[k := None];
    }

    /** A call that has just registered has not been woken. */
    lemma NewCallIsMirrored(s: Sender, s': Sender, k: u16)
      requires begun == |s'.calls| == |s.calls| + 1 && s'.calls[..|s.calls|] == s.calls
      requires k < SLOTS && WellShaped(s') && !s'.calls[|s.calls|].acked
      requires requestID == s'.requestID && requests == s'.requests && slWait == s'.slWait && stuck == s'.stuck
      requires |sl| == SLOTS && forall i :: 0 <= i < SLOTS && i != k ==> (sl[i].Some? <==> s'.sl[i].Some?)
      requires forall c :: 0 <= c < |s.calls| ==> (c in woken <==> s.calls[c].acked)
      requires forall c :: c in woken ==> c < |s.calls|
      ensures Mirrors(s', k)
    {
      assert forall i :: 0 <= i < |s.calls| ==> s'.calls[..|s.calls|][i] == s'.calls[i];
    }

    /** `SendMsg`, while nothing else uses the sending half. All it does is a run of the endpoint's steps
        for one call: the same datagrams, the same registrations and pending requests, and a call that
        has returned nil exactly when this does. A full slot list makes it wait outside this method. */
    method SendMsg(message: bytes, script: seq<Happening>, ghost s: Sender)
      returns (r: Result<(), SendError>, used: nat, sent: seq<Segment>, ghost p: Path)
      requires Valid() && WellShaped(s) && Mirrors(s, SLOTS) && |message| <= MAX_MSG_SIZE
      requires !stuck && exists free: u32 :: free !in requests
      modifies this`sl, this`requests, this`requestID, this`slWait, this`woken, this`closed, this`handed
      modifies this`begun, this`stuck
      ensures Valid() && !stuck && IsPath(p) && p.start == s && Mirrors(p.s, SLOTS) && Wrote(sent, p.out, id)
      ensures message == [] || FreeSlot(old(sl)) == SLOTS ==>
                p.s == s && sent == [] && r == Err(if message == [] then EmptyMessage else NoFreeSlot)
      ensures message != [] && FreeSlot(old(sl)) < SLOTS ==>
                && |p.s.calls| == |s.calls| + 1 && p.s.calls[..|s.calls|] == s.calls
                && p.s.calls[|s.calls|].message == message && p.s.calls[|s.calls|].pc == Returned(r.Ok?)
      ensures used <= |script| && Told(script[..used], NewsOf(p.moves)) && OnTime(NewsOf(p.moves))
      ensures r.Ok? ==> HasReason(script, used)
      ensures r.Err? && message != [] && FreeSlot(old(sl)) < SLOTS ==>
                Explained(script, used, r.error, SegmentCount(Wire(message)), Asks(p))
    {
      used, sent, p := 0, [], Path(s, [], s, []);
      assert IsPath(p) && Told(script[..0], []) && NewsOf(p.moves) == [] && Wrote([], [], id);
      hide IsPath, NewsOf, Told, CountAsked, Explained, Mirrors, At, WellShaped, Wire, HasReason, FreeSlot;
      hide FullRound, SegmentCount, MsgSending.New, Asks, Wrote, Distinct;
      if |message| <= 0 {
        return Err(EmptyMessage), 0, sent, p;
      }
      var sending, c;
      sending, c, p := StartSending(message, s);
      if sending.None? {
        return Err(NoFreeSlot), 0, sent, Path(s, [], s, []);
      }
      r, used, sent, p := SendAndRelease(sending.value, c, script, message, p);
    }

    /** The rest of `SendMsg`: the loop, and the deferred function that frees the slot. */
    method SendAndRelease(sending: MsgSending, c: nat, script: seq<Happening>, ghost message: bytes, ghost p: Path)
      returns (r: Result<(), SendError>, used: nat, sent: seq<Segment>, ghost p': Path)
      requires Valid() && sending == MsgSending.New(TYPE_TRANS, 0, id, sending.transID, message) && Sendable(message)
      requires IsPath(p) && At(p.s, c, sending.transID, message) && Mirrors(p.s, sending.transID) && p.out == []
      requires var first := FullRound(SegmentCount(Wire(message)), SEND_WINDOW);
               p.s.calls[c].pc == Writing(first.ids, first.after)
      requires |p.start.calls| <= c && NewsOf(p.moves) == [] && exists free: u32 :: free !in requests
      modifies this`sl, this`requests, this`requestID, this`slWait, this`woken, this`closed, this`handed, this`stuck
      ensures Valid() && IsPath(p') && p'.start == p.start && Mirrors(p'.s, SLOTS) && Wrote(sent, p'.out, id)
      ensures IsDone(p.s, p'.s, c, sending.transID, r.Ok?) && stuck == p.s.stuck
      ensures used <= |script| && Told(script[..used], NewsOf(p'.moves)) && OnTime(NewsOf(p'.moves))
      ensures r.Ok? ==> HasReason(script, used)
      ensures r.Err? ==> Explained(script, used, r.error, SegmentCount(Wire(message)), Asks(p'))
    {
      var k := sending.transID;
      assert Heard(script, 0, p, c) && Asks(p) == 0 && k < SLOTS;
      hide IsPath, NewsOf, Told, CountAsked, Explained, Mirrors, At, WellShaped, Wire, HasReason;
      hide FullRound, SegmentCount, MsgSending.New, Asks, Wrote;
      r, used, sent, p' := SendRounds(sending, c, script, message, p);
      if r.Ok? { NilIsExplained(script, used, p', c); }
      Release(k, c, r.Ok?, p.s, p'.s);
    }

    /** `Write` hands its input to `SendMsg` in pieces, until one of those fails: `failing` is the number of
        the first that does. What was handed over is the input in order, as far as it went, and `SendMsg`
        accepts each piece; only the empty input is a piece that it refuses. The count that comes back for
        an input of several pieces is always 0. */
    method Write(p: bytes, failing: nat) returns (messages: seq<bytes>, n: nat, ok: bool)
      ensures Concat(messages) <= p && |messages| <= failing + 1
      ensures ok ==> Concat(messages) == p && |messages| <= failing
      ensures !ok ==> |messages| == failing + 1
      ensures forall i :: 0 <= i < |messages| ==> Sendable(messages[i]) || p == []
      ensures n == if ok && |p| <= MAX_MSG_SIZE then |p| else 0
    {
      if |p| <= MAX_MSG_SIZE {
        assert Concat([p][..0]) == [];
        return [p], if failing == 0 then 0 else |p|, failing != 0;
      }
      var total, start, end := |p|, 0, 0;
      messages := [];
      while start < total
        invariant start == end <= total && Concat(messages) == p[..start] && |messages| <= failing
        invariant forall i :: 0 <= i < |messages| ==> Sendable(messages[i])
      {
        end := end + MAX_MSG_SIZE;
        if end >= total {
          end := total;
        }
        ghost var before := messages;
        messages := messages + [p[start..end]];
        assert messages[..|before|] == before && p[..end] == p[..start] + p[start..end];
        if |messages| == failing + 1 {
          return messages, 0, false;
        }
        start := end;
      }
      assert p[..start] == p;
      return messages, 0, true;
    }

    /** `genRequestIDChan`: the next ID that is not pending, by stepping the 32-bit counter. */
    method GenRequestID(ch: nat) returns (i: u32)
      requires !stuck && exists free: u32 :: free !in requests
      modifies this`requestID, this`requests
      ensures IdPool.IsNextID(old(requestID), 1, old(requests).Keys, i)
      ensures requestID == i && requests == old(requests)[i := ch]
    {
      ghost var start, taken := requestID, requests.Keys;
      ghost var free: u32 :| free !in requests;
      ghost var far: nat := if free > start then free - start else free - start + U32_SIZE;
      assert IdPool.StepID(start, 1, far) == free;
      ghost var d: nat := 0;
      while true
        invariant d < far && requestID == IdPool.StepID(start, 1, d) && requests == old(requests)
        invariant forall e: nat :: 1 <= e <= d ==> IdPool.StepID(start, 1, e) in taken
        decreases far - d
      {
        IdPool.StepsAdd(start, 1, d, 1);
        requestID := ToU32(requestID + 1);
        d := d + 1;
        if requestID !in requests {
          break;
        }
      }
      i := requestID;
      assert IdPool.IsFreeAt(start, 1, taken, i, d);
      requests := requests[i := ch];
    }
  }

  lemma {:induction false} SameFreeSlot<T, U>(a: seq<Option<T>>, b: seq<Option<U>>)
    requires |a| == |b| && forall i :: 0 <= i < |a| ==> (a[i].Some? <==> b[i].Some?)
    ensures FreeSlot(a) == FreeSlot(b)
  {
    if a != [] && a[0].Some? {
      SameFreeSlot(a[1..], b[1..]);
    }
  }

  lemma IsNextIDIsFree(current: u32, taken: set<u32>, id: u32)
    requires IdPool.IsNextID(current, 1, taken, id)
    ensures id !in taken
  {
  }

  lemma TransIDOf(seg: Segment, k: u16)
    requires exists id: u32 :: seg == MakeSegment(TYPE_RECEIVED, 0, id, k, 0, [])
    ensures seg.HasHeader() && seg.TransID() == k
  {
    var id: u32 :| seg == MakeSegment(TYPE_RECEIVED, 0, id, k, 0, []);
    WireRoundTrip(TYPE_RECEIVED, 0, id, k, 0, [], seg);
  }

  lemma {:induction false} FreeSlotIs<T>(sl: seq<Option<T>>, i: nat)
    requires i < |sl| && sl[i].None? && FreeSlot(sl) >= i
    ensures FreeSlot(sl) == i
  {
  }
}
