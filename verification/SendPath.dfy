/** Runs of the endpoint's sending half in which one `SendMsg` call moves and datagrams arrive. */
module SendPath {
  import opened Bytes
  import opened Segments
  import opened Sending
  import opened Rounds
  import opened Status
  import opened Endpoint
  import IdPool

  const QUERY_RECEIVE: byte := 0

  datatype Move = Do(e: SendEvent) | Get(p: Packet)

  /** Where the moves lead, and the datagrams written on the way. */
  datatype Played = Played(s: Sender, out: seq<Packet>)

  ghost predicate CanMove(s: Sender, m: Move) {
    WellShaped(s) && if m.Do? then Enabled(s, m.e) else !s.stuck
  }

  ghost function AfterMove(s: Sender, m: Move): (Sender, seq<Packet>)
    requires CanMove(s, m)
  {
    match m
    case Do(e) => SendStep(s, e)
    case Get(p) => (OnAnswer(s, p), [])
  }

  ghost function Play(s: Sender, moves: seq<Move>): Option<Played> {
    if moves == [] then Some(Played(s, []))
    else
      match Play(s, moves[..|moves| - 1])
      case None => None
      case Some(p) =>
        var m := moves[|moves| - 1];
        if CanMove(p.s, m) then
          var (s', written) := AfterMove(p.s, m);
          Some(Played(s', p.out + written))
        else None
  }

  ghost predicate Leads(s0: Sender, moves: seq<Move>, s: Sender, out: seq<Packet>) {
    Play(s0, moves) == Some(Played(s, out))
  }

  lemma PlayOn(s0: Sender, moves: seq<Move>, s: Sender, out: seq<Packet>, m: Move)
    requires Leads(s0, moves, s, out) && CanMove(s, m)
    ensures Leads(s0, moves + [m], AfterMove(s, m).0, out + AfterMove(s, m).1)
  {
    assert (moves + [m])[..|moves|] == moves;
  }

  /** The segment that carries a packet. */
  ghost predicate Carries(seg: Segment, p: Packet, streamID: u32) {
    match p
    case Trans(slot, orderID, body) =>
      |body| <= BODY_MAX_SIZE && seg == MakeSegment(TYPE_TRANS, 0, streamID, slot, orderID, body)
    case Query(slot, id) => seg == MakeSegment(TYPE_REQ, 0, streamID, slot, 0, PutU32(id) + [QUERY_RECEIVE])
    case _ => false
  }

  ghost predicate Wrote(segs: seq<Segment>, out: seq<Packet>, streamID: u32) {
    |segs| == |out| && forall i :: 0 <= i < |segs| ==> Carries(segs[i], out[i], streamID)
  }

  /** Call c sends this message on slot k, and is registered for its acknowledgement until that comes;
      the handlers run. */
  ghost predicate At(s: Sender, c: nat, k: u16, message: bytes) {
    && WellShaped(s) && !s.stuck && c < |s.calls| && k < SLOTS
    && s.calls[c].slot == k && s.calls[c].message == message
    && if s.calls[c].acked then k !in s.slWait else k in s.slWait && s.slWait[k] == c
  }

  ghost function WithPc(s: Sender, c: nat, pc: Pc): Sender
    requires c < |s.calls|
  {
    s.(calls := s.calls[c := s.calls[c].(pc := pc)])
  }

  ghost function Freed(s: Sender, c: nat, ok: bool): Sender
    requires c < |s.calls| && s.calls[c].slot < |s.sl|
  {
    WithPc(s, c, Returned(ok)).(sl := s.sl[s.calls[c].slot := None])
  }

  /** Call c returns an error; `forget` when it takes its request back, or its registration. */
  ghost function Failed(s: Sender, c: nat, forget: bool): Sender
    requires c < |s.calls| && s.calls[c].slot < |s.sl|
  {
    var pc := s.calls[c].pc;
    Freed(s, c, false).(
      requests := if forget && pc.Querying? then s.requests - {pc.id} else s.requests,
      slWait := if forget && pc.Waiting? then s.slWait - {s.calls[c].slot} else s.slWait)
  }

  lemma BeginMove(s: Sender, message: bytes)
    requires WellShaped(s) && Sendable(message) && FreeSlot(s.sl) < SLOTS
    ensures CanMove(s, Do(Begin(message)))
    ensures var k, s' := FreeSlot(s.sl), AfterMove(s, Do(Begin(message))).0;
            && s' == s.(calls := s.calls + [Call(message, k, s.begun[k] == 0, 0, Begun, false)],
                        sl := s.sl[k := Some(|s.calls|)], begun := s.begun[k := s.begun[k] + 1])
            && WellShaped(s') && AfterMove(s, Do(Begin(message))).1 == []
  {
  }

  lemma RegisterMove(s: Sender, c: nat)
    requires WellShaped(s) && c < |s.calls| && s.calls[c].pc.Begun?
    ensures CanMove(s, Do(Register(c)))
    ensures var k, first := s.calls[c].slot, FullRound(s.calls[c].Count(), SEND_WINDOW);
            AfterMove(s, Do(Register(c)))
            == (WithPc(s, c, Writing(first.ids, first.after)).(slWait := s.slWait[k := c]), [])
  {
    hide FullRound, SegmentCount;
  }

  lemma WriteMove(s: Sender, c: nat)
    requires WellShaped(s) && c < |s.calls| && s.calls[c].pc.Writing? && s.calls[c].pc.ids != []
    requires 0 <= s.calls[c].pc.ids[0] < U16_SIZE
    ensures CanMove(s, Do(WriteNext(c)))
    ensures var call := s.calls[c]; var i := call.pc.ids[0];
            AfterMove(s, Do(WriteNext(c)))
            == (s.(calls := s.calls[c := call.(pc := Writing(call.pc.ids[1..], call.pc.after), sent := call.sent + 1)]),
                [Trans(call.slot, i, Fragment(Wire(call.message), i))])
  {
  }

  lemma EndPassMove(s: Sender, c: nat)
    requires WellShaped(s) && c < |s.calls| && s.calls[c].pc.Writing? && s.calls[c].pc.ids == []
    ensures CanMove(s, Do(EndPass(c)))
    ensures AfterMove(s, Do(EndPass(c)))
            == (match s.calls[c].pc.after
                case ToQuery => WithPc(s, c, Asking)
                case ToWait => WithPc(s, c, Waiting)
                case ToError => Freed(s, c, false), [])
  {
  }

  lemma AskMove(s: Sender, c: nat, id: u32)
    requires WellShaped(s) && !s.stuck && c < |s.calls| && s.calls[c].pc.Asking?
    requires IdPool.IsNextID(s.requestID, 1, s.requests.Keys, id)
    ensures CanMove(s, Do(Ask(c, id)))
    ensures AfterMove(s, Do(Ask(c, id)))
            == (WithPc(s, c, Querying(id)).(
                  requests := s.requests[id := c], requestID := id, askers := s.askers + [c]), [])
  {
    hide IdPool.IsNextID;
  }

  lemma QueryMove(s: Sender, c: nat)
    requires WellShaped(s) && c < |s.calls| && s.calls[c].pc.Querying?
    ensures CanMove(s, Do(WriteQuery(c)))
    ensures AfterMove(s, Do(WriteQuery(c))) == (s, [Query(s.calls[c].slot, s.calls[c].pc.id)])
  {
  }

  lemma FailMove(s: Sender, c: nat, forget: bool)
    requires WellShaped(s) && c < |s.calls|
    requires s.calls[c].pc.Writing? || s.calls[c].pc.Waiting? || (s.calls[c].pc.Querying? && !(forget && s.stuck))
    ensures CanMove(s, Do(Fail(c, forget)))
    ensures AfterMove(s, Do(Fail(c, forget))) == (Failed(s, c, forget), []) && WellShaped(Failed(s, c, forget))
  {
  }

  lemma ReplyMove(s: Sender, c: nat, id: u32, status: Status)
    requires WellShaped(s) && !s.stuck && c < |s.calls| && s.calls[c].pc == Querying(id)
    requires id in s.requests && s.requests[id] == c
    ensures var m := Get(Reply(s.calls[c].slot, id, status)); var pass := PassAfter(status, s.calls[c].Count());
            && CanMove(s, m)
            && AfterMove(s, m)
               == ((if status.Completed? then Freed(s, c, true) else WithPc(s, c, Writing(pass.ids, pass.after))).(
                     requests := s.requests - {id}), [])
  {
    hide PassAfter, SegmentCount;
  }

  lemma AckMove(s: Sender, c: nat)
    requires WellShaped(s) && !s.stuck && c < |s.calls|
    requires s.calls[c].slot in s.slWait && s.slWait[s.calls[c].slot] == c
    ensures var k := s.calls[c].slot;
            && CanMove(s, Get(Received(k)))
            && AfterMove(s, Get(Received(k)))
               == (s.(slWait := s.slWait - {k}, calls := s.calls[c := s.calls[c].(acked := true)]), [])
  {
  }

  lemma SeeAckMove(s: Sender, c: nat)
    requires WellShaped(s) && c < |s.calls| && s.calls[c].pc.Waiting? && s.calls[c].acked
    ensures CanMove(s, Do(SeeAck(c))) && AfterMove(s, Do(SeeAck(c))) == (Freed(s, c, true), [])
  {
  }

  lemma TimeoutMove(s: Sender, c: nat)
    requires WellShaped(s) && c < |s.calls| && s.calls[c].pc.Waiting?
    ensures CanMove(s, Do(WaitTimeout(c))) && AfterMove(s, Do(WaitTimeout(c))) == (WithPc(s, c, Asking), [])
  {
  }

  /** The packets of a pass. */
  ghost function PassPackets(message: bytes, k: u16, ids: seq<int>): seq<Packet>
    requires AreIDs(ids)
  {
    if ids == [] then []
    else
      var i := ids[|ids| - 1];
      PassPackets(message, k, ids[..|ids| - 1]) + [Trans(k, i, Fragment(Wire(message), i))]
  }

  ghost function WroteOne(s: Sender, c: nat): Sender
    requires c < |s.calls| && s.calls[c].pc.Writing? && s.calls[c].pc.ids != []
  {
    var call := s.calls[c];
    s.(calls := s.calls[c := call.(pc := Writing(call.pc.ids[1..], call.pc.after), sent := call.sent + 1)])
  }

  lemma PlayWrite(s0: Sender, moves: seq<Move>, s: Sender, out: seq<Packet>, c: nat)
    requires Leads(s0, moves, s, out) && WellShaped(s) && c < |s.calls| && s.calls[c].pc.Writing?
    requires s.calls[c].pc.ids != [] && 0 <= s.calls[c].pc.ids[0] < U16_SIZE
    ensures WellShaped(WroteOne(s, c))
    ensures var call := s.calls[c]; var i := call.pc.ids[0];
            Leads(s0, moves + [Do(WriteNext(c))], WroteOne(s, c),
                  out + [Trans(call.slot, i, Fragment(Wire(call.message), i))])
  {
    WriteMove(s, c);
    PlayOn(s0, moves, s, out, Do(WriteNext(c)));
    hide Leads, AfterMove, CanMove;
  }

  ghost predicate AreIDs(ids: seq<int>) {
    forall i :: 0 <= i < |ids| ==> 0 <= ids[i] < U16_SIZE
  }

  ghost predicate IsWriting(s: Sender, c: nat) {
    WellShaped(s) && c < |s.calls| && s.calls[c].pc.Writing? && AreIDs(s.calls[c].pc.ids)
  }

  /** The first j packets that call c has still to write in its pass. */
  ghost function FirstPackets(s: Sender, c: nat, j: nat): seq<Packet>
    requires IsWriting(s, c) && j <= |s.calls[c].pc.ids|
  {
    PassPackets(s.calls[c].message, s.calls[c].slot, s.calls[c].pc.ids[..j])
  }

  ghost function WrotePart(s: Sender, c: nat, j: nat): Sender
    requires c < |s.calls| && s.calls[c].pc.Writing? && j <= |s.calls[c].pc.ids|
  {
    var call := s.calls[c];
    s.(calls := s.calls[c := call.(pc := Writing(call.pc.ids[j..], call.pc.after), sent := call.sent + j)])
  }

  /** One more segment after j. */
  lemma OneMorePart(s: Sender, c: nat, j: nat) returns (p: Packet)
    requires IsWriting(s, c) && j < |s.calls[c].pc.ids|
    ensures var call, i := s.calls[c], s.calls[c].pc.ids[j]; p == Trans(call.slot, i, Fragment(Wire(call.message), i))
    ensures var s' := WrotePart(s, c, j);
            && c < |s'.calls| && s'.calls[c].pc.Writing? && s'.calls[c].pc.ids != []
            && s'.calls[c].pc.ids[0] == s.calls[c].pc.ids[j] && s'.calls[c].message == s.calls[c].message
            && s'.calls[c].slot == s.calls[c].slot && WroteOne(s', c) == WrotePart(s, c, j + 1)
    ensures FirstPackets(s, c, j + 1) == FirstPackets(s, c, j) + [p]
  {
    var call := s.calls[c];
    var ids := call.pc.ids;
    p := Trans(call.slot, ids[j], Fragment(Wire(call.message), ids[j]));
    assert ids[j..][1..] == ids[j + 1..] && ids[..j + 1][..j] == ids[..j];
    hide Wire, Fragment;
  }

  lemma NoneThenAll(s: Sender, c: nat)
    requires IsWriting(s, c)
    ensures WrotePart(s, c, 0) == s && FirstPackets(s, c, 0) == []
    ensures s.calls[c].pc.ids[..|s.calls[c].pc.ids|] == s.calls[c].pc.ids
  {
    var call := s.calls[c];
    assert call.pc.ids[0..] == call.pc.ids && s.calls[c := call] == s.calls;
  }

  /** Write the first j segments of what is left of a pass. */
  lemma {:induction false} PlayPart(s0: Sender, moves: seq<Move>, s: Sender, out: seq<Packet>, c: nat, j: nat)
    returns (moves': seq<Move>)
    requires Leads(s0, moves, s, out) && IsWriting(s, c) && j <= |s.calls[c].pc.ids|
    ensures Leads(s0, moves', WrotePart(s, c, j), out + FirstPackets(s, c, j)) && WellShaped(WrotePart(s, c, j))
    ensures NewsOf(moves') == NewsOf(moves)
    decreases j
  {
    hide Leads, Fragment, Wire, NewsOf;
    if j == 0 {
      NoneThenAll(s, c);
      assert out + [] == out;
      return moves;
    }
    var p := OneMorePart(s, c, j - 1);
    assert 0 <= s.calls[c].pc.ids[j - 1] < U16_SIZE;
    hide AreIDs, WroteOne, WrotePart, FirstPackets, WellShaped;
    var before := PlayPart(s0, moves, s, out, c, j - 1);
    var t := WrotePart(s, c, j - 1);
    PlayWrite(s0, before, t, out + FirstPackets(s, c, j - 1), c);
    moves' := before + [Do(WriteNext(c))];
    NewsSnoc(before, Do(WriteNext(c)));
    assert out + FirstPackets(s, c, j - 1) + [p] == out + (FirstPackets(s, c, j - 1) + [p]);
  }

  /** The segments of a pass carry its packets. */
  lemma {:induction false} PassCarries(sending: MsgSending, message: bytes, segs: seq<Segment>, ids: seq<int>)
    requires sending == MsgSending.New(TYPE_TRANS, 0, sending.streamID, sending.transID, message)
    requires AreSegments(sending, segs, ids)
    ensures AreIDs(ids)
    ensures Wrote(segs, PassPackets(message, sending.transID, ids), sending.streamID)
  {
    if ids != [] {
      var n := |ids| - 1;
      PassCarries(sending, message, segs[..n], ids[..n]);
      assert Carries(segs[n], Trans(sending.transID, ids[n], Fragment(Wire(message), ids[n])), sending.streamID);
      hide Wire, Fragment, Carries;
    }
  }

  lemma WroteMore(a: seq<Segment>, out: seq<Packet>, b: seq<Segment>, more: seq<Packet>, streamID: u32)
    requires Wrote(a, out, streamID) && Wrote(b, more, streamID)
    ensures Wrote(a + b, out + more, streamID)
  {
    hide Carries;
  }

  /** What a run is told from outside, and the request IDs it draws: the answers and acknowledgements that
      arrive, and the waits that time out. */
  datatype News = Answer(status: Status) | Ack | WaitOver | Asked

  ghost function NewsIn(m: Move): seq<News> {
    match m
    case Get(Reply(_, _, status)) => [Answer(status)]
    case Get(Received(_)) => [Ack]
    case Do(WaitTimeout(_)) => [WaitOver]
    case Do(Ask(_, _)) => [Asked]
    case _ => []
  }

  ghost function NewsOf(moves: seq<Move>): seq<News> {
    if moves == [] then [] else NewsOf(moves[..|moves| - 1]) + NewsIn(moves[|moves| - 1])
  }

  lemma NewsSnoc(moves: seq<Move>, m: Move)
    ensures NewsOf(moves + [m]) == NewsOf(moves) + NewsIn(m)
  {
    assert (moves + [m])[..|moves|] == moves;
  }

  /** How a move can bring nil closer to call c. */
  ghost predicate TowardsNil(s: Sender, s': Sender, c: nat, news: seq<News>) {
    c < |s'.calls| ==>
      if c < |s.calls| then
        && (s'.calls[c].acked ==> s.calls[c].acked || Ack in news)
        && (s'.calls[c].pc == Returned(true) ==>
              s.calls[c].pc == Returned(true) || s.calls[c].acked || Answer(Completed) in news)
      else !s'.calls[c].acked && s'.calls[c].pc.Begun?
  }

  lemma ActTowardsNil(s: Sender, e: SendEvent, c: nat)
    requires WellShaped(s) && Enabled(s, e)
    ensures TowardsNil(s, SendStep(s, e).0, c, [])
  {
    hide IdPool.IsNextID, FullRound;
  }

  lemma AnswerTowardsNil(s: Sender, p: Packet, c: nat)
    requires WellShaped(s)
    ensures TowardsNil(s, OnAnswer(s, p), c, NewsIn(Get(p)))
  {
    hide PassAfter;
  }

  lemma MoveToNil(s: Sender, m: Move, c: nat)
    requires CanMove(s, m)
    ensures TowardsNil(s, AfterMove(s, m).0, c, NewsIn(m))
  {
    hide SendStep, OnAnswer, Enabled;
    match m
    case Do(e) => ActTowardsNil(s, e, c);
    case Get(p) => AnswerTowardsNil(s, p, c);
  }

  /** A call returns nil only after it has been told so: by an acknowledgement, or the answer "completed". */
  lemma {:induction false} NilHasReason(s0: Sender, moves: seq<Move>, s: Sender, out: seq<Packet>, c: nat)
    requires Leads(s0, moves, s, out) && |s0.calls| <= c < |s.calls|
    ensures s.calls[c].acked ==> Ack in NewsOf(moves)
    ensures s.calls[c].pc == Returned(true) ==> Ack in NewsOf(moves) || Answer(Completed) in NewsOf(moves)
  {
    if moves != [] {
      var before, m := moves[..|moves| - 1], moves[|moves| - 1];
      var p := Play(s0, before).value;
      MoveToNil(p.s, m, c);
      hide AfterMove, CanMove;
      if c < |p.s.calls| { NilHasReason(s0, before, p.s, p.out, c); }
    }
  }

  /** A run so far. */
  datatype Path = Path(start: Sender, moves: seq<Move>, s: Sender, out: seq<Packet>)

  ghost predicate IsPath(p: Path) { Leads(p.start, p.moves, p.s, p.out) }

  ghost function Then(p: Path, m: Move): Path
    requires CanMove(p.s, m)
  {
    var (s', written) := AfterMove(p.s, m);
    Path(p.start, p.moves + [m], s', p.out + written)
  }

  lemma ThenIsPath(p: Path, m: Move)
    requires IsPath(p) && CanMove(p.s, m)
    ensures IsPath(Then(p, m)) && NewsOf(Then(p, m).moves) == NewsOf(p.moves) + NewsIn(m)
  {
    hide AfterMove, CanMove;
    NewsSnoc(p.moves, m);
    PlayOn(p.start, p.moves, p.s, p.out, m);
  }

  lemma FailPath(p: Path, c: nat, k: u16, message: bytes, forget: bool) returns (p': Path)
    requires IsPath(p) && At(p.s, c, k, message)
    requires p.s.calls[c].pc.Writing? || p.s.calls[c].pc.Querying? || p.s.calls[c].pc.Waiting?
    ensures IsPath(p') && p'.start == p.start && p'.out == p.out
    ensures p'.s == Failed(p.s, c, forget) && WellShaped(p'.s)
    ensures NewsOf(p'.moves) == NewsOf(p.moves)
  {
    hide IsPath, AfterMove, CanMove, NewsOf, Leads, Failed;
    var m := Do(Fail(c, forget));
    FailMove(p.s, c, forget);
    hide At, WellShaped;
    ThenIsPath(p, m);
    p' := Then(p, m);
    assert NewsIn(m) == [] && NewsOf(p.moves) + [] == NewsOf(p.moves);
    assert p'.out == p.out + [];
  }

  /** Write a whole pass and end it. */
  lemma PassPath(p: Path, c: nat, sending: MsgSending, message: bytes, segs: seq<Segment>) returns (p': Path)
    requires IsPath(p) && At(p.s, c, sending.transID, message) && p.s.calls[c].pc.Writing?
    requires sending == MsgSending.New(TYPE_TRANS, 0, sending.streamID, sending.transID, message)
    requires AreSegments(sending, segs, p.s.calls[c].pc.ids)
    ensures IsPath(p') && p'.start == p.start
    ensures p'.s == match p.s.calls[c].pc.after
                    case ToQuery => WithPc(WrotePart(p.s, c, |p.s.calls[c].pc.ids|), c, Asking)
                    case ToWait => WithPc(WrotePart(p.s, c, |p.s.calls[c].pc.ids|), c, Waiting)
                    case ToError => Freed(WrotePart(p.s, c, |p.s.calls[c].pc.ids|), c, false)
    ensures forall sent :: Wrote(sent, p.out, sending.streamID) ==> Wrote(sent + segs, p'.out, sending.streamID)
    ensures NewsOf(p'.moves) == NewsOf(p.moves)
  {
    var ids := p.s.calls[c].pc.ids;
    PassCarries(sending, message, segs, ids);
    NoneThenAll(p.s, c);
    var moves := PlayPart(p.start, p.moves, p.s, p.out, c, |ids|);
    var written := PassPackets(message, sending.transID, ids);
    var q := Path(p.start, moves, WrotePart(p.s, c, |p.s.calls[c].pc.ids|), p.out + written);
    EndPassMove(q.s, c);
    ThenIsPath(q, Do(EndPass(c)));
    p' := Then(q, Do(EndPass(c)));
    assert p'.out == q.out + [] == q.out;
    hide IsPath, AfterMove, PassPackets, CanMove;
    forall sent | Wrote(sent, p.out, sending.streamID) ensures Wrote(sent + segs, p'.out, sending.streamID) {
      WroteMore(sent, p.out, segs, written, sending.streamID);
    }
  }

  /** Writing fails after the first j segments of a pass, and the call with it. */
  lemma BrokenPath(p: Path, c: nat, sending: MsgSending, message: bytes, segs: seq<Segment>, j: nat, sent: seq<Segment>)
    returns (p': Path)
    requires IsPath(p) && At(p.s, c, sending.transID, message) && p.s.calls[c].pc.Writing?
    requires sending == MsgSending.New(TYPE_TRANS, 0, sending.streamID, sending.transID, message)
    requires AreSegments(sending, segs, p.s.calls[c].pc.ids) && j <= |segs| && Wrote(sent, p.out, sending.streamID)
    ensures IsPath(p') && p'.start == p.start && p'.s == Freed(WrotePart(p.s, c, j), c, false)
    ensures Wrote(sent + segs[..j], p'.out, sending.streamID)
    ensures NewsOf(p'.moves) == NewsOf(p.moves)
  {
    var ids := p.s.calls[c].pc.ids;
    PassCarries(sending, message, segs[..j], ids[..j]);
    var moves := PlayPart(p.start, p.moves, p.s, p.out, c, j);
    var written := PassPackets(message, sending.transID, ids[..j]);
    var q := Path(p.start, moves, WrotePart(p.s, c, j), p.out + written);
    assert IsPath(q);
    WroteMore(sent, p.out, segs[..j], written, sending.streamID);
    hide IsPath, PassPackets, AreSegments, Wrote;
    p' := FailPath(q, c, sending.transID, message, false);
  }

  /** The acknowledgement comes, wherever the call stands. */
  lemma AckPath(p: Path, c: nat, k: u16, message: bytes) returns (p': Path)
    requires IsPath(p) && At(p.s, c, k, message) && !p.s.calls[c].acked
    ensures IsPath(p') && p'.start == p.start && p'.out == p.out
    ensures p'.s == p.s.(slWait := p.s.slWait - {k}, calls := p.s.calls[c := p.s.calls[c].(acked := true)])
    ensures NewsOf(p'.moves) == NewsOf(p.moves) + [Ack]
  {
    AckMove(p.s, c);
    ThenIsPath(p, Get(Received(k)));
    p' := Then(p, Get(Received(k)));
    hide IsPath, AfterMove, CanMove;
    assert p'.out == p.out + [];
  }

  /** A call that waits finds its channel closed. */
  lemma SeeAckPath(p: Path, c: nat, k: u16, message: bytes) returns (p': Path)
    requires IsPath(p) && At(p.s, c, k, message) && p.s.calls[c].pc.Waiting? && p.s.calls[c].acked
    ensures IsPath(p') && p'.start == p.start && p'.out == p.out && p'.s == Freed(p.s, c, true)
    ensures NewsOf(p'.moves) == NewsOf(p.moves)
  {
    SeeAckMove(p.s, c);
    ThenIsPath(p, Do(SeeAck(c)));
    p' := Then(p, Do(SeeAck(c)));
    hide IsPath, AfterMove, CanMove;
    assert p'.out == p.out + [];
  }

  lemma ReplyPath(p: Path, c: nat, k: u16, message: bytes, id: u32, status: Status) returns (p': Path)
    requires IsPath(p) && At(p.s, c, k, message) && p.s.calls[c].pc == Querying(id)
    requires id in p.s.requests && p.s.requests[id] == c
    ensures IsPath(p') && p'.start == p.start && p'.out == p.out
    ensures var pass := PassAfter(status, p.s.calls[c].Count());
            p'.s == (if status.Completed? then Freed(p.s, c, true)
                     else WithPc(p.s, c, Writing(pass.ids, pass.after))).(requests := p.s.requests - {id})
    ensures WellShaped(p'.s)
    ensures NewsOf(p'.moves) == NewsOf(p.moves) + [Answer(status)]
  {
    ReplyMove(p.s, c, id, status);
    ThenIsPath(p, Get(Reply(k, id, status)));
    p' := Then(p, Get(Reply(k, id, status)));
    hide IsPath, AfterMove, CanMove, PassAfter, SegmentCount;
    assert p'.out == p.out + [];
  }

  lemma AskPath(p: Path, c: nat, k: u16, message: bytes, id: u32) returns (p': Path)
    requires IsPath(p) && At(p.s, c, k, message) && p.s.calls[c].pc.Asking?
    requires IdPool.IsNextID(p.s.requestID, 1, p.s.requests.Keys, id)
    ensures IsPath(p') && p'.start == p.start && p'.out == p.out
    ensures p'.s == WithPc(p.s, c, Querying(id)).(
                      requests := p.s.requests[id := c], requestID := id, askers := p.s.askers + [c])
    ensures NewsOf(p'.moves) == NewsOf(p.moves) + [Asked]
  {
    AskMove(p.s, c, id);
    ThenIsPath(p, Do(Ask(c, id)));
    p' := Then(p, Do(Ask(c, id)));
    hide IsPath, AfterMove, CanMove, IdPool.IsNextID;
    assert p'.out == p.out + [];
  }

  lemma QueryPath(p: Path, c: nat, k: u16, message: bytes, sent: seq<Segment>, streamID: u32, seg: Segment)
    returns (p': Path)
    requires IsPath(p) && At(p.s, c, k, message) && p.s.calls[c].pc.Querying? && Wrote(sent, p.out, streamID)
    requires seg == MakeSegment(TYPE_REQ, 0, streamID, k, 0, PutU32(p.s.calls[c].pc.id) + [QUERY_RECEIVE])
    ensures IsPath(p') && p'.start == p.start && p'.s == p.s && Wrote(sent + [seg], p'.out, streamID)
    ensures NewsOf(p'.moves) == NewsOf(p.moves)
  {
    QueryMove(p.s, c);
    ThenIsPath(p, Do(WriteQuery(c)));
    p' := Then(p, Do(WriteQuery(c)));
    hide IsPath, AfterMove, CanMove;
    var query := Query(k, p.s.calls[c].pc.id);
    assert Carries(seg, query, streamID);
    WroteMore(sent, p.out, [seg], [query], streamID);
  }

  lemma TimeoutPath(p: Path, c: nat, k: u16, message: bytes) returns (p': Path)
    requires IsPath(p) && At(p.s, c, k, message) && p.s.calls[c].pc.Waiting?
    ensures IsPath(p') && p'.start == p.start && p'.out == p.out && p'.s == WithPc(p.s, c, Asking)
    ensures NewsOf(p'.moves) == NewsOf(p.moves) + [WaitOver]
  {
    TimeoutMove(p.s, c);
    ThenIsPath(p, Do(WaitTimeout(c)));
    p' := Then(p, Do(WaitTimeout(c)));
    hide IsPath, AfterMove, CanMove;
    assert p'.out == p.out + [];
  }

  /** Take the first free slot and register for its acknowledgement. */
  lemma StartPath(s: Sender, message: bytes) returns (p: Path)
    requires WellShaped(s) && !s.stuck && Sendable(message) && FreeSlot(s.sl) < SLOTS
    ensures IsPath(p) && p.start == s && p.out == []
    ensures var c, k, first := |s.calls|, FreeSlot(s.sl), FullRound(SegmentCount(Wire(message)), SEND_WINDOW);
            && At(p.s, c, k, message) && |p.s.calls| == c + 1 && p.s.calls[..c] == s.calls
            && p.s.calls[c].pc == Writing(first.ids, first.after)
            && p.s.slWait == s.slWait[k := c] && p.s.requests == s.requests && p.s.requestID == s.requestID
            && p.s.sl == s.sl[k := Some(c)]
    ensures NewsOf(p.moves) == []
  {
    var c := |s.calls|;
    var p0 := Path(s, [], s, []);
    assert Play(s, []) == Some(Played(s, []));
    BeginMove(s, message);
    ThenIsPath(p0, Do(Begin(message)));
    var p1 := Then(p0, Do(Begin(message)));
    hide IsPath, AfterMove, FullRound, SegmentCount;
    RegisterMove(p1.s, c);
    ThenIsPath(p1, Do(Register(c)));
    p := Then(p1, Do(Register(c)));
  }
}
