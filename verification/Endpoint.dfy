/** proto/udp/udp.go, the two halves of a `Conn`, as steps over values. The sending half is one step
    per shared-state access or datagram of `SendMsg`; the receiving half is one step per datagram. */
module Endpoint {
  import opened Bytes
  import opened Sending
  import opened Recving
  import opened Rounds
  import opened Status
  import IdPool

  const SLOTS: nat := 10

  /** The datagrams of the message protocol. */
  datatype Packet =
    | Trans(slot: u16, orderID: u16, body: bytes)
    | Query(slot: u16, id: u32)
    | Reply(slot: u16, id: u32, status: Status)
    | Received(slot: u16)

  /* ---- receiving half ---- */

  /** A message handed to `inbound`, and the slot it came in on. */
  datatype Delivery = Delivery(slot: nat, message: bytes)

  const NOTHING_RECEIVED: seq<Option<Recv>> := [None, None, None, None, None, None, None, None, None, None]

  type RecvList = rl: seq<Option<Recv>> | |rl| == SLOTS witness NOTHING_RECEIVED

  /** A missing or completed `msgRecving` is replaced before the segment is saved. */
  function Current(recving: Option<Recv>): Recv {
    if recving.None? || recving.value.completed then FRESH else recving.value
  }

  /** `handleTrans`: the new list and the message handed to `inbound`, if any. */
  function OnTrans(rl: RecvList, slot: u16, orderID: u16, body: bytes): (RecvList, Option<bytes>)
    requires slot < SLOTS && Current(rl[slot]).CanSave(orderID, body)
  {
    var (r, msg) := Current(rl[slot]).Save(orderID, body);
    (rl[slot := Some(r)], msg)
  }

  /** Whether `handle` processes a transfer datagram: a slot past the last is an error, and the first
      body of a transfer must hold the length prefix. */
  predicate Accepts(rl: RecvList, p: Packet) {
    p.Trans? && p.slot < SLOTS && Current(rl[p.slot]).CanSave(p.orderID, p.body)
  }

  function AfterRequest(rl: RecvList, p: Packet): RecvList {
    if Accepts(rl, p) then OnTrans(rl, p.slot, p.orderID, p.body).0 else rl
  }

  /** The message handed to `inbound`. */
  function Delivered(rl: RecvList, p: Packet): Option<bytes> {
    if Accepts(rl, p) then OnTrans(rl, p.slot, p.orderID, p.body).1 else None
  }

  /** The datagrams the receiving half answers with: an acknowledgement when a message comes out, and
      the status of the slot when it is queried. */
  function Answers(rl: RecvList, p: Packet): seq<Packet> {
    match p
    case Trans(slot, _, _) => if Delivered(rl, p).Some? then [Received(slot)] else []
    case Query(slot, id) => if slot < SLOTS then [Reply(slot, id, StatusOf(rl[slot], SEND_WINDOW))] else []
    case _ => []
  }

  /* ---- sending half ---- */

  /** Where a `SendMsg` call stands. */
  datatype Pc =
    | Begun                                // it holds a slot
    | Writing(ids: seq<int>, after: After) // segments of this pass still to write
    | Asking                               // at QUERY, before it has a request ID
    | Querying(id: u32)
    | Waiting                              // at WAIT
    | Returned(ok: bool)

  /** `first` records whether the slot was fresh, `sent` which IDs have been written. */
  datatype Call = Call(message: bytes, slot: u16, first: bool, sent: nat, pc: Pc, acked: bool) {
    predicate Active() { !pc.Returned? }
    function Count(): u16 { SegmentCount(Wire(message)) }
  }

  /** A channel is named by the call that made it. `begun` counts the calls that ever took a slot,
      `askers` lists the calls that drew the request IDs 1, 2, and so on. `stuck` is set when `handleRep`
      sends on a channel that nothing will receive from: it never returns, and keeps `requestMutex`. */
  datatype Sender = Sender(
    calls: seq<Call>, sl: seq<Option<nat>>,
    slWait: map<u16, nat>, requests: map<u32, nat>, requestID: u32,
    begun: seq<nat>, askers: seq<nat>, stuck: bool)
  {
    /** Return from call c: the deferred function frees the slot. */
    function Return(c: nat, ok: bool): Sender
      requires c < |calls| && calls[c].slot < |sl|
    {
      this.(calls := calls[c := calls[c].(pc := Returned(ok))], sl := sl[calls[c].slot := None])
    }

    function Goto(c: nat, pc: Pc): Sender
      requires c < |calls|
    {
      this.(calls := calls[c := calls[c].(pc := pc)])
    }
  }

  /** The first free slot, or SLOTS. */
  function FreeSlot<T>(sl: seq<Option<T>>): (i: nat)
    ensures i <= |sl|
    ensures i < |sl| ==> sl[i].None?
    ensures forall j :: 0 <= j < i ==> sl[j].Some?
  {
    if sl == [] || sl[0].None? then 0 else 1 + FreeSlot(sl[1..])
  }

  datatype SendEvent =
    | Begin(message: bytes)
    | Register(c: nat)
    | WriteNext(c: nat)
    | EndPass(c: nat)
    | Ask(c: nat, id: u32)
    | WriteQuery(c: nat)
    | SeeAck(c: nat)
    | WaitTimeout(c: nat)
    | Fail(c: nat, forget: bool)

  ghost predicate Enabled(s: Sender, e: SendEvent) {
    if e.Begin? then Sendable(e.message) && FreeSlot(s.sl) < |s.sl|
    else
      e.c < |s.calls| && var pc := s.calls[e.c].pc;
      match e
      case Register(_) => pc.Begun?
      case WriteNext(_) => pc.Writing? && pc.ids != [] && 0 <= pc.ids[0] < U16_SIZE
      case EndPass(_) => pc.Writing? && pc.ids == []
      case Ask(_, id) => pc.Asking? && !s.stuck && IdPool.IsNextID(s.requestID, 1, s.requests.Keys, id)
      case WriteQuery(_) => pc.Querying?
      case SeeAck(_) => pc.Waiting? && s.calls[e.c].acked
      case WaitTimeout(_) => pc.Waiting?
      case Fail(_, forget) => pc.Writing? || pc.Waiting? || (pc.Querying? && !(forget && s.stuck))
      case Begin(_) => true
  }

  ghost predicate WellShaped(s: Sender) {
    && |s.sl| == |s.begun| == SLOTS
    && (forall c :: 0 <= c < |s.calls| ==> s.calls[c].slot < SLOTS)
    && (forall id :: id in s.requests ==> s.requests[id] < |s.calls|)
    && (forall k :: k in s.slWait ==> s.slWait[k] < |s.calls|)
  }

  /** One step of one `SendMsg` call, and the datagram it writes. */
  ghost function SendStep(s: Sender, e: SendEvent): (res: (Sender, seq<Packet>))
    requires WellShaped(s) && Enabled(s, e)
  {
    match e
    case Begin(message) =>
      var k := FreeSlot(s.sl);
      (s.(calls := s.calls + [Call(message, k, s.begun[k] == 0, 0, Begun, false)],
          sl := s.sl[k := Some(|s.calls|)],
          begun := s.begun[k := s.begun[k] + 1]), [])
    case Register(c) =>
      var first := FullRound(s.calls[c].Count(), SEND_WINDOW);
      (s.(slWait := s.slWait[s.calls[c].slot := c]).Goto(c, Writing(first.ids, first.after)), [])
    case WriteNext(c) =>
      var call := s.calls[c];
      var i := call.pc.ids[0];
      (s.(calls := s.calls[c := call.(pc := Writing(call.pc.ids[1..], call.pc.after), sent := call.sent + 1)]),
       [Trans(call.slot, i, Fragment(Wire(call.message), i))])
    case EndPass(c) =>
      (match s.calls[c].pc.after
       case ToQuery => s.Goto(c, Asking)
       case ToWait => s.Goto(c, Waiting)
       case ToError => s.Return(c, false), [])
    case Ask(c, id) =>
      (s.(requests := s.requests[id := c], requestID := id, askers := s.askers + [c]).Goto(c, Querying(id)), [])
    case WriteQuery(c) => (s, [Query(s.calls[c].slot, s.calls[c].pc.id)])
    case SeeAck(c) => (s.Return(c, true), [])
    case WaitTimeout(c) => (s.Goto(c, Asking), [])
    case Fail(c, forget) =>
      var pc := s.calls[c].pc;
      (s.(requests := if forget && pc.Querying? then s.requests - {pc.id} else s.requests,
          slWait := if forget && pc.Waiting? then s.slWait - {s.calls[c].slot} else s.slWait).Return(c, false), [])
  }

  /** The pass that a decoded status leads to. */
  function PassAfter(status: Status, count: nat): Round {
    match status
    case NotCompleted(largest, missing) => ResendRound(largest, missing, count, SEND_WINDOW)
    case _ => FullRound(count, SEND_WINDOW)
  }

  /** `handleRep`: hand the status to the call that waits for this request ID. A call that has given
      up but left its ID pending never receives it. */
  function OnReply(s: Sender, id: u32, status: Status): Sender
    requires WellShaped(s)
  {
    if id !in s.requests then s
    else if s.calls[s.requests[id]].pc != Querying(id) then s.(stuck := true)
    else
      var c := s.requests[id];
      var s' := s.(requests := s.requests - {id});
      if status.Completed? then s'.Return(c, true)
      else var pass := PassAfter(status, s.calls[c].Count()); s'.Goto(c, Writing(pass.ids, pass.after))
  }

  /** `handleReceived`: close the channel registered for the slot. */
  function OnReceived(s: Sender, slot: u16): Sender
    requires WellShaped(s)
  {
    if slot !in s.slWait then s
    else
      var c := s.slWait[slot];
      s.(slWait := s.slWait - {slot}, calls := s.calls[c := s.calls[c].(acked := true)])
  }

  function OnAnswer(s: Sender, p: Packet): Sender
    requires WellShaped(s)
  {
    match p
    case Reply(_, id, status) => OnReply(s, id, status)
    case Received(slot) => OnReceived(s, slot)
    case _ => s
  }

  const FREE_SLOTS: seq<Option<nat>> := [None, None, None, None, None, None, None, None, None, None]

  const IDLE: Sender := Sender([], FREE_SLOTS, map[], map[], 0, [0, 0, 0, 0, 0, 0, 0, 0, 0, 0], [], false)
}
