/** The same endpoints over a network that delays, but neither loses nor reorders: one queue each way.
    Timeouts may still fire at any moment. Whatever the queues hold, each slot then evolves as if its
    segments, queries and replies took no time: that is `SlotStep`, and every step of every run is one. */
module FifoNetwork {
  import opened Bytes
  import opened Sending
  import opened Recving
  import opened Rounds
  import opened Status
  import opened Endpoint
  import opened SenderInvariant
  import IdPool

  /** A segment that some call wrote. */
  datatype Entry = Entry(call: nat, message: bytes, id: u16)

  /** `out[k]` is the history of transfer segments written on slot k, and `eaten[k]` how many of them
      have arrived; neither is read by the endpoints. */
  datatype Sys = Sys(
    snd: Sender, rl: RecvList, toR: seq<Packet>, toS: seq<Packet>, log: seq<Delivery>,
    out: seq<seq<Entry>>, eaten: seq<nat>)

  const INIT: Sys :=
    Sys(IDLE, NOTHING_RECEIVED, [], [], [], [[], [], [], [], [], [], [], [], [], []], [0, 0, 0, 0, 0, 0, 0, 0, 0, 0])

  datatype Event = Act(e: SendEvent) | ArriveAtReceiver | ArriveAtSender

  ghost predicate Shaped(s: Sys) {
    WellShaped(s.snd) && |s.out| == |s.eaten| == SLOTS
  }

  ghost predicate IsThere(s: Sys, ev: Event) {
    match ev
    case Act(e) => Enabled(s.snd, e)
    case ArriveAtReceiver => s.toR != []
    case ArriveAtSender => s.toS != []
  }

  /** Nothing arrives at a sending half whose handler is stuck. */
  ghost predicate Possible(s: Sys, ev: Event) {
    IsThere(s, ev) && !(ev.ArriveAtSender? && s.snd.stuck)
  }

  ghost function Happen(s: Sys, ev: Event): Sys
    requires Shaped(s) && IsThere(s, ev)
  {
    match ev
    case Act(e) =>
      var (snd, written) := SendStep(s.snd, e);
      s.(snd := snd, toR := s.toR + written,
         out := if e.WriteNext?
                then var call := s.snd.calls[e.c];
                     s.out[call.slot := s.out[call.slot] + [Entry(e.c, call.message, call.pc.ids[0])]]
                else s.out)
    case ArriveAtReceiver =>
      var p := s.toR[0];
      var msg := Delivered(s.rl, p);
      s.(toR := s.toR[1..], rl := AfterRequest(s.rl, p), toS := s.toS + Answers(s.rl, p),
         log := if msg.Some? then s.log + [Delivery(p.slot, msg.value)] else s.log,
         eaten := if p.Trans? && p.slot < SLOTS then s.eaten[p.slot := s.eaten[p.slot] + 1] else s.eaten)
    case ArriveAtSender => s.(snd := OnAnswer(s.snd, s.toS[0]), toS := s.toS[1..])
  }

  ghost predicate Next(s: Sys, s': Sys) {
    Shaped(s) && exists ev :: Possible(s, ev) && s' == Happen(s, ev)
  }

  ghost predicate IsRun(run: seq<Sys>) {
    && run != [] && run[0] == INIT
    && forall i :: 0 <= i < |run| - 1 ==> Next(run[i], run[i + 1])
  }

  /* ---- one slot ---- */

  ghost function Last<T>(s: seq<T>): T
    requires s != []
  {
    s[|s| - 1]
  }

  /** A segment arrives at a slot: what is then in the slot, and what is handed out. */
  ghost function Take(recving: Option<Recv>, e: Entry): (Option<Recv>, Option<bytes>) {
    var body := Fragment(Wire(e.message), e.id);
    if Current(recving).CanSave(e.id, body) then
      var (r, msg) := Current(recving).Save(e.id, body);
      (Some(r), msg)
    else (recving, None)
  }

  /** What is in a slot after these segments have arrived, and all it has handed out. */
  ghost function Slot(out: seq<Entry>): (Option<Recv>, seq<bytes>) {
    if out == [] then (None, [])
    else
      var (recving, handed) := Slot(out[..|out| - 1]);
      var (recving', msg) := Take(recving, Last(out));
      (recving', if msg.Some? then handed + [msg.value] else handed)
  }

  /** The messages delivered from slot k, in order. */
  ghost function LogOf(log: seq<Delivery>, k: nat): seq<bytes> {
    if log == [] then []
    else LogOf(log[..|log| - 1], k) + if Last(log).slot == k then [Last(log).message] else []
  }

  ghost predicate OnSlot(p: Packet, k: nat) { p.Trans? && p.slot == k }

  /** The transfer segments for slot k in a queue. */
  ghost function TransOf(q: seq<Packet>, k: nat): seq<Packet> {
    if q == [] then []
    else TransOf(q[..|q| - 1], k) + if OnSlot(Last(q), k) then [Last(q)] else []
  }

  ghost function PacketOf(e: Entry, k: u16): Packet {
    Trans(k, e.id, Fragment(Wire(e.message), e.id))
  }

  /* ---- a slot on its own ---- */

  ghost predicate SameProgress(a: Call, b: Call) {
    a.slot == b.slot && a.message == b.message && a.sent == b.sent
  }

  /** At most the acknowledgement has come in. */
  ghost predicate Rests(a: Call, b: Call) { b == a.(acked := b.acked) }

  /** Where a call may go without writing a segment, when the slot holds `recving` once everything
      written on it has arrived. A reply tells exactly that. */
  ghost predicate PcMoves(call: Call, pc: Pc, recving: Option<Recv>) {
    match call.pc
    case Begun => var pass := FullRound(call.Count(), SEND_WINDOW); pc == Writing(pass.ids, pass.after)
    case Writing(ids, after) =>
      || pc == Returned(false)
      || (ids == [] && after.ToQuery? && pc == Asking)
      || (ids == [] && after.ToWait? && pc == Waiting)
    case Asking => pc.Querying?
    case Querying(_) =>
      || pc == call.pc || pc == Returned(false)
      || (var status := StatusOf(recving, SEND_WINDOW); var pass := PassAfter(status, call.Count());
          pc == if status.Completed? then Returned(true) else Writing(pass.ids, pass.after))
    case Waiting => pc == Asking || pc == Returned(false) || (call.acked && pc == Returned(true))
    case Returned(_) => false
  }

  ghost predicate CanWrite(pc: Pc) { pc.Writing? && pc.ids != [] && 0 <= pc.ids[0] < U16_SIZE }

  ghost predicate CallMoves(call: Call, call': Call, c: nat, out: seq<Entry>, out': seq<Entry>) {
    || (call' == call.(pc := call'.pc) && out' == out && PcMoves(call, call'.pc, Slot(out).0))
    || (CanWrite(call.pc) && out' == out + [Entry(c, call.message, call.pc.ids[0])]
        && call' == call.(pc := Writing(call.pc.ids[1..], call.pc.after), sent := call.sent + 1))
  }

  /** A call begins, on slot k only if no call on it is active. */
  ghost predicate BeginsAt(calls: seq<Call>, calls': seq<Call>, k: nat) {
    && |calls'| == |calls| + 1 && calls'[..|calls|] == calls
    && var call := Last(calls');
       && Sendable(call.message) && call.sent == 0 && call.pc.Begun? && !call.acked
       && (call.slot == k ==> forall c :: 0 <= c < |calls| && calls[c].slot == k ==> !calls[c].Active())
  }

  ghost predicate RestsAt(calls: seq<Call>, calls': seq<Call>, k: nat) {
    && |calls'| == |calls|
    && forall c :: 0 <= c < |calls| ==>
         calls'[c].slot == calls[c].slot && (calls[c].slot == k ==> Rests(calls[c], calls'[c]))
  }

  /** Call c, the latest on slot k and the only active one, moves. */
  ghost predicate MovesAt(calls: seq<Call>, calls': seq<Call>, out: seq<Entry>, out': seq<Entry>, k: nat, c: nat) {
    && c < |calls| == |calls'| && calls[c].slot == k && calls[c].Active()
    && CallMoves(calls[c], calls'[c], c, out, out')
    && (forall x :: 0 <= x < |calls| && x != c ==> calls'[x] == calls[x])
    && (forall x :: 0 <= x < |calls| && x != c && calls[x].slot == k ==> x < c && !calls[x].Active())
  }

  /** One step of the system, seen from the calls and the history of slot k. */
  ghost predicate SlotStep(calls: seq<Call>, calls': seq<Call>, out: seq<Entry>, out': seq<Entry>, k: nat) {
    || (BeginsAt(calls, calls', k) && out' == out)
    || (RestsAt(calls, calls', k) && out' == out)
    || (exists c :: MovesAt(calls, calls', out, out', k, c))
  }

  /* ---- invariants ---- */

  /** An active call is the latest on its slot. */
  ghost predicate ActiveIsLatest(calls: seq<Call>) {
    forall c, c' :: 0 <= c < c' < |calls| && calls[c].Active() ==> calls[c'].slot != calls[c].slot
  }

  /** The transfer segments for slot k still in the queue are the written ones that have not arrived. */
  ghost predicate InFlight(toR: seq<Packet>, out: seq<Entry>, eaten: nat, k: u16) {
    var q := TransOf(toR, k);
    && eaten <= |out| && |q| == |out| - eaten
    && forall j :: 0 <= j < |q| ==> q[j] == PacketOf(out[eaten + j], k)
  }

  ghost predicate ArrivedOk(s: Sys, k: nat)
    requires Shaped(s) && k < SLOTS
  {
    var out, eaten := s.out[k], s.eaten[k];
    InFlight(s.toR, out, eaten, k) && s.rl[k] == Slot(out[..eaten]).0 && LogOf(s.log, k) == Slot(out[..eaten]).1
  }

  /** While call c waits for the reply to request id: a query in the queue is behind all segments of its
      slot, and a reply in the queue tells what is in the slot when all of them have arrived. */
  ghost predicate PendingOk(s: Sys, c: nat, id: u32)
    requires Shaped(s) && c < |s.snd.calls|
  {
    var k := s.snd.calls[c].slot;
    && (forall a, b :: 0 <= a < b < |s.toR| && s.toR[a].Query? && s.toR[a].id == id ==> !OnSlot(s.toR[b], k))
    && (forall a :: 0 <= a < |s.toS| && s.toS[a].Reply? && s.toS[a].id == id ==>
          s.toS[a].status == StatusOf(Slot(s.out[k]).0, SEND_WINDOW))
  }

  ghost predicate QueriesOk(s: Sys)
    requires Shaped(s)
  {
    forall c :: 0 <= c < |s.snd.calls| && s.snd.calls[c].pc.Querying? ==> PendingOk(s, c, s.snd.calls[c].pc.id)
  }

  ghost predicate QueuesOk(s: Sys) {
    && (forall a :: 0 <= a < |s.toR| ==>
          || (s.toR[a].Trans? && s.toR[a].slot < SLOTS)
          || (s.toR[a].Query? && AskedFor(s.snd, s.toR[a].slot, s.toR[a].id)))
    && (forall a :: 0 <= a < |s.toS| ==>
          s.toS[a].Received? || (s.toS[a].Reply? && AskedFor(s.snd, s.toS[a].slot, s.toS[a].id)))
  }

  ghost predicate SlotsInv(s: Sys)
    requires Shaped(s)
  {
    forall k :: 0 <= k < SLOTS ==> ArrivedOk(s, k)
  }

  ghost predicate Inv(s: Sys) {
    Shaped(s) && SenderOk(s.snd) && ActiveIsLatest(s.snd.calls) && QueuesOk(s) && QueriesOk(s) && SlotsInv(s)
  }

  /* ---- lists ---- */

  lemma TransOfSnoc(q: seq<Packet>, p: Packet, k: nat)
    ensures TransOf(q + [p], k) == TransOf(q, k) + if OnSlot(p, k) then [p] else []
  {
    assert (q + [p])[..|q|] == q;
  }

  lemma TransOfEnd(q: seq<Packet>, k: nat)
    requires q != []
    ensures TransOf(q, k) == TransOf(q[..|q| - 1], k) + if OnSlot(q[|q| - 1], k) then [q[|q| - 1]] else []
  {
  }

  lemma {:induction false} TransOfPop(q: seq<Packet>, k: nat)
    requires q != []
    ensures TransOf(q, k) == (if OnSlot(q[0], k) then [q[0]] else []) + TransOf(q[1..], k)
  {
    if |q| == 1 {
      assert q[..0] == [] && q[1..] == [];
    } else {
      var init, rest, last := q[..|q| - 1], q[1..], q[|q| - 1];
      TransOfPop(init, k);
      assert rest[..|q| - 2] == init[1..] && rest[|q| - 2] == last;
      hide OnSlot;
      TransOfEnd(q, k);
      TransOfEnd(rest, k);
      hide TransOf;
    }
  }

  lemma {:induction false} NoTrans(q: seq<Packet>, k: nat)
    requires forall a :: 0 <= a < |q| ==> !OnSlot(q[a], k)
    ensures TransOf(q, k) == []
  {
    if q != [] {
      NoTrans(q[..|q| - 1], k);
    }
  }

  lemma LogOfSnoc(log: seq<Delivery>, d: Delivery, k: nat)
    ensures LogOf(log + [d], k) == LogOf(log, k) + if d.slot == k then [d.message] else []
  {
    assert (log + [d])[..|log|] == log;
  }

  lemma SlotSnoc(out: seq<Entry>, e: Entry)
    ensures var (recving, msg) := Take(Slot(out).0, e);
            Slot(out + [e]) == (recving, if msg.Some? then Slot(out).1 + [msg.value] else Slot(out).1)
  {
    assert (out + [e])[..|out|] == out;
  }

  lemma InFlightGrows(toR: seq<Packet>, out: seq<Entry>, eaten: nat, k: u16, e: Entry)
    requires InFlight(toR, out, eaten, k)
    ensures InFlight(toR + [PacketOf(e, k)], out + [e], eaten, k)
  {
    var p := PacketOf(e, k);
    TransOfSnoc(toR, p, k);
    assert OnSlot(p, k);
    hide PacketOf;
    var q, q' := TransOf(toR, k), TransOf(toR + [p], k);
    assert q' == q + [p];
    hide TransOf;
    forall j | 0 <= j < |q'| ensures q'[j] == PacketOf((out + [e])[eaten + j], k) {
      if j < |q| { assert (out + [e])[eaten + j] == out[eaten + j]; }
    }
  }

  lemma InFlightArrives(toR: seq<Packet>, out: seq<Entry>, eaten: nat, k: u16)
    requires InFlight(toR, out, eaten, k) && toR != [] && OnSlot(toR[0], k)
    ensures eaten < |out| && toR[0] == PacketOf(out[eaten], k)
    ensures InFlight(toR[1..], out, eaten + 1, k)
  {
    hide PacketOf;
    TransOfPop(toR, k);
    var q, rest := TransOf(toR, k), TransOf(toR[1..], k);
    assert q == [toR[0]] + rest;
    hide TransOf, OnSlot;
    assert toR[0] == q[0] == PacketOf(out[eaten], k);
    forall j | 0 <= j < |rest| ensures rest[j] == PacketOf(out[eaten + 1 + j], k) {
      assert rest[j] == q[j + 1];
    }
  }

  /* ---- steps of the sending half ---- */

  lemma ActLeavesOthers(s: Sender, e: SendEvent)
    requires WellShaped(s) && Enabled(s, e) && !e.Begin?
    ensures var s' := SendStep(s, e).0;
            && |s'.calls| == |s.calls| && SameCall(s.calls[e.c], s'.calls[e.c]) && s.calls[e.c].Active()
            && s'.calls[e.c].sent == (if e.WriteNext? then s.calls[e.c].sent + 1 else s.calls[e.c].sent)
            && forall x :: 0 <= x < |s.calls| && x != e.c ==> s'.calls[x] == s.calls[x]
  {
    hide IdPool.IsNextID;
  }

  /** What a step writes. */
  lemma ActWrites(s: Sender, e: SendEvent)
    requires WellShaped(s) && Enabled(s, e)
    ensures var out := SendStep(s, e).1;
            out == if e.WriteNext? then [Trans(s.calls[e.c].slot, s.calls[e.c].pc.ids[0],
                                               Fragment(Wire(s.calls[e.c].message), s.calls[e.c].pc.ids[0]))]
                   else if e.WriteQuery? then [Query(s.calls[e.c].slot, s.calls[e.c].pc.id)] else []
  {
    hide IdPool.IsNextID;
  }

  lemma ActQueues(s: Sys, e: SendEvent)
    requires Shaped(s) && RequestsOk(s.snd) && QueuesOk(s) && Possible(s, Act(e))
    requires Extends(s.snd, Happen(s, Act(e)).snd)
    ensures QueuesOk(Happen(s, Act(e)))
  {
    AskedForStays(s.snd, Happen(s, Act(e)).snd);
    ActWrites(s.snd, e);
    if e.WriteQuery? { assert AskedFor(s.snd, s.snd.calls[e.c].slot, s.snd.calls[e.c].pc.id); }
    hide SendStep;
  }

  ghost function Written(s: Sys, e: SendEvent): Entry
    requires e.WriteNext? && e.c < |s.snd.calls| && CanWrite(s.snd.calls[e.c].pc)
  {
    Entry(e.c, s.snd.calls[e.c].message, s.snd.calls[e.c].pc.ids[0])
  }

  /** What a step of the sending half does to the system. */
  lemma ActShape(s: Sys, e: SendEvent)
    requires Shaped(s) && Possible(s, Act(e))
    ensures var s' := Happen(s, Act(e));
            && s'.snd == SendStep(s.snd, e).0
            && s'.rl == s.rl && s'.toS == s.toS && s'.log == s.log && s'.eaten == s.eaten
            && (!e.WriteNext? && !e.WriteQuery? ==> s'.toR == s.toR)
            && (!e.WriteNext? ==> s'.out == s.out)
            && (e.WriteQuery? ==> e.c < |s.snd.calls| && s.snd.calls[e.c].pc.Querying?
                                  && s'.toR == s.toR + [Query(s.snd.calls[e.c].slot, s.snd.calls[e.c].pc.id)])
            && (e.WriteNext? ==>
                  && e.c < |s.snd.calls| && CanWrite(s.snd.calls[e.c].pc)
                  && var k := s.snd.calls[e.c].slot;
                     k < SLOTS && s'.toR == s.toR + [PacketOf(Written(s, e), k)]
                     && s'.out == s.out[k := s.out[k] + [Written(s, e)]])
  {
    ActWrites(s.snd, e);
    hide SendStep, IdPool.IsNextID;
    assert s.toR + [] == s.toR;
  }

  /** Another call's pending query is not overtaken by a step of call e.c. */
  lemma ActPending(s: Sys, e: SendEvent, c: nat)
    requires Inv(s) && Possible(s, Act(e)) && Shaped(Happen(s, Act(e)))
    requires c < |s.snd.calls| && s.snd.calls[c].pc.Querying?
    requires !e.Begin? ==> e.c != c || e.WriteQuery?
    requires c < |Happen(s, Act(e)).snd.calls| && Happen(s, Act(e)).snd.calls[c].slot == s.snd.calls[c].slot
    ensures PendingOk(Happen(s, Act(e)), c, s.snd.calls[c].pc.id)
  {
    ActShape(s, e);
    assert PendingOk(s, c, s.snd.calls[c].pc.id);
    if e.WriteNext? { assert s.snd.calls[e.c].slot != s.snd.calls[c].slot; }
    hide Happen, SendStep, Inv, Possible, Slot, StatusOf;
  }

  /** A new request ID is in no queue yet. */
  lemma AskPending(s: Sys, c: nat, id: u32)
    requires Inv(s) && Possible(s, Act(Ask(c, id))) && Shaped(Happen(s, Act(Ask(c, id))))
    requires |s.snd.askers| + 1 < U32_SIZE
    ensures c < |Happen(s, Act(Ask(c, id))).snd.calls|
    ensures PendingOk(Happen(s, Act(Ask(c, id))), c, id)
  {
    NextRequestID(s.snd, id);
    ActShape(s, Ask(c, id));
    ActLeavesOthers(s.snd, Ask(c, id));
    hide SlotsInv, QueriesOk, IdPool.IsNextID, SendStep, Happen, Slot, StatusOf;
    assert forall a :: 0 <= a < |s.toR| && s.toR[a].Query? ==> s.toR[a].id != id;
    assert forall a :: 0 <= a < |s.toS| && s.toS[a].Reply? ==> s.toS[a].id != id;
  }

  /** A call that asks after a step asked before, or has just drawn its ID. */
  lemma ActAsker(s: Sender, e: SendEvent, c: nat)
    requires WellShaped(s) && Enabled(s, e) && c < |SendStep(s, e).0.calls| && SendStep(s, e).0.calls[c].pc.Querying?
    ensures c < |s.calls| && SendStep(s, e).0.calls[c].slot == s.calls[c].slot
    ensures e == Ask(c, SendStep(s, e).0.calls[c].pc.id)
            || (SendStep(s, e).0.calls[c].pc == s.calls[c].pc && (!e.Begin? ==> e.c != c || e.WriteQuery?))
  {
    hide IdPool.IsNextID, FullRound;
  }

  lemma ActQueries(s: Sys, e: SendEvent)
    requires Inv(s) && Possible(s, Act(e)) && Shaped(Happen(s, Act(e)))
    requires e.Ask? ==> |s.snd.askers| + 1 < U32_SIZE
    ensures QueriesOk(Happen(s, Act(e)))
  {
    var s' := Happen(s, Act(e));
    forall c | 0 <= c < |s'.snd.calls| && s'.snd.calls[c].pc.Querying?
      ensures PendingOk(s', c, s'.snd.calls[c].pc.id)
    {
      ActAsker(s.snd, e, c);
      if e == Ask(c, s'.snd.calls[c].pc.id) {
        AskPending(s, c, e.id);
      } else {
        ActPending(s, e, c);
      }
    }
  }

  lemma ActArrived(s: Sys, e: SendEvent, k: nat)
    requires Shaped(s) && Possible(s, Act(e)) && Shaped(Happen(s, Act(e))) && k < SLOTS && ArrivedOk(s, k)
    ensures ArrivedOk(Happen(s, Act(e)), k)
  {
    var s', out, eaten := Happen(s, Act(e)), s.out[k], s.eaten[k];
    ActShape(s, e);
    hide Happen, SendStep, Possible, Slot;
    if e.WriteNext? {
      var j, w := s.snd.calls[e.c].slot, Written(s, e);
      if j == k {
        InFlightGrows(s.toR, out, eaten, k, w);
        assert (out + [w])[..eaten] == out[..eaten];
      } else {
        TransOfSnoc(s.toR, PacketOf(w, j), k);
      }
    } else if e.WriteQuery? {
      TransOfSnoc(s.toR, Query(s.snd.calls[e.c].slot, s.snd.calls[e.c].pc.id), k);
    }
  }

  lemma ActLatest(s: Sender, e: SendEvent)
    requires WellShaped(s) && SlotsOk(s) && Enabled(s, e) && ActiveIsLatest(s.calls)
    ensures ActiveIsLatest(SendStep(s, e).0.calls)
  {
    if !e.Begin? {
      ActLeavesOthers(s, e);
      hide SendStep;
    }
  }

  lemma ActKeeps(s: Sys, e: SendEvent)
    requires Inv(s) && Possible(s, Act(e)) && |Happen(s, Act(e)).snd.askers| < U32_SIZE
    ensures Inv(Happen(s, Act(e)))
  {
    SendStepKeeps(s.snd, e);
    ActLatest(s.snd, e);
    ActQueues(s, e);
    assert e.Ask? ==> |s.snd.askers| + 1 < U32_SIZE;
    assert Shaped(Happen(s, Act(e)));
    ActQueries(s, e);
    hide SendStep, QueriesOk, QueuesOk, SenderOk;
    forall k | 0 <= k < SLOTS ensures ArrivedOk(Happen(s, Act(e)), k) {
      ActArrived(s, e, k);
    }
    hide ArrivedOk;
  }

  /* ---- arrivals ---- */

  lemma TakeIsArrival(rl: RecvList, k: nat, e: Entry)
    requires k < SLOTS
    ensures AfterRequest(rl, PacketOf(e, k)) == rl[k := Take(rl[k], e).0]
    ensures Delivered(rl, PacketOf(e, k)) == Take(rl[k], e).1
  {
    hide Recv.Save, Recv.CanSave, Current, Fragment, Wire;
    assert rl[k := rl[k]] == rl;
  }

  lemma ReceiverShape(s: Sys)
    requires Shaped(s) && s.toR != []
    ensures var s', p, msg := Happen(s, ArriveAtReceiver), s.toR[0], Delivered(s.rl, s.toR[0]);
            && s'.snd == s.snd && s'.out == s.out && s'.rl == AfterRequest(s.rl, p)
            && s'.toR == s.toR[1..] && s'.toS == s.toS + Answers(s.rl, p)
            && s'.log == (if msg.Some? then s.log + [Delivery(p.slot, msg.value)] else s.log)
            && s'.eaten == if p.Trans? && p.slot < SLOTS then s.eaten[p.slot := s.eaten[p.slot] + 1] else s.eaten
  {
    hide AfterRequest, Delivered, Answers;
  }

  lemma LogAfter(log: seq<Delivery>, slot: nat, msg: Option<bytes>, k: nat)
    ensures LogOf(if msg.Some? then log + [Delivery(slot, msg.value)] else log, k)
            == if msg.Some? && slot == k then LogOf(log, k) + [msg.value] else LogOf(log, k)
  {
    if msg.Some? { LogOfSnoc(log, Delivery(slot, msg.value), k); }
  }

  lemma ArrivedNext(s: Sys, s': Sys, k: nat)
    requires Shaped(s) && Shaped(s') && k < SLOTS && ArrivedOk(s, k) && s.toR != [] && OnSlot(s.toR[0], k)
    requires s.eaten[k] < |s.out[k]| && s'.toR == s.toR[1..] && s'.out == s.out && s'.eaten[k] == s.eaten[k] + 1
    requires var (recving, msg) := Take(s.rl[k], s.out[k][s.eaten[k]]);
             && s'.rl[k] == recving
             && LogOf(s'.log, k) == if msg.Some? then LogOf(s.log, k) + [msg.value] else LogOf(s.log, k)
    ensures ArrivedOk(s', k)
  {
    hide Slot, Take, LogOf;
    InFlightArrives(s.toR, s.out[k], s.eaten[k], k);
    SlotNext(s.out[k], s.eaten[k]);
    hide InFlight, OnSlot, WellShaped;
  }

  /** The segment at the head of the queue is the next one of its slot's history. */
  lemma SegmentArrived(s: Sys, k: nat)
    requires Shaped(s) && k < SLOTS && ArrivedOk(s, k) && s.toR != [] && OnSlot(s.toR[0], k)
    ensures ArrivedOk(Happen(s, ArriveAtReceiver), k)
  {
    var eaten := s.eaten[k];
    ReceiverShape(s);
    assert eaten < |s.out[k]| && s.toR[0] == PacketOf(s.out[k][eaten], k)
      by { InFlightArrives(s.toR, s.out[k], eaten, k); }
    hide Happen, Slot, Take, AfterRequest, Delivered, ArrivedOk, InFlight, PacketOf, LogOf;
    TakeIsArrival(s.rl, k, s.out[k][eaten]);
    LogAfter(s.log, k, Delivered(s.rl, s.toR[0]), k);
    ArrivedNext(s, Happen(s, ArriveAtReceiver), k);
  }

  lemma SlotNext(out: seq<Entry>, eaten: nat)
    requires eaten < |out|
    ensures var (recving, msg) := Take(Slot(out[..eaten]).0, out[eaten]);
            var handed := Slot(out[..eaten]).1;
            Slot(out[..eaten + 1]) == (recving, if msg.Some? then handed + [msg.value] else handed)
  {
    assert out[..eaten] + [out[eaten]] == out[..eaten + 1];
    SlotSnoc(out[..eaten], out[eaten]);
  }

  lemma InFlightStays(toR: seq<Packet>, out: seq<Entry>, eaten: nat, k: u16)
    requires InFlight(toR, out, eaten, k) && toR != [] && !OnSlot(toR[0], k)
    ensures InFlight(toR[1..], out, eaten, k)
  {
    TransOfPop(toR, k);
    assert TransOf(toR, k) == TransOf(toR[1..], k);
  }

  lemma OtherArrived(s: Sys, k: nat)
    requires Shaped(s) && k < SLOTS && ArrivedOk(s, k) && s.toR != [] && !OnSlot(s.toR[0], k)
    ensures ArrivedOk(Happen(s, ArriveAtReceiver), k)
  {
    var p := s.toR[0];
    hide Happen, Slot, AfterRequest, Delivered;
    ReceiverShape(s);
    InFlightStays(s.toR, s.out[k], s.eaten[k], k);
    OtherSlotsStay(s.rl, p, k);
    hide InFlight;
    LogAfter(s.log, p.slot, Delivered(s.rl, p), k);
    hide LogOf;
  }

  lemma OtherSlotsStay(rl: RecvList, p: Packet, k: nat)
    requires k < SLOTS && !OnSlot(p, k)
    ensures AfterRequest(rl, p)[k] == rl[k] && (Delivered(rl, p).Some? ==> p.slot != k)
  {
  }

  /** A query that arrives finds that all segments of its slot have. */
  lemma QueryFindsAll(s: Sys, c: nat)
    requires Shaped(s) && s.toR != [] && s.toR[0].Query? && c < |s.snd.calls| && s.snd.calls[c].slot < SLOTS
    requires PendingOk(s, c, s.toR[0].id) && ArrivedOk(s, s.snd.calls[c].slot)
    ensures var k := s.snd.calls[c].slot; s.eaten[k] == |s.out[k]| && s.rl[k] == Slot(s.out[k]).0
  {
    var k := s.snd.calls[c].slot;
    hide Slot;
    NoTrans(s.toR, k);
    assert s.out[k][..|s.out[k]|] == s.out[k];
  }

  lemma ReceiverPending(s: Sys, c: nat)
    requires Inv(s) && s.toR != [] && c < |s.snd.calls| && s.snd.calls[c].pc.Querying?
    requires Shaped(Happen(s, ArriveAtReceiver))
    ensures c < |Happen(s, ArriveAtReceiver).snd.calls|
    ensures PendingOk(Happen(s, ArriveAtReceiver), c, s.snd.calls[c].pc.id)
  {
    var s', p, id := Happen(s, ArriveAtReceiver), s.toR[0], s.snd.calls[c].pc.id;
    hide Happen, AfterRequest, Delivered, StatusOf, Slot;
    assert PendingOk(s, c, id);
    ReceiverShape(s);
    assert forall a :: 0 <= a < |s'.toR| ==> s'.toR[a] == s.toR[a + 1];
    if p.Query? && p.id == id {
      AskedByOne(s, c, p);
      assert ArrivedOk(s, p.slot);
      hide Inv;
      QueryFindsAll(s, c);
    }
    hide Inv, ArrivedOk;
  }

  lemma AskedByOne(s: Sys, c: nat, p: Packet)
    requires Inv(s) && p in s.toR && p.Query? && c < |s.snd.calls| && s.snd.calls[c].pc == Querying(p.id)
    ensures p.slot == s.snd.calls[c].slot < SLOTS
  {
    assert AskedFor(s.snd, p.slot, p.id);
  }

  lemma ReceiverKeeps(s: Sys)
    requires Inv(s) && s.toR != []
    ensures Inv(Happen(s, ArriveAtReceiver))
  {
    var s' := Happen(s, ArriveAtReceiver);
    ReceiverShape(s);
    assert forall a :: 0 <= a < |s'.toR| ==> s'.toR[a] == s.toR[a + 1];
    assert QueuesOk(s');
    hide Happen, AfterRequest, Delivered, Answers, QueuesOk;
    forall c | 0 <= c < |s'.snd.calls| && s'.snd.calls[c].pc.Querying?
      ensures PendingOk(s', c, s'.snd.calls[c].pc.id)
    {
      ReceiverPending(s, c);
    }
    forall k | 0 <= k < SLOTS ensures ArrivedOk(s', k) {
      assert ArrivedOk(s, k);
      if OnSlot(s.toR[0], k) { SegmentArrived(s, k); } else { OtherArrived(s, k); }
    }
    hide ArrivedOk, PendingOk;
  }

  lemma SenderShape(s: Sys)
    requires Shaped(s) && s.toS != []
    ensures Happen(s, ArriveAtSender) == s.(snd := OnAnswer(s.snd, s.toS[0]), toS := s.toS[1..])
  {
    hide OnAnswer;
  }

  lemma AnswerLength(snd: Sender, p: Packet)
    requires WellShaped(snd)
    ensures |OnAnswer(snd, p).calls| == |snd.calls|
  {
  }

  lemma AnswerCalls(snd: Sender, p: Packet, c: nat)
    requires WellShaped(snd) && c < |snd.calls|
    ensures c < |OnAnswer(snd, p).calls|
    ensures var call, call' := snd.calls[c], OnAnswer(snd, p).calls[c];
            && call'.slot == call.slot && (call'.Active() ==> call.Active())
            && (call'.pc.Querying? ==> call'.pc == call.pc)
  {
    hide PassAfter;
  }

  lemma SenderKeeps(s: Sys)
    requires Inv(s) && s.toS != []
    ensures Inv(Happen(s, ArriveAtSender))
  {
    var s' := Happen(s, ArriveAtSender);
    AnswerKeeps(s.snd, s.toS[0]);
    AnswerLength(s.snd, s.toS[0]);
    AskedForStays(s.snd, s'.snd);
    forall c | 0 <= c < |s.snd.calls|
      ensures s'.snd.calls[c].slot == s.snd.calls[c].slot && (s'.snd.calls[c].Active() ==> s.snd.calls[c].Active())
      ensures s'.snd.calls[c].pc.Querying? ==> s'.snd.calls[c].pc == s.snd.calls[c].pc
    {
      AnswerCalls(s.snd, s.toS[0], c);
    }
    assert s' == s.(snd := s'.snd, toS := s.toS[1..]);
    assert SenderOk(s'.snd);
    hide OnAnswer, SenderOk, AskedFor, Happen;
    SenderQueues(s, s');
  }

  /** The queue loses its head; which calls ask is at most fewer. */
  lemma SenderQueues(s: Sys, s': Sys)
    requires Inv(s) && SenderOk(s'.snd) && s.toS != [] && s' == s.(snd := s'.snd, toS := s.toS[1..])
    requires forall slot: u16, id: u32 :: AskedFor(s.snd, slot, id) ==> AskedFor(s'.snd, slot, id)
    requires |s'.snd.calls| == |s.snd.calls|
    requires forall c :: 0 <= c < |s.snd.calls| ==>
               s'.snd.calls[c].slot == s.snd.calls[c].slot && (s'.snd.calls[c].Active() ==> s.snd.calls[c].Active())
    requires forall c :: 0 <= c < |s.snd.calls| && s'.snd.calls[c].pc.Querying? ==>
               s'.snd.calls[c].pc == s.snd.calls[c].pc
    ensures Inv(s')
  {
    hide AskedFor, SlotsOk, RequestsOk, HistoryOk, Slot, StatusOf;
    assert forall a :: 0 <= a < |s'.toS| ==> s'.toS[a] == s.toS[a + 1];
    forall c | 0 <= c < |s'.snd.calls| && s'.snd.calls[c].pc.Querying?
      ensures PendingOk(s', c, s'.snd.calls[c].pc.id)
    {
      assert PendingOk(s, c, s.snd.calls[c].pc.id);
    }
    forall k | 0 <= k < SLOTS ensures ArrivedOk(s', k) {
      assert ArrivedOk(s, k);
    }
  }

  /* ---- every step, seen from one slot ---- */

  /** Where a step of its own takes a call. */
  lemma ActMovesCall(s: Sender, e: SendEvent, out: seq<Entry>)
    requires WellShaped(s) && Enabled(s, e) && !e.Begin?
    ensures var call, call' := s.calls[e.c], SendStep(s, e).0.calls[e.c];
            CallMoves(call, call', e.c, out,
                      if e.WriteNext? then out + [Entry(e.c, call.message, call.pc.ids[0])] else out)
  {
    hide IdPool.IsNextID, FullRound, PassAfter, StatusOf, Slot;
  }

  lemma ActIsSlotStep(s: Sys, e: SendEvent, k: nat)
    requires Shaped(s) && SlotsOk(s.snd) && ActiveIsLatest(s.snd.calls) && Possible(s, Act(e)) && k < SLOTS
    requires Shaped(Happen(s, Act(e)))
    ensures SlotStep(s.snd.calls, Happen(s, Act(e)).snd.calls, s.out[k], Happen(s, Act(e)).out[k], k)
  {
    var s' := Happen(s, Act(e));
    ActShape(s, e);
    if e.Begin? {
      assert BeginsAt(s.snd.calls, s'.snd.calls, k);
    } else {
      ActLeavesOthers(s.snd, e);
      ActMovesCall(s.snd, e, s.out[k]);
      hide Happen, SendStep, Enabled, CallMoves;
      if s.snd.calls[e.c].slot == k {
        assert MovesAt(s.snd.calls, s'.snd.calls, s.out[k], s'.out[k], k, e.c);
      } else {
        assert RestsAt(s.snd.calls, s'.snd.calls, k);
      }
    }
  }

  /** A reply that some call waits for. */
  ghost predicate IsLive(snd: Sender, p: Packet)
    requires WellShaped(snd)
  {
    p.Reply? && p.id in snd.requests && snd.calls[snd.requests[p.id]].pc == Querying(p.id)
  }

  /** A reply that a call waits for belongs to that call's slot and tells what is in it. */
  lemma LiveReply(s: Sys) returns (c: nat, k: nat)
    requires Inv(s) && s.toS != [] && IsLive(s.snd, s.toS[0])
    ensures c < |s.snd.calls| && k == s.toS[0].slot < SLOTS && s.snd.sl[k] == Some(c) && s.snd.calls[c].slot == k
    ensures s.snd.calls[c].pc == Querying(s.toS[0].id)
    ensures s.toS[0].status == StatusOf(Slot(s.out[k]).0, SEND_WINDOW)
    ensures var p, call := s.toS[0], s.snd.calls[c]; var pass := PassAfter(p.status, call.Count());
            Happen(s, ArriveAtSender)
            == s.(toS := s.toS[1..],
                  snd := s.snd.(
                    requests := s.snd.requests - {p.id},
                    sl := if p.status.Completed? then s.snd.sl[k := None] else s.snd.sl,
                    calls := s.snd.calls[c := call.(pc := if p.status.Completed? then Returned(true)
                                                          else Writing(pass.ids, pass.after))]))
  {
    var p := s.toS[0];
    c, k := s.snd.requests[p.id], p.slot;
    assert AskedFor(s.snd, p.slot, p.id) && PendingOk(s, c, p.id);
    assert SlotsOk(s.snd);
    hide PassAfter, SegmentCount, SlotsInv, QueuesOk, QueriesOk, Slot, StatusOf;
  }

  lemma ReplyMovesCall(call: Call, status: Status, c: nat, out: seq<Entry>)
    requires call.pc.Querying? && status == StatusOf(Slot(out).0, SEND_WINDOW)
    ensures var pass := PassAfter(status, call.Count());
            CallMoves(call, call.(pc := if status.Completed? then Returned(true) else Writing(pass.ids, pass.after)), c,
                      out, out)
  {
    hide PassAfter, StatusOf, Slot, SegmentCount;
  }

  /** A call that was active has moved, and nothing else. */
  lemma OneMove(calls: seq<Call>, c: nat, call': Call, out: seq<Entry>, k: nat)
    requires ActiveIsLatest(calls) && c < |calls| && calls[c].Active() && call'.slot == calls[c].slot
    requires calls[c].slot == k ==> CallMoves(calls[c], call', c, out, out)
    ensures SlotStep(calls, calls[c := call'], out, out, k)
  {
    hide CallMoves;
    if calls[c].slot == k {
      assert MovesAt(calls, calls[c := call'], out, out, k, c);
    } else {
      assert RestsAt(calls, calls[c := call'], k);
    }
  }

  lemma LiveReplyMoves(s: Sys, k: nat)
    requires Inv(s) && s.toS != [] && IsLive(s.snd, s.toS[0]) && k < SLOTS
    ensures SlotStep(s.snd.calls, Happen(s, ArriveAtSender).snd.calls, s.out[k], s.out[k], k)
  {
    var c, kc := LiveReply(s);
    assert ActiveIsLatest(s.snd.calls);
    hide Happen, Inv, CallMoves, PassAfter, StatusOf, Slot, SegmentCount, SlotStep, ActiveIsLatest, IsLive;
    ReplyMovesCall(s.snd.calls[c], s.toS[0].status, c, s.out[kc]);
    OneMove(s.snd.calls, c, Happen(s, ArriveAtSender).snd.calls[c], s.out[k], k);
  }

  lemma DeadAnswerRests(snd: Sender, p: Packet, k: nat)
    requires WellShaped(snd) && !IsLive(snd, p)
    ensures RestsAt(snd.calls, OnAnswer(snd, p).calls, k)
  {
  }

  /** The reduction: every step of the system is, for every slot, one of a slot on its own. */
  lemma StepIsSlotStep(s: Sys, s': Sys, k: nat)
    requires Inv(s) && Shaped(s') && Next(s, s') && k < SLOTS
    ensures SlotStep(s.snd.calls, s'.snd.calls, s.out[k], s'.out[k], k)
  {
    var ev :| Possible(s, ev) && s' == Happen(s, ev);
    match ev
    case Act(e) => ActIsSlotStep(s, e, k);
    case ArriveAtReceiver =>
      ReceiverShape(s);
      assert RestsAt(s.snd.calls, s'.snd.calls, k);
    case ArriveAtSender =>
      if IsLive(s.snd, s.toS[0]) { LiveReplyMoves(s, k); } else { DeadAnswerRests(s.snd, s.toS[0], k); }
  }

  /* ---- every run ---- */

  lemma InvIsKept(s: Sys, s': Sys)
    requires Inv(s) && Next(s, s') && |s'.snd.askers| < U32_SIZE
    ensures Inv(s')
  {
    hide Inv;
    var ev :| Possible(s, ev) && s' == Happen(s, ev);
    match ev
    case Act(e) => ActKeeps(s, e);
    case ArriveAtReceiver => ReceiverKeeps(s);
    case ArriveAtSender => SenderKeeps(s);
  }

  /** What is final stays: returned calls, and the number of queries only grows. */
  lemma StepIsFinal(s: Sys, s': Sys)
    requires Next(s, s')
    ensures ReturnedIsFinal(s.snd, s'.snd)
  {
    var ev :| Possible(s, ev) && s' == Happen(s, ev);
    match ev {
      case Act(e) => SendStepIsFinal(s.snd, e);
      case ArriveAtReceiver =>
      case ArriveAtSender => AnswerIsFinal(s.snd, s.toS[0]);
    }
    hide Happen, Possible;
  }

  lemma InitSlots()
    ensures Shaped(INIT)
    ensures forall k :: 0 <= k < SLOTS ==> INIT.out[k] == [] && INIT.eaten[k] == 0 && INIT.rl[k] == None
  {
  }

  lemma IdleIsOk()
    ensures SenderOk(IDLE)
  {
  }

  lemma InitIsOk()
    ensures Inv(INIT)
  {
    InitSlots();
    IdleIsOk();
    hide SenderOk;
  }

  /** The invariant holds in every reachable state of every run with fewer than 2^32 queries, whatever
      calls fail. */
  lemma {:induction false} RunInv(run: seq<Sys>)
    requires IsRun(run) && |Last(run).snd.askers| < U32_SIZE
    ensures Inv(Last(run))
  {
    hide Next, Inv;
    if |run| == 1 {
      InitIsOk();
    } else {
      var before := run[..|run| - 1];
      var s, s' := Last(before), Last(run);
      assert Next(s, s');
      StepIsFinal(s, s');
      RunInv(before);
      InvIsKept(s, s');
    }
  }
}
