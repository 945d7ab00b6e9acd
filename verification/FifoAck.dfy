/** Acknowledgements on slots that are used again and again, on the same network: nothing is lost and
    nothing overtakes. The receiver acknowledges a slot and not a message; this says when that is enough. */
module FifoAck {
  import opened Bytes
  import opened Sending
  import opened Rounds
  import opened Status
  import opened Endpoint
  import opened SenderInvariant
  import opened FifoNetwork
  import opened FifoOrder
  import IdPool

  /** Of the calls on slot k from number `from` on, none has written everything and failed. */
  ghost predicate NoneGaveUp(calls: seq<Call>, k: nat, from: nat) {
    forall c :: from <= c < |calls| && calls[c].slot == k && calls[c].pc == Returned(false) ==>
      calls[c].sent != calls[c].Count()
  }

  /** Slot k has delivered the messages of all calls up to c, in order. */
  ghost predicate IsDelivered(s: Sys, k: nat, c: nat) {
    c < |s.snd.calls| && FullySent(s.snd.calls[..c + 1], k) <= LogOf(s.log, k)
  }

  /* ---- invariant of one slot ---- */

  /** Everything written on slot k has arrived. */
  ghost predicate Settled(s: Sys, k: nat)
    requires Shaped(s) && k < SLOTS
  {
    s.eaten[k] == |s.out[k]|
  }

  /** All segments of call c and of those before it on slot k have arrived, and their messages have
      been delivered. */
  ghost predicate Told(s: Sys, k: nat, c: nat)
    requires Shaped(s) && k < SLOTS && c < |s.snd.calls|
  {
    && s.snd.calls[c].sent == s.snd.calls[c].Count()
    && (forall j :: 0 <= j < |s.out[k]| && s.out[k][j].call <= c ==> j < s.eaten[k])
    && |FullySent(s.snd.calls[..c + 1], k)| <= |LogOf(s.log, k)|
  }

  ghost predicate Knows(call: Call) { call.acked || call.pc == Returned(true) }

  ghost predicate AckedTold(s: Sys, k: nat, from: nat)
    requires Shaped(s) && k < SLOTS
  {
    forall c :: from <= c < |s.snd.calls| && s.snd.calls[c].slot == k && Knows(s.snd.calls[c]) ==> Told(s, k, c)
  }

  /** The call that holds slot k and has written everything, not yet acknowledged. */
  ghost predicate AwaitsAck(snd: Sender, k: nat) {
    && k < |snd.sl| && snd.sl[k].Some? && snd.sl[k].value < |snd.calls|
    && var call := snd.calls[snd.sl[k].value];
       !call.acked && call.sent == call.Count()
  }

  ghost predicate Asks(snd: Sender, k: nat, id: u32) {
    && k < |snd.sl| && snd.sl[k].Some? && snd.sl[k].value < |snd.calls|
    && snd.calls[snd.sl[k].value].pc == Querying(id)
  }

  ghost predicate IsAck(p: Packet, k: nat) { p.Received? && p.slot == k }

  /** A reply "completed" that the holder of slot k waits for. */
  ghost predicate IsDoneReply(snd: Sender, p: Packet, k: nat) {
    p.Reply? && p.slot == k && p.status.Completed? && Asks(snd, k, p.id)
  }

  /** An acknowledgement under way is the only one, is for the holder, and is ahead of any reply
      "completed" to it. */
  ghost predicate AcksOk(s: Sys, k: nat)
    requires Shaped(s) && k < SLOTS
  {
    forall a :: 0 <= a < |s.toS| && IsAck(s.toS[a], k) ==>
      && Settled(s, k) && AwaitsAck(s.snd, k)
      && (forall b :: a < b < |s.toS| ==> !IsAck(s.toS[b], k))
      && (forall b :: 0 <= b < a ==> !IsDoneReply(s.snd, s.toS[b], k))
  }

  ghost predicate DoneRepliesOk(s: Sys, k: nat)
    requires Shaped(s) && k < SLOTS
  {
    forall b :: 0 <= b < |s.toS| && IsDoneReply(s.snd, s.toS[b], k) ==> Settled(s, k)
  }

  /** The holder is the call that an acknowledgement wakes. */
  ghost predicate Registered(snd: Sender, k: nat) {
    k < |snd.sl| && snd.sl[k].Some? ==>
      && snd.sl[k].value < |snd.calls|
      && var call := snd.calls[snd.sl[k].value];
         !call.acked && !call.pc.Begun? ==> k in snd.slWait && snd.slWait[k] == snd.sl[k].value
  }

  /** The calls before `from` have returned, and what is still under way is of later calls. */
  ghost predicate Since(s: Sys, k: nat, from: nat)
    requires Shaped(s) && k < SLOTS
  {
    && from <= |s.snd.calls|
    && (forall c :: 0 <= c < from && s.snd.calls[c].slot == k ==> !s.snd.calls[c].Active())
    && (forall j :: s.eaten[k] <= j < |s.out[k]| ==> s.out[k][j].call >= from)
  }

  ghost predicate AckInv(s: Sys, k: nat, from: nat)
    requires Shaped(s) && k < SLOTS
  {
    AckedTold(s, k, from) && AcksOk(s, k) && DoneRepliesOk(s, k) && Registered(s.snd, k) && Since(s, k, from)
  }

  /** What holds of every clean slot of every run. */
  ghost predicate OrderInv(s: Sys, k: nat) {
    Inv(s) && k < SLOTS && InOrder(s.snd.calls, s.out[k], k)
  }

  lemma OrderFacts(s: Sys, k: nat)
    requires OrderInv(s, k)
    ensures Shaped(s) && k < SLOTS && SenderOk(s.snd) && ActiveIsLatest(s.snd.calls) && ArrivedOk(s, k)
    ensures InOrder(s.snd.calls, s.out[k], k)
  {
  }

  /* ---- facts about one slot ---- */

  /** What has been delivered is what the arrived segments complete. */
  lemma LogIsArrived(s: Sys, k: nat)
    requires Shaped(s) && k < SLOTS && ArrivedOk(s, k) && InOrder(s.snd.calls, s.out[k], k)
    ensures s.eaten[k] <= |s.out[k]| && LogOf(s.log, k) == MessagesIn(s.out[k][..s.eaten[k]])
    ensures MessagesIn(s.out[k]) == FullySent(s.snd.calls, k)
  {
    ChainPrefix(s.out[k], s.eaten[k]);
    ChainIsReceived(s.out[k][..s.eaten[k]]);
  }

  /** When everything written has arrived, the latest call on the slot, fully written, is delivered. */
  lemma SettledMeansTold(s: Sys, k: nat, c: nat)
    requires OrderInv(s, k) && Settled(s, k)
    requires c < |s.snd.calls| && s.snd.calls[c].sent == s.snd.calls[c].Count()
    requires forall x :: c < x < |s.snd.calls| ==> s.snd.calls[x].slot != k
    ensures Told(s, k, c)
  {
    hide OrderInv, InOrder, ArrivedOk, FullySent, MessagesIn, LogOf, SegmentCount, SenderOk, ActiveIsLatest;
    OrderFacts(s, k);
    LogIsArrived(s, k);
    FullySentUpTo(s.snd.calls, k, c);
    assert s.out[k][..s.eaten[k]] == s.out[k];
  }

  /** Calls on slot k up to c neither write nor return, and what is written is of later calls. */
  ghost predicate Quiet(s: Sys, s': Sys, k: nat, c: nat)
    requires Shaped(s) && Shaped(s') && k < SLOTS
  {
    && c < |s.snd.calls| <= |s'.snd.calls|
    && (forall x :: 0 <= x <= c ==>
          s'.snd.calls[x].slot == s.snd.calls[x].slot
          && (s.snd.calls[x].slot == k ==> SameProgress(s.snd.calls[x], s'.snd.calls[x])))
    && |s.out[k]| <= |s'.out[k]| && s.eaten[k] <= s'.eaten[k]
    && (forall j :: 0 <= j < |s.out[k]| ==> s'.out[k][j] == s.out[k][j])
    && (forall j :: |s.out[k]| <= j < |s'.out[k]| ==> s'.out[k][j].call > c)
    && |LogOf(s.log, k)| <= |LogOf(s'.log, k)|
  }

  lemma ToldStays(s: Sys, s': Sys, k: nat, c: nat)
    requires Shaped(s) && Shaped(s') && k < SLOTS && Quiet(s, s', k, c)
    requires Told(s, k, c) && s.snd.calls[c].slot == k
    ensures Told(s', k, c)
  {
    hide LogOf;
    FullySentAlike(s.snd.calls[..c + 1], s'.snd.calls[..c + 1], k);
    hide FullySent;
  }

  /** The holder of slot k. */
  lemma HolderOf(s: Sys, k: nat) returns (c: nat)
    requires OrderInv(s, k) && Shaped(s) && s.snd.sl[k].Some?
    ensures s.snd.sl[k] == Some(c) && c < |s.snd.calls| && s.snd.calls[c].slot == k && s.snd.calls[c].Active()
    ensures SendsInOrder(s.snd.calls[c]) && s.snd.calls[c].Count() >= 1
    ensures forall x :: c < x < |s.snd.calls| ==> s.snd.calls[x].slot != k
  {
    OrderFacts(s, k);
    c := s.snd.sl[k].value;
    SendableIsWire(s.snd.calls[c].message);
    CountIsExact(Wire(s.snd.calls[c].message));
  }

  /* ---- steps of the sending half ---- */

  /** What a step does to its own call. */
  lemma ActCall(s: Sender, e: SendEvent)
    requires WellShaped(s) && Enabled(s, e) && !e.Begin?
    ensures var s' := SendStep(s, e).0;
            && |s'.calls| == |s.calls|
            && var call, call' := s.calls[e.c], s'.calls[e.c];
            && call'.acked == call.acked && (call'.pc == Returned(true) ==> call.acked) && !call'.pc.Begun?
            && (call'.pc.Querying? ==> !e.WriteNext? && (call'.pc == call.pc || e == Ask(e.c, call'.pc.id)))
            && s'.sl == (if call'.pc.Returned? then s.sl[call.slot := None] else s.sl)
            && (forall k :: k != call.slot ==> (k in s'.slWait <==> k in s.slWait))
            && (forall k :: k != call.slot && k in s.slWait ==> s'.slWait[k] == s.slWait[k])
            && (e.Register? ==> call.slot in s'.slWait && s'.slWait[call.slot] == e.c)
            && (!e.Register? && !call'.pc.Returned? ==> s'.slWait == s.slWait)
            && (call.pc.Begun? ==> e.Register?)
  {
    hide IdPool.IsNextID, FullRound;
  }

  /** The holder of slot k is the only call on it that can move. */
  lemma HolderMoves(snd: Sender, e: SendEvent, k: nat)
    requires WellShaped(snd) && SlotsOk(snd) && Enabled(snd, e) && k < SLOTS && !e.Begin?
    ensures snd.calls[e.c].Active() && (snd.calls[e.c].slot == k ==> snd.sl[k] == Some(e.c))
    ensures snd.sl[k].Some? ==> snd.sl[k].value < |snd.calls| && snd.calls[snd.sl[k].value].slot == k
  {
    ActLeavesOthers(snd, e);
  }

  lemma ActKnows(s: Sender, e: SendEvent, c: nat)
    requires WellShaped(s) && Enabled(s, e) && c < |SendStep(s, e).0.calls| && Knows(SendStep(s, e).0.calls[c])
    ensures c < |s.calls| && Knows(s.calls[c])
  {
    if !e.Begin? {
      ActCall(s, e);
      ActLeavesOthers(s, e);
      hide SendStep;
    }
  }

  lemma WriterHasMore(call: Call)
    requires SendsInOrder(call) && call.pc.Writing? && call.pc.ids != []
    ensures call.sent < call.Count()
  {
  }

  /** A told call writes no more, and a writer on its slot is later. */
  lemma WriterIsLater(s: Sys, w: nat, k: nat, c: nat)
    requires OrderInv(s, k) && w < |s.snd.calls| && s.snd.calls[w].pc.Writing? && s.snd.calls[w].pc.ids != []
    requires Shaped(s) && c < |s.snd.calls| && s.snd.calls[c].slot == k && Told(s, k, c)
    ensures s.snd.calls[w].slot == k ==> w > c
  {
    OrderFacts(s, k);
    hide OrderInv, ArrivedOk, SenderOk, FullySent, LogOf;
    assert s.snd.calls[c].sent == s.snd.calls[c].Count();
    if s.snd.calls[w].slot == k {
      assert SendsInOrder(s.snd.calls[w]);
      WriterHasMore(s.snd.calls[w]);
      hide Told, InOrder, SendsInOrder, SegmentCount, ActiveIsLatest;
      OneAfterAnother(s.snd.calls, w, c);
    }
    hide Told, InOrder, SegmentCount, ActiveIsLatest;
  }

  lemma OneAfterAnother(calls: seq<Call>, w: nat, c: nat)
    requires ActiveIsLatest(calls) && w < |calls| && c < |calls| && calls[w].slot == calls[c].slot
    requires calls[w].Active() && w != c
    ensures w > c
  {
  }

  /** Call w, later than c if it is on the same slot, writes e. */
  lemma LaterWriteQuiet(s: Sys, s': Sys, w: nat, e: Entry, k: nat, c: nat)
    requires Shaped(s) && Shaped(s') && k < SLOTS && c < |s.snd.calls| == |s'.snd.calls| && w < |s.snd.calls|
    requires SameCall(s.snd.calls[w], s'.snd.calls[w]) && (s.snd.calls[w].slot == k ==> w > c)
    requires forall x :: 0 <= x < |s.snd.calls| && x != w ==> s'.snd.calls[x] == s.snd.calls[x]
    requires var j := s.snd.calls[w].slot; j < SLOTS && e.call == w && s'.out == s.out[j := s.out[j] + [e]]
    requires s'.log == s.log && s'.eaten == s.eaten
    ensures Quiet(s, s', k, c)
  {
  }

  lemma OtherQuiet(s: Sys, e: SendEvent, k: nat, c: nat)
    requires Shaped(s) && Possible(s, Act(e)) && Shaped(Happen(s, Act(e))) && !e.WriteNext?
    requires k < SLOTS && c < |s.snd.calls|
    ensures Quiet(s, Happen(s, Act(e)), k, c)
  {
    ActShape(s, e);
    if e.Begin? { BeginSlots(s.snd, e.message, k); } else { ActLeavesOthers(s.snd, e); }
    hide Happen, SendStep, Enabled, Possible, LogOf;
  }

  lemma ActQuiet(s: Sys, e: SendEvent, k: nat, c: nat)
    requires OrderInv(s, k) && Shaped(s) && Possible(s, Act(e)) && Shaped(Happen(s, Act(e)))
    requires c < |s.snd.calls| && s.snd.calls[c].slot == k && Told(s, k, c)
    ensures Quiet(s, Happen(s, Act(e)), k, c)
  {
    if e.WriteNext? {
      ActShape(s, e);
      ActLeavesOthers(s.snd, e);
      WriterIsLater(s, e.c, k, c);
      hide Happen, SendStep, Enabled, Possible, OrderInv, Told, Quiet;
      LaterWriteQuiet(s, Happen(s, Act(e)), e.c, Written(s, e), k, c);
    } else {
      hide OrderInv, Told, Quiet;
      OtherQuiet(s, e, k, c);
    }
  }

  lemma ActTold(s: Sys, e: SendEvent, k: nat, from: nat)
    requires OrderInv(s, k) && Shaped(s) && Possible(s, Act(e)) && Shaped(Happen(s, Act(e)))
    requires AckedTold(s, k, from)
    ensures AckedTold(Happen(s, Act(e)), k, from)
  {
    var s' := Happen(s, Act(e));
    ActShape(s, e);
    forall c | from <= c < |s'.snd.calls| && s'.snd.calls[c].slot == k && Knows(s'.snd.calls[c])
      ensures Told(s', k, c)
    {
      ActKnows(s.snd, e, c);
      if !e.Begin? { ActLeavesOthers(s.snd, e); } else { BeginSlots(s.snd, e.message, k); }
      assert s.snd.calls[c].slot == k;
      hide Happen, SendStep, OrderInv, Possible;
      ActQuiet(s, e, k, c);
      ToldStays(s, s', k, c);
    }
  }

  lemma BeginSlots(s: Sender, message: bytes, k: nat)
    requires WellShaped(s) && Enabled(s, Begin(message)) && k < SLOTS
    ensures var s' := SendStep(s, Begin(message)).0;
            && s'.slWait == s.slWait && |s'.calls| == |s.calls| + 1
            && (forall x :: 0 <= x < |s.calls| ==> s'.calls[x] == s.calls[x])
            && (s.sl[k].Some? ==> s'.sl[k] == s.sl[k])
            && (s.sl[k].None? && s'.sl[k].Some? ==> s'.sl[k].value == |s.calls| && s'.calls[|s.calls|].pc.Begun?)
  {
  }

  lemma ActRegistered(s: Sender, e: SendEvent, k: nat)
    requires WellShaped(s) && SlotsOk(s) && Enabled(s, e) && k < SLOTS && Registered(s, k)
    ensures Registered(SendStep(s, e).0, k)
  {
    if e.Begin? {
      BeginSlots(s, e.message, k);
    } else {
      ActCall(s, e);
      ActLeavesOthers(s, e);
      HolderMoves(s, e, k);
    }
    hide SendStep, Enabled;
  }

  /** A holder that has written everything only waits for the news. */
  lemma ActAwaits(s: Sender, e: SendEvent, k: nat, from: nat)
    requires WellShaped(s) && SlotsOk(s) && Enabled(s, e) && k < SLOTS && AwaitsAck(s, k)
    requires from <= s.sl[k].value && NoneGaveUp(SendStep(s, e).0.calls, k, from)
    requires !e.Begin? && s.calls[e.c].slot == k ==> SendsInOrder(s.calls[e.c])
    ensures AwaitsAck(SendStep(s, e).0, k)
    ensures e.WriteNext? ==> s.calls[e.c].slot != k
  {
    if e.Begin? {
      BeginSlots(s, e.message, k);
    } else {
      ActCall(s, e);
      ActLeavesOthers(s, e);
      HolderMoves(s, e, k);
    }
    hide SendStep, SegmentCount;
  }

  /** Whoever asks after a step asked before, or has just drawn an ID that is in no queue. */
  lemma ActAsks(s: Sender, e: SendEvent, k: nat, id: u32)
    requires WellShaped(s) && SlotsOk(s) && Enabled(s, e) && k < SLOTS && Asks(SendStep(s, e).0, k, id)
    ensures Asks(s, k, id) || (e.Ask? && e.id == id)
    ensures e.WriteNext? ==> s.calls[e.c].slot != k
  {
    if e.Begin? {
      BeginSlots(s, e.message, k);
    } else {
      ActCall(s, e);
      ActLeavesOthers(s, e);
      HolderMoves(s, e, k);
    }
    hide SendStep, Enabled;
  }

  lemma ActDoneReply(s: Sys, e: SendEvent, p: Packet, k: nat)
    requires Inv(s) && Possible(s, Act(e)) && Shaped(Happen(s, Act(e))) && k < SLOTS && p in s.toS
    requires |Happen(s, Act(e)).snd.askers| < U32_SIZE
    requires IsDoneReply(Happen(s, Act(e)).snd, p, k)
    ensures IsDoneReply(s.snd, p, k) && Happen(s, Act(e)).out[k] == s.out[k]
  {
    ActShape(s, e);
    ActAsks(s.snd, e, k, p.id);
    if e.Ask? {
      NextRequestID(s.snd, e.id);
      assert QueuesOk(s);
    }
    hide SendStep, SlotsInv, QueriesOk, Happen;
  }

  /** The queue stays; an awaiting holder still awaits; nobody new waits for a reply in it. */
  lemma AcksStay(s: Sys, s': Sys, k: nat)
    requires Shaped(s) && Shaped(s') && k < SLOTS && AcksOk(s, k) && s'.toS == s.toS
    requires (exists a :: 0 <= a < |s.toS| && IsAck(s.toS[a], k)) && Settled(s, k) && AwaitsAck(s.snd, k) ==>
               Settled(s', k) && AwaitsAck(s'.snd, k)
    requires forall b :: 0 <= b < |s.toS| && IsDoneReply(s'.snd, s.toS[b], k) ==> IsDoneReply(s.snd, s.toS[b], k)
    ensures AcksOk(s', k)
  {
    hide IsAck, IsDoneReply, AwaitsAck, Settled;
  }

  lemma ActAcks(s: Sys, e: SendEvent, k: nat, from: nat)
    requires OrderInv(s, k) && Possible(s, Act(e)) && Shaped(s) && Shaped(Happen(s, Act(e)))
    requires |Happen(s, Act(e)).snd.askers| < U32_SIZE
    requires AcksOk(s, k) && Since(s, k, from) && NoneGaveUp(Happen(s, Act(e)).snd.calls, k, from)
    ensures AcksOk(Happen(s, Act(e)), k)
  {
    var s' := Happen(s, Act(e));
    ActShape(s, e);
    OrderFacts(s, k);
    if AwaitsAck(s.snd, k) && Settled(s, k) {
      HolderIsLate(s, k, from);
      ActAwaits(s.snd, e, k, from);
      assert Settled(s', k);
    }
    hide SendStep, Happen, Since, NoneGaveUp, InOrder, AcksOk, AwaitsAck, Settled;
    forall b | 0 <= b < |s.toS| && IsDoneReply(s'.snd, s.toS[b], k) ensures IsDoneReply(s.snd, s.toS[b], k) {
      ActDoneReply(s, e, s.toS[b], k);
    }
    AcksStay(s, s', k);
  }

  lemma HolderIsLate(s: Sys, k: nat, from: nat)
    requires OrderInv(s, k) && Shaped(s) && Since(s, k, from) && s.snd.sl[k].Some?
    ensures s.snd.sl[k].value >= from
  {
    var c := HolderOf(s, k);
  }

  lemma ActDoneReplies(s: Sys, e: SendEvent, k: nat)
    requires Inv(s) && Possible(s, Act(e)) && Shaped(Happen(s, Act(e))) && k < SLOTS
    requires |Happen(s, Act(e)).snd.askers| < U32_SIZE && DoneRepliesOk(s, k)
    ensures DoneRepliesOk(Happen(s, Act(e)), k)
  {
    var s' := Happen(s, Act(e));
    ActShape(s, e);
    forall b | 0 <= b < |s'.toS| && IsDoneReply(s'.snd, s'.toS[b], k) ensures Settled(s', k) {
      ActDoneReply(s, e, s.toS[b], k);
    }
  }

  lemma ActSince(s: Sys, e: SendEvent, k: nat, from: nat)
    requires Shaped(s) && SlotsOk(s.snd) && Possible(s, Act(e)) && Shaped(Happen(s, Act(e))) && k < SLOTS
    requires Since(s, k, from)
    ensures Since(Happen(s, Act(e)), k, from)
  {
    ActShape(s, e);
    if e.Begin? {
      BeginSlots(s.snd, e.message, k);
    } else {
      ActLeavesOthers(s.snd, e);
      SendStepIsFinal(s.snd, e);
    }
    hide SendStep, Happen, SlotsOk;
  }

  lemma ActKeepsAcks(s: Sys, e: SendEvent, k: nat, from: nat)
    requires OrderInv(s, k) && Shaped(s) && Possible(s, Act(e)) && Shaped(Happen(s, Act(e)))
    requires |Happen(s, Act(e)).snd.askers| < U32_SIZE && NoneGaveUp(Happen(s, Act(e)).snd.calls, k, from)
    requires AckInv(s, k, from)
    ensures AckInv(Happen(s, Act(e)), k, from)
  {
    OrderFacts(s, k);
    ActShape(s, e);
    hide AckedTold, AcksOk, DoneRepliesOk, Registered, Since, SendStep;
    ActTold(s, e, k, from);
    ActAcks(s, e, k, from);
    ActDoneReplies(s, e, k);
    ActRegistered(s.snd, e, k);
    ActSince(s, e, k, from);
  }

  /* ---- arrivals at the receiver ---- */

  /** What an arrival does, seen from slot k. */
  lemma ReceiverEffect(s: Sys, k: nat)
    requires Shaped(s) && s.toR != [] && k < SLOTS && InFlight(s.toR, s.out[k], s.eaten[k], k)
    ensures var s', p := Happen(s, ArriveAtReceiver), s.toR[0];
            && Shaped(s') && s'.snd == s.snd && s'.out == s.out && s'.toS == s.toS + Answers(s.rl, p)
            && s'.eaten[k] == (if OnSlot(p, k) then s.eaten[k] + 1 else s.eaten[k])
            && |LogOf(s.log, k)| <= |LogOf(s'.log, k)|
            && (OnSlot(p, k) ==> s.eaten[k] < |s.out[k]|)
  {
    var p := s.toR[0];
    hide AfterRequest, Delivered, Answers, LogOf, Happen;
    ReceiverShape(s);
    if OnSlot(p, k) {
      InFlightArrives(s.toR, s.out[k], s.eaten[k], k);
    }
    hide InFlight;
    LogAfter(s.log, p.slot, Delivered(s.rl, p), k);
  }

  lemma ReceiverTold(s: Sys, k: nat, from: nat)
    requires Shaped(s) && s.toR != [] && k < SLOTS && InFlight(s.toR, s.out[k], s.eaten[k], k)
    requires AckedTold(s, k, from)
    ensures AckedTold(Happen(s, ArriveAtReceiver), k, from)
  {
    var s' := Happen(s, ArriveAtReceiver);
    ReceiverEffect(s, k);
    hide Happen, InFlight, LogOf;
    forall c | from <= c < |s'.snd.calls| && s'.snd.calls[c].slot == k && Knows(s'.snd.calls[c])
      ensures Told(s', k, c)
    {
      ToldStays(s, s', k, c);
    }
  }

  /** A call with a segment that has not arrived knows nothing. */
  lemma NotYetKnown(s: Sys, k: nat, j: nat, from: nat)
    requires Shaped(s) && k < SLOTS && AckedTold(s, k, from) && Since(s, k, from)
    requires Owned(s.snd.calls, s.out[k], k) && s.eaten[k] <= j < |s.out[k]|
    ensures IsOf(s.snd.calls, s.out[k][j], k) && s.out[k][j].call >= from
    ensures !Knows(s.snd.calls[s.out[k][j].call])
  {
  }

  /** The call whose last segment arrives on slot k holds the slot and awaits the acknowledgement. */
  lemma LastSegmentSettles(s: Sys, k: nat, from: nat)
    requires OrderInv(s, k) && Shaped(s)
    requires AckedTold(s, k, from) && Since(s, k, from) && NoneGaveUp(s.snd.calls, k, from)
    requires s.eaten[k] < |s.out[k]| && IsFinal(s.out[k][s.eaten[k]])
    ensures s.eaten[k] + 1 == |s.out[k]| && AwaitsAck(s.snd, k)
  {
    OrderFacts(s, k);
    var out, eaten, calls := s.out[k], s.eaten[k], s.snd.calls;
    var e := out[eaten];
    assert Tip(calls, out, k) && Chain(out) && SlotsOk(s.snd) && IsOf(calls, Last(out), k);
    NotYetKnown(s, k, eaten, from);
    assert SendsInOrder(calls[e.call]);
    assert calls[e.call].sent == calls[e.call].Count();
    assert calls[e.call].Active();
    hide OrderInv, InOrder, ArrivedOk, SenderOk, NoneGaveUp, AckedTold, Since, SendsInOrder;
    if eaten + 1 < |out| {
      FinalEndsCall(out, eaten);
    }
    hide Chain;
  }

  /** After a final segment, the next one is of a later call. */
  lemma {:induction false} FinalEndsCall(out: seq<Entry>, j: nat)
    requires Chain(out) && j + 1 < |out| && IsFinal(out[j])
    ensures out[j].call < Last(out).call
  {
    assert Follows(out[j], out[j + 1]);
    if j + 2 < |out| {
      ChainIncreases(out, j + 1, |out| - 1);
    }
  }

  /** Only a final segment is acknowledged. */
  lemma DeliveredIsFinal(s: Sys, k: nat)
    requires OrderInv(s, k) && Shaped(s) && s.toR != [] && OnSlot(s.toR[0], k)
    requires Delivered(s.rl, s.toR[0]).Some?
    ensures s.eaten[k] < |s.out[k]| && IsFinal(s.out[k][s.eaten[k]])
  {
    OrderFacts(s, k);
    var out, eaten := s.out[k], s.eaten[k];
    hide OrderInv, Tip, Owned, MessagesIn, FullySent, Delivered;
    InFlightArrives(s.toR, out, eaten, k);
    ChainPrefix(out, eaten);
    ChainIsReceived(out[..eaten]);
    hide Chain, Slot, RecvAt, InFlight, PacketOf, Take, OnSlot, IsFinal;
    EntryArrives(s.rl[k], out, eaten);
    TakeIsArrival(s.rl, k, out[eaten]);
  }

  /** The only answer that an arrival can add for slot k. */
  lemma AnswerFor(rl: RecvList, p: Packet, k: nat)
    requires k < SLOTS
    ensures var added := Answers(rl, p);
            && |added| <= 1
            && (|added| == 1 && IsAck(added[0], k) ==> OnSlot(p, k) && Delivered(rl, p).Some?)
            && (|added| == 1 ==> !added[0].Query?)
            && (|added| == 1 && added[0].Reply? ==> p.Query? && p.slot == added[0].slot && p.id == added[0].id)
  {
    hide Delivered;
  }

  /** A query of the holder finds the slot settled. */
  lemma QuerySettles(s: Sys, k: nat)
    requires Inv(s) && s.toR != [] && s.toR[0].Query? && k < SLOTS && Asks(s.snd, k, s.toR[0].id)
    requires Shaped(s)
    ensures Settled(s, k)
  {
    var c := s.snd.sl[k].value;
    assert ArrivedOk(s, k) && PendingOk(s, c, s.toR[0].id) && s.snd.calls[c].slot == k;
    hide Inv, ArrivedOk, PendingOk;
    QueryFindsAll(s, c);
  }

  /** An acknowledgement or a reply "completed" that an arrival adds for slot k. */
  lemma AnswerSettles(s: Sys, k: nat, from: nat)
    requires OrderInv(s, k) && Shaped(s) && s.toR != [] && Shaped(Happen(s, ArriveAtReceiver))
    requires AckedTold(s, k, from) && Since(s, k, from) && NoneGaveUp(s.snd.calls, k, from)
    ensures var added := Answers(s.rl, s.toR[0]); var s' := Happen(s, ArriveAtReceiver);
            && |added| <= 1
            && (|added| == 1 && IsAck(added[0], k) ==>
                  OnSlot(s.toR[0], k) && s.eaten[k] < |s.out[k]| && Settled(s', k) && AwaitsAck(s.snd, k))
            && (|added| == 1 && IsDoneReply(s.snd, added[0], k) ==> !OnSlot(s.toR[0], k) && Settled(s, k))
  {
    var p, added := s.toR[0], Answers(s.rl, s.toR[0]);
    OrderFacts(s, k);
    AnswerFor(s.rl, p, k);
    hide Answers, Delivered, InOrder;
    ReceiverEffect(s, k);
    hide Happen, ArrivedOk;
    if |added| == 1 && IsAck(added[0], k) {
      DeliveredIsFinal(s, k);
      hide IsFinal, OrderInv;
      LastSegmentSettles(s, k, from);
    } else if |added| == 1 && IsDoneReply(s.snd, added[0], k) {
      QuerySettles(s, k);
    }
  }

  /** At most one answer joins the queue; while slot k is not settled it holds none for the holder. */
  lemma AnswerJoins(s: Sys, s': Sys, added: seq<Packet>, k: nat)
    requires Shaped(s) && Shaped(s') && k < SLOTS && AcksOk(s, k) && DoneRepliesOk(s, k)
    requires s'.snd == s.snd && s'.out == s.out && s'.toS == s.toS + added && |added| <= 1
    requires Settled(s, k) ==> Settled(s', k)
    requires |added| == 1 && IsAck(added[0], k) ==> !Settled(s, k) && Settled(s', k) && AwaitsAck(s.snd, k)
    requires |added| == 1 && IsDoneReply(s.snd, added[0], k) ==> Settled(s, k)
    ensures AcksOk(s', k) && DoneRepliesOk(s', k)
  {
    hide Settled, AwaitsAck, IsAck, IsDoneReply;
    var n := |s.toS|;
    forall b | 0 <= b < |s'.toS| && IsDoneReply(s'.snd, s'.toS[b], k) ensures Settled(s', k) {
      if b < n { assert s'.toS[b] == s.toS[b]; }
    }
    forall a | 0 <= a < |s'.toS| && IsAck(s'.toS[a], k)
      ensures Settled(s', k) && AwaitsAck(s'.snd, k)
      ensures forall b :: a < b < |s'.toS| ==> !IsAck(s'.toS[b], k)
      ensures forall b :: 0 <= b < a ==> !IsDoneReply(s'.snd, s'.toS[b], k)
    {
      if a < n { assert s'.toS[a] == s.toS[a]; }
    }
  }

  lemma ReceiverAcks(s: Sys, k: nat, from: nat)
    requires OrderInv(s, k) && Shaped(s) && s.toR != [] && AckInv(s, k, from) && NoneGaveUp(s.snd.calls, k, from)
    requires Shaped(Happen(s, ArriveAtReceiver))
    ensures AcksOk(Happen(s, ArriveAtReceiver), k) && DoneRepliesOk(Happen(s, ArriveAtReceiver), k)
  {
    var s', added := Happen(s, ArriveAtReceiver), Answers(s.rl, s.toR[0]);
    OrderFacts(s, k);
    ReceiverEffect(s, k);
    AnswerSettles(s, k, from);
    hide Happen, OrderInv, AckedTold, Registered, Since, NoneGaveUp, IsDoneReply, IsAck, AwaitsAck, ArrivedOk, OnSlot;
    hide AcksOk, DoneRepliesOk, Answers, InOrder, SenderOk;
    AnswerJoins(s, s', added, k);
  }

  lemma ReceiverSince(s: Sys, s': Sys, k: nat, from: nat)
    requires Shaped(s) && Shaped(s') && k < SLOTS && Since(s, k, from)
    requires s'.snd == s.snd && s'.out == s.out && s.eaten[k] <= s'.eaten[k]
    ensures Since(s', k, from)
  {
  }

  lemma ReceiverKeepsAcks(s: Sys, k: nat, from: nat)
    requires OrderInv(s, k) && Shaped(s) && s.toR != [] && AckInv(s, k, from) && NoneGaveUp(s.snd.calls, k, from)
    requires Shaped(Happen(s, ArriveAtReceiver))
    ensures AckInv(Happen(s, ArriveAtReceiver), k, from)
  {
    var s' := Happen(s, ArriveAtReceiver);
    hide Happen, InOrder, AckedTold, AcksOk, DoneRepliesOk, Since, Registered, NoneGaveUp, SenderOk;
    assert AckedTold(s', k, from) && Since(s', k, from) && Registered(s'.snd, k) by {
      OrderFacts(s, k);
      hide OrderInv;
      ReceiverEffect(s, k);
      ReceiverSince(s, s', k, from);
      ReceiverTold(s, k, from);
    }
    ReceiverAcks(s, k, from);
    hide OrderInv;
  }

  /* ---- arrivals at the sender ---- */

  /** An arrival that leaves slot k's calls alone. */
  lemma PopKeepsAcks(s: Sys, s': Sys, k: nat, from: nat)
    requires Shaped(s) && Shaped(s') && k < SLOTS && AckInv(s, k, from) && SlotsOk(s.snd) && s.toS != []
    requires SameSlot(s.snd, s'.snd, k) && |s'.snd.calls| == |s.snd.calls|
    requires forall x :: 0 <= x < |s.snd.calls| ==> s'.snd.calls[x].slot == s.snd.calls[x].slot
    requires s' == s.(snd := s'.snd, toS := s.toS[1..])
    ensures AckInv(s', k, from)
  {
    assert AckedTold(s', k, from) by {
      hide AcksOk, DoneRepliesOk, Registered, Since;
      forall c | from <= c < |s'.snd.calls| && s'.snd.calls[c].slot == k && Knows(s'.snd.calls[c])
      ensures Told(s', k, c)
    {
        ToldStays(s, s', k, c);
      }
    }
    hide AckedTold, Told;
    assert forall a :: 0 <= a < |s'.toS| ==> s'.toS[a] == s.toS[a + 1];
    assert s.snd.sl[k].Some? ==> s'.snd.calls[s.snd.sl[k].value] == s.snd.calls[s.snd.sl[k].value];
    assert forall p :: IsDoneReply(s'.snd, p, k) ==> IsDoneReply(s.snd, p, k);
    assert AwaitsAck(s.snd, k) ==> AwaitsAck(s'.snd, k);
    hide IsDoneReply, AwaitsAck, Asks, SameSlot;
  }

  /** Call c of slot k, the slot's holder, changes; what was told before stays told. */
  lemma OthersStayTold(s: Sys, s': Sys, k: nat, c: nat, from: nat)
    requires Shaped(s) && Shaped(s') && k < SLOTS && AckedTold(s, k, from) && c < |s.snd.calls| == |s'.snd.calls|
    requires forall x :: 0 <= x < |s.snd.calls| && x != c ==> s'.snd.calls[x] == s.snd.calls[x]
    requires SameProgress(s.snd.calls[c], s'.snd.calls[c])
    requires s' == s.(snd := s'.snd, toS := s'.toS)
    requires Knows(s'.snd.calls[c]) ==> Knows(s.snd.calls[c]) || Told(s', k, c)
    ensures AckedTold(s', k, from)
  {
    forall x | from <= x < |s'.snd.calls| && s'.snd.calls[x].slot == k && Knows(s'.snd.calls[x])
      ensures Told(s', k, x)
    {
      if x != c || Knows(s.snd.calls[c]) {
        ToldStays(s, s', k, x);
      }
    }
  }

  /** Only the holder c of slot k has changed, and it is acknowledged, has returned, or waits as before. */
  lemma HolderStaysRegistered(s: Sys, s': Sys, k: nat, c: nat, from: nat)
    requires Shaped(s) && Shaped(s') && k < SLOTS && Registered(s.snd, k) && Since(s, k, from)
    requires s' == s.(snd := s'.snd, toS := s'.toS) && c < |s.snd.calls| == |s'.snd.calls|
    requires forall x :: 0 <= x < |s.snd.calls| && x != c ==> s'.snd.calls[x] == s.snd.calls[x]
    requires s.snd.calls[c].slot == s'.snd.calls[c].slot == k && s.snd.calls[c].Active() && s.snd.sl[k] == Some(c)
    requires s'.snd.sl[k] == None || (s'.snd.sl[k] == s.snd.sl[k] && s'.snd.calls[c].acked)
             || (s'.snd.sl[k] == s.snd.sl[k] && s'.snd.slWait == s.snd.slWait
                 && s'.snd.calls[c].acked == s.snd.calls[c].acked && !s.snd.calls[c].pc.Begun?)
    ensures Registered(s'.snd, k) && Since(s', k, from)
  {
  }

  lemma NoAcksOk(s: Sys, k: nat)
    requires Shaped(s) && k < SLOTS && forall a :: 0 <= a < |s.toS| ==> !IsAck(s.toS[a], k)
    ensures AcksOk(s, k)
  {
  }

  lemma SettledRepliesOk(s: Sys, k: nat)
    requires Shaped(s) && k < SLOTS && Settled(s, k)
    ensures DoneRepliesOk(s, k)
  {
  }

  lemma NoDoneReplies(s: Sys, k: nat)
    requires Shaped(s) && k < SLOTS && forall p :: !IsDoneReply(s.snd, p, k)
    ensures DoneRepliesOk(s, k)
  {
  }

  lemma NoAckBehindDone(s: Sys, k: nat)
    requires Shaped(s) && k < SLOTS && AcksOk(s, k) && s.toS != [] && IsDoneReply(s.snd, s.toS[0], k)
    ensures forall a :: 0 <= a < |s.toS| ==> !IsAck(s.toS[a], k)
  {
  }

  /** The acknowledgement under way for slot k wakes the holder. */
  lemma AckWakesHolder(s: Sys, k: nat, from: nat) returns (c: nat)
    requires OrderInv(s, k) && Shaped(s) && AckInv(s, k, from) && s.toS != [] && IsAck(s.toS[0], k)
    ensures s.snd.sl[k] == Some(c) && c < |s.snd.calls| && s.snd.calls[c].slot == k && s.snd.calls[c].Active()
    ensures s.snd.calls[c].sent == s.snd.calls[c].Count() && Settled(s, k)
    ensures forall x :: c < x < |s.snd.calls| ==> s.snd.calls[x].slot != k
    ensures Happen(s, ArriveAtSender)
            == s.(toS := s.toS[1..],
                  snd := s.snd.(slWait := s.snd.slWait - {k},
                                calls := s.snd.calls[c := s.snd.calls[c].(acked := true)]))
    ensures forall a :: 0 < a < |s.toS| ==> !IsAck(s.toS[a], k)
  {
    assert Settled(s, k) && AwaitsAck(s.snd, k) && Registered(s.snd, k);
    assert forall a :: 0 < a < |s.toS| ==> !IsAck(s.toS[a], k);
    c := HolderOf(s, k);
    SenderShape(s);
    hide Happen, OrderInv, AckedTold, DoneRepliesOk, AcksOk, Since, SegmentCount, SendsInOrder, Settled;
  }

  lemma SameSettled(s: Sys, s': Sys, k: nat)
    requires Shaped(s) && Shaped(s') && k < SLOTS && Settled(s, k) && s'.out == s.out && s'.eaten == s.eaten
    ensures Settled(s', k)
  {
  }

  /** The acknowledgement arrives. */
  lemma AckArrives(s: Sys, s': Sys, k: nat, from: nat)
    requires OrderInv(s, k) && Shaped(s) && AckInv(s, k, from) && s.toS != [] && IsAck(s.toS[0], k)
    requires s' == Happen(s, ArriveAtSender) && OrderInv(s', k) && Shaped(s')
    ensures AckInv(s', k, from)
  {
    hide OrderInv, DoneRepliesOk, AckedTold, Told, SegmentCount, Settled;
    var c := AckWakesHolder(s, k, from);
    assert Settled(s', k) by { SameSettled(s, s', k); }
    hide Happen, AcksOk, IsAck;
    assert forall a :: 0 <= a < |s'.toS| ==> s'.toS[a] == s.toS[a + 1];
    HolderStaysRegistered(s, s', k, c, from);
    hide Registered, Since;
    SettledMeansTold(s', k, c);
    OthersStayTold(s, s', k, c, from);
    NoAcksOk(s', k);
    SettledRepliesOk(s', k);
  }

  /** A reply "completed" is gone from the head of the queue; no acknowledgement was behind it. */
  lemma PopDoneReply(s: Sys, s': Sys, k: nat)
    requires Shaped(s) && Shaped(s') && k < SLOTS && AcksOk(s, k) && DoneRepliesOk(s, k)
    requires s.toS != [] && IsDoneReply(s.snd, s.toS[0], k)
    requires s'.toS == s.toS[1..] && s'.out == s.out && s'.eaten == s.eaten
    ensures AcksOk(s', k) && DoneRepliesOk(s', k) && Settled(s', k)
  {
    NoAckBehindDone(s, k);
    assert forall a :: 0 <= a < |s'.toS| ==> s'.toS[a] == s.toS[a + 1];
    assert Settled(s', k);
    hide AcksOk, DoneRepliesOk, IsDoneReply, IsAck, Settled;
    NoAcksOk(s', k);
    SettledRepliesOk(s', k);
  }

  lemma DoneReplyArrives(s: Sys, s': Sys, k: nat, from: nat)
    requires OrderInv(s, k) && Shaped(s) && AckInv(s, k, from) && s.toS != []
    requires IsLive(s.snd, s.toS[0]) && s.toS[0].slot == k && s.toS[0].status.Completed?
    requires s' == Happen(s, ArriveAtSender) && OrderInv(s', k) && Shaped(s')
    ensures AckInv(s', k, from)
  {
    hide OrderInv, IsDoneReply, AckedTold, AcksOk, DoneRepliesOk, Registered, Since, Told, SegmentCount;
    var c := DoneReplyShape(s, k);
    hide Happen, IsLive;
    PopDoneReply(s, s', k);
    HolderStaysRegistered(s, s', k, c, from);
    hide Settled;
    SettledMeansTold(s', k, c);
    OthersStayTold(s, s', k, c, from);
  }

  lemma DoneReplyShape(s: Sys, k: nat) returns (c: nat)
    requires OrderInv(s, k) && Shaped(s) && s.toS != []
    requires IsLive(s.snd, s.toS[0]) && s.toS[0].slot == k && s.toS[0].status.Completed?
    ensures c < |s.snd.calls| && s.snd.calls[c].slot == k && IsDoneReply(s.snd, s.toS[0], k)
    ensures s.snd.calls[c].sent == s.snd.calls[c].Count() && s.snd.sl[k] == Some(c) && s.snd.calls[c].Active()
    ensures forall x :: c < x < |s.snd.calls| ==> s.snd.calls[x].slot != k
    ensures Happen(s, ArriveAtSender)
            == s.(toS := s.toS[1..],
                  snd := s.snd.(requests := s.snd.requests - {s.toS[0].id}, sl := s.snd.sl[k := None],
                                calls := s.snd.calls[c := s.snd.calls[c].(pc := Returned(true))]))
  {
    var kc;
    c, kc := LiveReply(s);
    var h := HolderOf(s, k);
    OrderFacts(s, k);
    hide Happen, OrderInv, PassAfter, SegmentCount, StatusOf, Slot, InOrder;
    StatusIsExpected(s.snd.calls, s.out[k], k, c);
  }

  lemma OtherReplyArrives(s: Sys, s': Sys, k: nat, from: nat)
    requires OrderInv(s, k) && Shaped(s) && AckInv(s, k, from) && s.toS != []
    requires IsLive(s.snd, s.toS[0]) && s.toS[0].slot == k && !s.toS[0].status.Completed?
    requires s' == Happen(s, ArriveAtSender) && Shaped(s')
    ensures AckInv(s', k, from)
  {
    var c, k' := LiveReply(s);
    hide Happen, OrderInv, PassAfter, SegmentCount, StatusOf, Slot;
    OthersStayTold(s, s', k, c, from);
    HolderStaysRegistered(s, s', k, c, from);
    hide AckedTold, Told, Registered, Since;
    PopKeepsQueue(s, s', k, c);
    hide DoneRepliesOk, AcksOk;
  }

  /** The holder writes again, and the head of the queue is gone. */
  lemma PopKeepsQueue(s: Sys, s': Sys, k: nat, c: nat)
    requires Shaped(s) && Shaped(s') && k < SLOTS && AcksOk(s, k) && s.toS != []
    requires s' == s.(snd := s'.snd, toS := s.toS[1..]) && c < |s.snd.calls| == |s'.snd.calls|
    requires s.snd.sl[k] == s'.snd.sl[k] == Some(c) && s'.snd.calls[c].pc.Writing?
    requires s'.snd.calls[c] == s.snd.calls[c].(pc := s'.snd.calls[c].pc)
    ensures AcksOk(s', k) && DoneRepliesOk(s', k)
  {
    assert forall a :: 0 <= a < |s'.toS| ==> s'.toS[a] == s.toS[a + 1];
    assert forall p :: !IsDoneReply(s'.snd, p, k);
    assert AwaitsAck(s.snd, k) ==> AwaitsAck(s'.snd, k);
    hide IsDoneReply, AwaitsAck, IsAck;
    NoDoneReplies(s', k);
  }

  lemma SenderKeepsAcks(s: Sys, k: nat, from: nat)
    requires OrderInv(s, k) && Shaped(s) && AckInv(s, k, from) && s.toS != []
    requires OrderInv(Happen(s, ArriveAtSender), k) && Shaped(Happen(s, ArriveAtSender))
    ensures AckInv(Happen(s, ArriveAtSender), k, from)
  {
    var p, s' := s.toS[0], Happen(s, ArriveAtSender);
    if IsAck(p, k) {
      AckArrives(s, s', k, from);
    } else if IsLive(s.snd, p) && p.slot == k {
      if p.status.Completed? { DoneReplyArrives(s, s', k, from); } else { OtherReplyArrives(s, s', k, from); }
    } else {
      OrderFacts(s, k);
      AnswerLeavesSlot(s, k);
      hide OrderInv, AckInv, Happen, OnAnswer, InOrder, ArrivedOk;
      assert s' == s.(snd := s'.snd, toS := s.toS[1..]) by { SenderShape(s); }
      PopKeepsAcks(s, s', k, from);
    }
  }

  lemma AnswerLeavesSlot(s: Sys, k: nat)
    requires Inv(s) && k < SLOTS && s.toS != [] && Shaped(Happen(s, ArriveAtSender))
    requires !IsAck(s.toS[0], k) && (IsLive(s.snd, s.toS[0]) ==> s.toS[0].slot != k)
    ensures var s' := Happen(s, ArriveAtSender);
            && SameSlot(s.snd, s'.snd, k) && |s'.snd.calls| == |s.snd.calls|
            && forall x :: 0 <= x < |s.snd.calls| ==> s'.snd.calls[x].slot == s.snd.calls[x].slot
  {
    var p := s.toS[0];
    SenderShape(s);
    AnswerLength(s.snd, p);
    hide SlotsInv, QueriesOk, Happen;
    forall x | 0 <= x < |s.snd.calls| ensures OnAnswer(s.snd, p).calls[x].slot == s.snd.calls[x].slot {
      AnswerCalls(s.snd, p, x);
    }
    if p.slot != k {
      assert p.Reply? ==> AskedFor(s.snd, p.slot, p.id);
      AnswerIsIsolated(s.snd, p, k);
      hide OnAnswer;
    }
  }

  /* ---- every run ---- */

  lemma AcksAreKept(s: Sys, s': Sys, k: nat, from: nat)
    requires OrderInv(s, k) && OrderInv(s', k) && Shaped(s) && Shaped(s') && Next(s, s') && |s'.snd.askers| < U32_SIZE
    requires AckInv(s, k, from) && NoneGaveUp(s.snd.calls, k, from) && NoneGaveUp(s'.snd.calls, k, from)
    ensures AckInv(s', k, from)
  {
    var ev :| Possible(s, ev) && s' == Happen(s, ev);
    hide OrderInv, AckInv, Happen, NoneGaveUp;
    match ev
    case Act(e) => ActKeepsAcks(s, e, k, from);
    case ArriveAtReceiver => ReceiverKeepsAcks(s, k, from);
    case ArriveAtSender => SenderKeepsAcks(s, k, from);
  }

  lemma NoneGaveUpWas(s: Sys, s': Sys, k: nat, from: nat)
    requires Next(s, s') && NoneGaveUp(s'.snd.calls, k, from)
    ensures NoneGaveUp(s.snd.calls, k, from)
  {
    StepIsFinal(s, s');
    hide Next;
  }

  lemma RunIsOrdered(run: seq<Sys>, k: nat)
    requires IsRun(run) && |Last(run).snd.askers| < U32_SIZE && k < SLOTS && Clean(Last(run).snd.calls, k)
    ensures OrderInv(Last(run), k) && Shaped(Last(run))
  {
    RunInOrder(run, k);
  }

  /** The invariant of slot k holds from any state of a run in which it holds. */
  lemma {:induction false} RunAcks(run: seq<Sys>, m: nat, k: nat, from: nat)
    requires IsRun(run) && m < |run| && |Last(run).snd.askers| < U32_SIZE && k < SLOTS
    requires Clean(Last(run).snd.calls, k) && NoneGaveUp(Last(run).snd.calls, k, from)
    requires Shaped(run[m]) && AckInv(run[m], k, from)
    ensures OrderInv(Last(run), k) && Shaped(Last(run)) && AckInv(Last(run), k, from)
  {
    RunIsOrdered(run, k);
    hide Next, OrderInv, Clean, NoneGaveUp, AckInv, Shaped;
    if m + 1 < |run| {
      var before := run[..|run| - 1];
      var s, s' := Last(before), Last(run);
      assert Next(s, s') && before[m] == run[m];
      StepIsFinal(s, s');
      CleanWas(s, s', k);
      NoneGaveUpWas(s, s', k, from);
      RunAcks(before, m, k, from);
      AcksAreKept(s, s', k, from);
    }
  }

  /* ---- results ---- */

  lemma {:induction false} FullySentPrefix(calls: seq<Call>, k: nat, n: nat)
    requires n <= |calls|
    ensures FullySent(calls[..n], k) <= FullySent(calls, k)
  {
    if n == |calls| {
      assert calls[..n] == calls;
    } else {
      var init := calls[..|calls| - 1];
      FullySentPrefix(init, k, n);
      assert init[..n] == calls[..n];
    }
  }

  /** A call from `from` on that has returned nil is delivered. */
  lemma ToldIsDelivered(s: Sys, k: nat, from: nat, c: nat)
    requires OrderInv(s, k) && Shaped(s) && AckInv(s, k, from)
    requires from <= c < |s.snd.calls| && s.snd.calls[c].slot == k && s.snd.calls[c].pc == Returned(true)
    ensures IsDelivered(s, k, c) && s.snd.calls[c].sent == s.snd.calls[c].Count()
  {
    OrderFacts(s, k);
    assert Told(s, k, c);
    LogIsArrived(s, k);
    hide OrderInv, AckInv, InOrder, ArrivedOk, LogOf;
    MessagesInPrefix(s.out[k], s.eaten[k]);
    FullySentPrefix(s.snd.calls, k, c + 1);
    hide FullySent, MessagesIn;
  }

  /** Something that was written whole on slot k has not arrived, or has not been acknowledged. */
  ghost predicate StillUnderWay(s: Sys, k: nat)
    requires Shaped(s) && k < SLOTS
  {
    (exists j :: s.eaten[k] <= j < |s.out[k]| && IsFinal(s.out[k][j])) || HasAck(s.toS, k)
  }

  ghost predicate HasAck(q: seq<Packet>, k: nat) {
    exists a :: 0 <= a < |q| && IsAck(q[a], k)
  }

  /** What was written last on a free clean slot ends a message. */
  lemma FreeSlotEndsWhole(s: Sys, k: nat)
    requires OrderInv(s, k) && Shaped(s) && s.snd.sl[k].None? && Clean(s.snd.calls, k) && s.out[k] != []
    ensures IsFinal(Last(s.out[k]))
  {
    OrderFacts(s, k);
    var e := Last(s.out[k]);
    var call := s.snd.calls[e.call];
    assert SlotsOk(s.snd) && IsOf(s.snd.calls, e, k) && SendsInOrder(call) && !call.Active();
    hide SegmentCount, OrderInv, ArrivedOk, SenderOk, Chain, Owned, MessagesIn, FullySent;
  }

  lemma FreeSlotSettles(s: Sys, k: nat)
    requires OrderInv(s, k) && Shaped(s) && s.snd.sl[k].None? && Clean(s.snd.calls, k) && !StillUnderWay(s, k)
    ensures Settled(s, k)
  {
    OrderFacts(s, k);
    if s.out[k] != [] {
      FreeSlotEndsWhole(s, k);
      var last := s.out[k][|s.out[k]| - 1];
    }
    hide OrderInv, InOrder, IsFinal, SenderOk;
  }

  lemma FreeSlotIsIdle(s: Sys, k: nat)
    requires SlotsOk(s.snd) && k < |s.snd.sl| && s.snd.sl[k].None?
    ensures forall c :: 0 <= c < |s.snd.calls| && s.snd.calls[c].slot == k ==> !s.snd.calls[c].Active()
  {
  }

  /** From a free slot with nothing under way, the invariant holds of all calls to come. */
  lemma FreshStart(s: Sys, k: nat)
    requires OrderInv(s, k) && Shaped(s) && s.snd.sl[k].None? && Clean(s.snd.calls, k) && !StillUnderWay(s, k)
    ensures AckInv(s, k, |s.snd.calls|)
  {
    FreeSlotSettles(s, k);
    OrderFacts(s, k);
    FreeSlotIsIdle(s, k);
    hide OrderInv, InOrder, ArrivedOk, SenderOk, SlotsOk, Clean, IsFinal;
    assert Registered(s.snd, k) && Since(s, k, |s.snd.calls|);
    SettledRepliesOk(s, k);
    NoAcksOk(s, k);
  }

  lemma InitAcks(k: nat)
    requires k < SLOTS
    ensures Shaped(INIT) && AckInv(INIT, k, 0)
  {
    InitSlots();
  }

  /** `SendMsg` returns nil only after its message has been delivered, also on slots that are used any
      number of times, as long as no call on the slot has failed after writing everything: by then the
      receiver has handed out the messages of all calls on that slot up to this one, each once and in
      order. Other slots do not matter. */
  lemma AcknowledgementIsSoundOnReuse(run: seq<Sys>, k: nat, c: nat)
    requires IsRun(run) && |Last(run).snd.askers| < U32_SIZE && k < SLOTS
    requires Clean(Last(run).snd.calls, k) && NoneGaveUp(Last(run).snd.calls, k, 0)
    requires c < |Last(run).snd.calls| && Last(run).snd.calls[c].slot == k
    requires Last(run).snd.calls[c].pc == Returned(true)
    ensures var s := Last(run);
            && IsDelivered(s, k, c)
            && FullySent(s.snd.calls[..c + 1], k) == FullySent(s.snd.calls[..c], k) + [s.snd.calls[c].message]
  {
    var s := Last(run);
    InitAcks(k);
    RunAcks(run, 0, k, 0);
    hide IsRun, OrderInv, AckInv, Shaped, Clean, NoneGaveUp;
    ToldIsDelivered(s, k, 0, c);
    assert s.snd.calls[..c + 1][..c] == s.snd.calls[..c];
  }

  /** A free slot on which no call has written everything and failed has nothing under way. */
  lemma NoneGaveUpSettles(run: seq<Sys>, k: nat)
    requires IsRun(run) && |Last(run).snd.askers| < U32_SIZE && k < SLOTS
    requires Clean(Last(run).snd.calls, k) && NoneGaveUp(Last(run).snd.calls, k, 0)
    requires Shaped(Last(run)) && Last(run).snd.sl[k].None?
    ensures !StillUnderWay(Last(run), k)
  {
    var s := Last(run);
    InitAcks(k);
    RunAcks(run, 0, k, 0);
    OrderFacts(s, k);
    FreeSlotIsIdle(s, k);
    FreeSlotHasNoAck(s, k);
    hide IsRun, OrderInv, ArrivedOk, SenderOk, Clean, AcksOk, DoneRepliesOk, Registered, Since;
    forall j | 0 <= j < |s.out[k]| && IsFinal(s.out[k][j]) ensures j < s.eaten[k] {
      FinalHasArrived(s, k, j);
    }
    hide IsFinal, IsAck;
  }

  lemma FinalHasArrived(s: Sys, k: nat, j: nat)
    requires Shaped(s) && k < SLOTS && InOrder(s.snd.calls, s.out[k], k) && AckedTold(s, k, 0)
    requires NoneGaveUp(s.snd.calls, k, 0) && j < |s.out[k]| && IsFinal(s.out[k][j])
    requires forall c :: 0 <= c < |s.snd.calls| && s.snd.calls[c].slot == k ==> !s.snd.calls[c].Active()
    ensures j < s.eaten[k]
  {
    var e := s.out[k][j];
    assert IsOf(s.snd.calls, e, k) && SendsInOrder(s.snd.calls[e.call]);
    hide SegmentCount, InOrder;
    assert Knows(s.snd.calls[e.call]);
  }

  lemma FreeSlotHasNoAck(s: Sys, k: nat)
    requires Shaped(s) && k < SLOTS && AcksOk(s, k) && s.snd.sl[k].None?
    ensures forall a :: 0 <= a < |s.toS| ==> !IsAck(s.toS[a], k)
  {
  }
}
