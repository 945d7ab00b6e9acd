/** Up to ten transfers interleaved over a network that loses, duplicates and reorders at will. */
module LossyNetwork {
  import opened Bytes
  import opened Sending
  import opened Recving
  import opened Reassembly
  import opened Rounds
  import opened Status
  import opened Endpoint
  import opened SenderInvariant
  import IdPool

  /** `toR` and `toS` hold every datagram ever written in either direction: any of them may arrive at
      any time and any number of times, or never. `log` lists what was handed to `inbound`. */
  datatype Sys = Sys(snd: Sender, rl: RecvList, toR: set<Packet>, toS: set<Packet>, log: seq<Delivery>)

  const INIT: Sys := Sys(IDLE, NOTHING_RECEIVED, {}, {}, [])

  datatype Event = Act(e: SendEvent) | ArriveAtReceiver(p: Packet) | ArriveAtSender(p: Packet)

  ghost predicate Possible(s: Sys, ev: Event) {
    match ev
    case Act(e) => Enabled(s.snd, e)
    case ArriveAtReceiver(p) => p in s.toR
    case ArriveAtSender(p) => p in s.toS && !s.snd.stuck
  }

  ghost function Written(ps: seq<Packet>): set<Packet> { set i | 0 <= i < |ps| :: ps[i] }

  ghost function Happen(s: Sys, ev: Event): Sys
    requires WellShaped(s.snd) && Possible(s, ev)
  {
    match ev
    case Act(e) =>
      var (snd, out) := SendStep(s.snd, e);
      s.(snd := snd, toR := s.toR + Written(out))
    case ArriveAtReceiver(p) =>
      var msg := Delivered(s.rl, p);
      s.(rl := AfterRequest(s.rl, p), toS := s.toS + Written(Answers(s.rl, p)),
         log := if msg.Some? then s.log + [Delivery(p.slot, msg.value)] else s.log)
    case ArriveAtSender(p) => s.(snd := OnAnswer(s.snd, p))
  }

  ghost predicate Next(s: Sys, s': Sys) {
    WellShaped(s.snd) && exists ev :: Possible(s, ev) && s' == Happen(s, ev)
  }

  ghost predicate IsRun(run: seq<Sys>) {
    && run != [] && run[0] == INIT
    && forall i :: 0 <= i < |run| - 1 ==> Next(run[i], run[i + 1])
  }

  /* ---- invariants ---- */

  ghost predicate Logged(log: seq<Delivery>, k: nat, message: bytes) {
    Delivery(k, message) in log
  }

  ghost predicate NetworkOk(s: Sys) {
    && (forall p :: p in s.toR ==> p.Trans? || (p.Query? && AskedFor(s.snd, p.slot, p.id)))
    && (forall p :: p in s.toS ==> p.Received? || (p.Reply? && AskedFor(s.snd, p.slot, p.id)))
  }

  /** A slot never taken has seen nothing. */
  ghost predicate Untouched(s: Sys, k: nat)
    requires k < SLOTS
  {
    && s.rl[k].None?
    && (forall p :: p in s.toR && p.Trans? ==> p.slot != k)
    && (forall p :: p in s.toS && p.Received? ==> p.slot != k)
    && (forall d :: d in s.log ==> d.slot != k)
  }

  ghost predicate TransOk(toR: set<Packet>, k: nat, w: bytes) {
    forall p :: p in toR && p.Trans? && p.slot == k ==>
      p.orderID < SegmentCount(w) && p.body == Fragment(w, p.orderID)
  }

  /** The receiver of slot k, if any, has accepted some segments of w and nothing else. */
  ghost predicate RecvOk(recving: Option<Recv>, w: bytes) {
    recving.Some? ==> exists accepted :: accepted != {} && Tracks(recving.value, w, accepted)
  }

  ghost predicate LogOk(log: seq<Delivery>, k: nat, message: bytes) {
    forall d :: d in log && d.slot == k ==> d.message == message
  }

  ghost predicate AnswersOk(toS: set<Packet>, k: nat, count: nat, logged: bool) {
    forall p :: p in toS && p.slot == k ==>
      (p.Received? ==> logged) && (p.Reply? ==> StatusOk(p.status, count, logged))
  }

  ghost predicate StatusOk(status: Status, count: nat, logged: bool) {
    && (status.Completed? ==> logged)
    && (status.NotCompleted? ==>
          status.largest < count && forall i :: 0 <= i < |status.missing| ==> status.missing[i] < count)
  }

  ghost predicate CallOk(call: Call, logged: bool) {
    && (call.acked || call.pc == Returned(true) ==> logged)
    && (call.pc.Writing? ==> PassOk(Round(call.pc.ids, call.pc.after), call.Count()))
  }

  ghost predicate PassOk(pass: Round, count: nat) {
    !pass.after.ToError? && forall i :: 0 <= i < |pass.ids| ==> 0 <= pass.ids[i] < count
  }

  /** All that can be seen of call c, the only one its slot ever had. */
  ghost predicate OnlyTransfer(s: Sys, c: nat)
    requires c < |s.snd.calls| && s.snd.calls[c].slot < SLOTS
  {
    var call := s.snd.calls[c];
    var k, w, logged := call.slot, Wire(call.message), Logged(s.log, call.slot, call.message);
    && TransOk(s.toR, k, w)
    && RecvOk(s.rl[k], w)
    && (s.rl[k].Some? && s.rl[k].value.completed ==> logged)
    && LogOk(s.log, k, call.message)
    && AnswersOk(s.toS, k, SegmentCount(w), logged)
    && CallOk(call, logged)
  }

  ghost predicate TransfersOk(s: Sys)
    requires WellShaped(s.snd)
  {
    && (forall k :: 0 <= k < SLOTS && s.snd.begun[k] == 0 ==> Untouched(s, k))
    && (forall c :: 0 <= c < |s.snd.calls| && s.snd.begun[s.snd.calls[c].slot] == 1 ==> OnlyTransfer(s, c))
  }

  /** First calls on a slot, also after the slot has been reused. */
  ghost predicate FirstsOk(s: Sys)
    requires WellShaped(s.snd)
  {
    && (forall c :: 0 <= c < |s.snd.calls| && s.snd.calls[c].first && s.snd.calls[c].Active() ==>
          s.snd.begun[s.snd.calls[c].slot] == 1)
    && (forall c :: 0 <= c < |s.snd.calls| && s.snd.calls[c].first && s.snd.calls[c].pc == Returned(true) ==>
          Logged(s.log, s.snd.calls[c].slot, s.snd.calls[c].message))
  }

  ghost predicate Inv(s: Sys) {
    SenderOk(s.snd) && NetworkOk(s) && TransfersOk(s) && FirstsOk(s)
  }

  /* ---- one lemma per kind of event ---- */

  lemma NetworkStays(s: Sys, ev: Event)
    requires SenderOk(s.snd) && NetworkOk(s) && Possible(s, ev)
    requires Extends(s.snd, Happen(s, ev).snd)
    ensures NetworkOk(Happen(s, ev))
  {
    var s' := Happen(s, ev);
    AskedForStays(s.snd, s'.snd);
    if ev.Act? && ev.e.WriteQuery? {
      assert AskedFor(s.snd, s.snd.calls[ev.e.c].slot, s.snd.calls[ev.e.c].pc.id);
    }
  }

  /** A sender pass for known-good statuses stays within the message. */
  lemma PassIsOk(status: Status, count: nat, logged: bool)
    requires StatusOk(status, count, logged) && !status.Completed? && count < U16_SIZE
    ensures PassOk(PassAfter(status, count), count)
  {
    if status.NotCompleted? {
      assert FirstTooLarge(status.missing, count) == |status.missing|;
    }
  }

  /** A segment of w arriving at a receiver that tracks w, or at a fresh or completed one. */
  lemma ArrivalTracks(rl: RecvList, p: Packet, message: bytes)
    requires Sendable(message) && p.Trans? && p.slot < SLOTS
    requires p.orderID < SegmentCount(Wire(message)) && p.body == Fragment(Wire(message), p.orderID)
    requires RecvOk(rl[p.slot], Wire(message))
    ensures Accepts(rl, p)
    ensures RecvOk(AfterRequest(rl, p)[p.slot], Wire(message))
    ensures Delivered(rl, p).Some? ==> Delivered(rl, p).value == message
    ensures AfterRequest(rl, p)[p.slot].Some?
    ensures AfterRequest(rl, p)[p.slot].value.completed ==> Delivered(rl, p).Some?
  {
    var w := Wire(message);
    SendableIsWire(message);
    var accepted := AcceptedSoFar(rl[p.slot], w);
    var r := Current(rl[p.slot]);
    SaveInserts(r, w, accepted, p.orderID);
    var accepted' := accepted + {p.orderID as nat};
    CompletedIsFull(r, w, accepted);
    CompletedIsFull(r.Save(p.orderID, p.body).0, w, accepted');
    hide Tracks, Recv.Save, Recv.CanSave, Fragment, SegmentCount, Wire, Current;
    assert p.orderID in accepted' && (p.orderID in accepted ==> accepted' == accepted);
  }

  /** What the receiver that a segment meets has accepted. */
  lemma AcceptedSoFar(recving: Option<Recv>, w: bytes) returns (accepted: set<nat>)
    requires IsWire(w) && RecvOk(recving, w)
    ensures Tracks(Current(recving), w, accepted)
  {
    FreshTracks(w);
    hide Tracks;
    accepted := {};
    if recving.Some? && !recving.value.completed {
      accepted :| accepted != {} && Tracks(recving.value, w, accepted);
    }
  }

  lemma StatusIsOk(recving: Option<Recv>, message: bytes, logged: bool)
    requires Sendable(message) && RecvOk(recving, Wire(message))
    requires recving.Some? && recving.value.completed ==> logged
    ensures StatusOk(StatusOf(recving, SEND_WINDOW), SegmentCount(Wire(message)), logged)
  {
    SendableIsWire(message);
    if recving.Some? && !recving.value.completed {
      var accepted :| accepted != {} && Tracks(recving.value, Wire(message), accepted);
      SummaryIsExact(recving.value, Wire(message), accepted);
    }
  }

  /** Nothing new on slot k, as far as the datagrams and the log go. */
  ghost predicate SlotQuiet(s: Sys, s': Sys, k: nat)
    requires k < SLOTS
  {
    && s'.rl[k] == s.rl[k]
    && (forall p :: p in s'.toR && p.Trans? && p.slot == k ==> p in s.toR)
    && (forall p :: p in s'.toS && p.slot == k ==> p in s.toS)
    && (forall d :: d in s'.log && d.slot == k ==> d in s.log)
    && (forall d :: d in s.log ==> d in s'.log)
  }

  lemma QuietKeeps(s: Sys, s': Sys, c: nat)
    requires c < |s.snd.calls| && c < |s'.snd.calls| && s.snd.calls[c].slot < SLOTS
    requires OnlyTransfer(s, c) && SlotQuiet(s, s', s.snd.calls[c].slot)
    requires SameCall(s.snd.calls[c], s'.snd.calls[c])
    requires CallOk(s'.snd.calls[c], Logged(s.log, s.snd.calls[c].slot, s.snd.calls[c].message))
    ensures OnlyTransfer(s', c)
  {
  }

  lemma QuietUntouched(s: Sys, s': Sys, k: nat)
    requires k < SLOTS && Untouched(s, k) && SlotQuiet(s, s', k)
    ensures Untouched(s', k)
  {
  }

  /** A step of call c writes transfer segments on its own slot only, and only the next of its pass. */
  lemma ActWrites(s: Sys, e: SendEvent)
    requires WellShaped(s.snd) && Enabled(s.snd, e)
    ensures var s' := Happen(s, Act(e));
            && s'.rl == s.rl && s'.toS == s.toS && s'.log == s.log
            && forall p :: p in s'.toR && p.Trans? && p !in s.toR ==>
                 e.WriteNext? && p.slot == s.snd.calls[e.c].slot && p.orderID == s.snd.calls[e.c].pc.ids[0]
                 && p.body == Fragment(Wire(s.snd.calls[e.c].message), p.orderID)
  {
  }

  lemma ActLeavesOthers(s: Sys, e: SendEvent)
    requires WellShaped(s.snd) && Enabled(s.snd, e) && !e.Begin?
    ensures var s' := Happen(s, Act(e));
            && s'.snd.begun == s.snd.begun && |s'.snd.calls| == |s.snd.calls|
            && forall c :: 0 <= c < |s.snd.calls| && c != e.c ==> s'.snd.calls[c] == s.snd.calls[c]
  {
  }

  lemma BeginTransfers(s: Sys, message: bytes)
    requires Inv(s) && Enabled(s.snd, Begin(message))
    requires WellShaped(Happen(s, Act(Begin(message))).snd)
    ensures TransfersOk(Happen(s, Act(Begin(message))))
  {
    var s', k := Happen(s, Act(Begin(message))), FreeSlot(s.snd.sl);
    forall j | 0 <= j < SLOTS && s'.snd.begun[j] == 0 ensures Untouched(s', j) {
      QuietUntouched(s, s', j);
    }
    forall c | 0 <= c < |s'.snd.calls| && s'.snd.begun[s'.snd.calls[c].slot] == 1 ensures OnlyTransfer(s', c) {
      if c < |s.snd.calls| {
        QuietKeeps(s, s', c);
      } else {
        assert Untouched(s, k);
        assert AnswersOk(s'.toS, k, SegmentCount(Wire(message)), Logged(s'.log, k, message));
      }
    }
  }

  /** The first pass stays within the message. */
  lemma FirstPassIsOk(message: bytes)
    requires Sendable(message)
    ensures PassOk(FullRound(SegmentCount(Wire(message)), SEND_WINDOW), SegmentCount(Wire(message)))
  {
  }

  /** The call's own step keeps what is known of the call. */
  lemma ActCallOk(s: Sys, e: SendEvent)
    requires WellShaped(s.snd) && HistoryOk(s.snd) && Enabled(s.snd, e) && !e.Begin?
    requires OnlyTransfer(s, e.c)
    ensures var call := s.snd.calls[e.c];
            CallOk(SendStep(s.snd, e).0.calls[e.c], Logged(s.log, call.slot, call.message))
  {
    assert Sendable(s.snd.calls[e.c].message);
    hide SegmentCount, Wire, Fragment, FullRound, Logged, TransOk, RecvOk, LogOk, AnswersOk, IdPool.IsNextID;
    hide HistoryOk;
    FirstPassIsOk(s.snd.calls[e.c].message);
  }

  lemma ActTransfers(s: Sys, e: SendEvent)
    requires Inv(s) && Enabled(s.snd, e) && !e.Begin?
    requires SenderOk(Happen(s, Act(e)).snd) && Extends(s.snd, Happen(s, Act(e)).snd)
    ensures TransfersOk(Happen(s, Act(e)))
  {
    var s' := Happen(s, Act(e));
    ActWrites(s, e);
    ActLeavesOthers(s, e);
    hide SendStep;
    forall j | 0 <= j < SLOTS && s'.snd.begun[j] == 0 ensures Untouched(s', j) {
      QuietUntouched(s, s', j);
    }
    forall c | 0 <= c < |s'.snd.calls| && s'.snd.begun[s'.snd.calls[c].slot] == 1 ensures OnlyTransfer(s', c) {
      if c == e.c {
        OwnActTransfers(s, e);
      } else {
        assert s'.snd.calls[c] == s.snd.calls[c] && s.snd.calls[c].slot != s.snd.calls[e.c].slot;
        QuietKeeps(s, s', c);
      }
    }
  }

  lemma OwnActTransfers(s: Sys, e: SendEvent)
    requires WellShaped(s.snd) && HistoryOk(s.snd) && Enabled(s.snd, e) && !e.Begin?
    requires OnlyTransfer(s, e.c)
    requires Extends(s.snd, Happen(s, Act(e)).snd)
    ensures OnlyTransfer(Happen(s, Act(e)), e.c)
  {
    ActCallOk(s, e);
    ActWrites(s, e);
    hide SendStep;
    var call := s.snd.calls[e.c];
    var s' := Happen(s, Act(e));
    assert TransOk(s'.toR, call.slot, Wire(call.message));
  }

  /** A datagram for one slot leaves the receiving state, the answers and the log of every other. */
  lemma ArrivalIsQuiet(s: Sys, p: Packet, k: nat)
    requires WellShaped(s.snd) && p in s.toR && p.slot != k && k < SLOTS
    requires p.Trans? || p.Query?
    ensures SlotQuiet(s, Happen(s, ArriveAtReceiver(p)), k)
  {
  }

  lemma SegmentArrives(s: Sys, p: Packet, c: nat)
    requires WellShaped(s.snd) && HistoryOk(s.snd) && p in s.toR && p.Trans?
    requires c < |s.snd.calls| && s.snd.calls[c].slot == p.slot && OnlyTransfer(s, c)
    ensures OnlyTransfer(Happen(s, ArriveAtReceiver(p)), c)
  {
    var s', call := Happen(s, ArriveAtReceiver(p)), s.snd.calls[c];
    ArrivalTracks(s.rl, p, call.message);
    hide AfterRequest, Delivered, Tracks;
    assert forall d :: d in s.log ==> d in s'.log;
    var logged := Logged(s'.log, p.slot, call.message);
    if Delivered(s.rl, p).Some? {
      assert s'.log[|s.log|] == Delivery(p.slot, call.message);
    }
    assert LogOk(s'.log, p.slot, call.message);
    assert AnswersOk(s'.toS, p.slot, SegmentCount(Wire(call.message)), logged);
  }

  lemma QueryArrives(s: Sys, p: Packet, c: nat)
    requires WellShaped(s.snd) && HistoryOk(s.snd) && p in s.toR && p.Query?
    requires c < |s.snd.calls| && s.snd.calls[c].slot == p.slot && OnlyTransfer(s, c)
    ensures OnlyTransfer(Happen(s, ArriveAtReceiver(p)), c)
  {
    var s', call := Happen(s, ArriveAtReceiver(p)), s.snd.calls[c];
    var logged := Logged(s.log, p.slot, call.message);
    StatusIsOk(s.rl[p.slot], call.message, logged);
    hide StatusOf;
    assert AnswersOk(s'.toS, p.slot, SegmentCount(Wire(call.message)), logged);
  }

  lemma ArrivalTransfers(s: Sys, p: Packet)
    requires Inv(s) && p in s.toR
    ensures TransfersOk(Happen(s, ArriveAtReceiver(p)))
  {
    var s' := Happen(s, ArriveAtReceiver(p));
    forall j | 0 <= j < SLOTS && s'.snd.begun[j] == 0 ensures Untouched(s', j) {
      assert Untouched(s, j);
      ArrivalIsQuiet(s, p, j);
      QuietUntouched(s, s', j);
    }
    forall c | 0 <= c < |s'.snd.calls| && s'.snd.begun[s'.snd.calls[c].slot] == 1 ensures OnlyTransfer(s', c) {
      if s.snd.calls[c].slot == p.slot {
        if p.Trans? { SegmentArrives(s, p, c); } else { QueryArrives(s, p, c); }
      } else {
        ArrivalIsQuiet(s, p, s.snd.calls[c].slot);
        QuietKeeps(s, s', c);
      }
    }
  }

  /** A reply reaches only a call on the slot that was queried; an acknowledgement likewise. */
  lemma AnswerReachesSlot(s: Sys, p: Packet, c: nat)
    requires SenderOk(s.snd) && NetworkOk(s) && p in s.toS
    requires c < |s.snd.calls| && OnAnswer(s.snd, p).calls[c] != s.snd.calls[c]
    ensures s.snd.calls[c].slot == p.slot
  {
  }

  lemma AnswerCallOk(s: Sys, p: Packet, c: nat)
    requires SenderOk(s.snd) && NetworkOk(s) && p in s.toS
    requires c < |s.snd.calls| && OnlyTransfer(s, c)
    ensures var call := s.snd.calls[c];
            CallOk(OnAnswer(s.snd, p).calls[c], Logged(s.log, call.slot, call.message))
  {
    var call := s.snd.calls[c];
    SendableIsWire(call.message);
    CountIsExact(Wire(call.message));
    if OnAnswer(s.snd, p).calls[c] != call {
      AnswerReachesSlot(s, p, c);
      var logged := Logged(s.log, call.slot, call.message);
      if p.Reply? && !p.status.Completed? {
        PassIsOk(p.status, call.Count(), logged);
      }
    }
  }

  lemma AnswerIsQuiet(s: Sys, p: Packet, k: nat)
    requires WellShaped(s.snd) && p in s.toS && !s.snd.stuck && k < SLOTS
    ensures SlotQuiet(s, Happen(s, ArriveAtSender(p)), k)
  {
    hide OnAnswer;
  }

  lemma AnswerBegins(s: Sender, p: Packet)
    requires WellShaped(s)
    ensures OnAnswer(s, p).begun == s.begun && |OnAnswer(s, p).calls| == |s.calls|
  {
    hide PassAfter;
  }

  lemma AnswerTransfers(s: Sys, p: Packet)
    requires Inv(s) && p in s.toS && !s.snd.stuck
    requires SenderOk(Happen(s, ArriveAtSender(p)).snd) && Extends(s.snd, Happen(s, ArriveAtSender(p)).snd)
    ensures TransfersOk(Happen(s, ArriveAtSender(p)))
  {
    var s' := Happen(s, ArriveAtSender(p));
    AnswerBegins(s.snd, p);
    forall j | 0 <= j < SLOTS && s'.snd.begun[j] == 0 ensures Untouched(s', j) {
      AnswerIsQuiet(s, p, j);
      hide OnAnswer, SlotQuiet, Untouched, OnlyTransfer;
      QuietUntouched(s, s', j);
    }
    forall c | 0 <= c < |s'.snd.calls| && s'.snd.begun[s'.snd.calls[c].slot] == 1 ensures OnlyTransfer(s', c) {
      assert OnlyTransfer(s, c);
      AnswerCallOk(s, p, c);
      AnswerIsQuiet(s, p, s.snd.calls[c].slot);
      hide OnAnswer, SlotQuiet, Untouched, OnlyTransfer, CallOk;
      QuietKeeps(s, s', c);
    }
  }

  lemma CallsComeFrom(s: Sys, ev: Event)
    requires SenderOk(s.snd) && Possible(s, ev) && SenderOk(Happen(s, ev).snd)
    ensures CallsFrom(s.snd, Happen(s, ev).snd)
  {
    match ev
    case Act(e) => SendStepCallsFrom(s.snd, e);
    case ArriveAtReceiver(p) =>
    case ArriveAtSender(p) => AnswerCallsFrom(s.snd, p);
  }

  lemma FirstsStay(s: Sys, ev: Event)
    requires Inv(s) && Possible(s, ev)
    requires SenderOk(Happen(s, ev).snd) && TransfersOk(Happen(s, ev))
    ensures FirstsOk(Happen(s, ev))
  {
    var s' := Happen(s, ev);
    LogOnlyGrows(s, ev);
    CallsComeFrom(s, ev);
    hide Happen, Possible, NetworkOk, SenderOk, TransfersOk, Logged;
    FirstsFollow(s, s');
  }

  lemma FirstsFollow(s: Sys, s': Sys)
    requires WellShaped(s.snd) && WellShaped(s'.snd) && CallsFrom(s.snd, s'.snd) && FirstsOk(s) && TransfersOk(s')
    requires forall d :: d in s.log ==> d in s'.log
    ensures FirstsOk(s')
  {
    hide TransfersOk, Logged;
    forall c | 0 <= c < |s'.snd.calls| && s'.snd.calls[c].first && s'.snd.calls[c].pc == Returned(true)
      ensures Logged(s'.log, s'.snd.calls[c].slot, s'.snd.calls[c].message)
    {
      FirstStaysLogged(s, s', c);
    }
  }

  lemma FirstStaysLogged(s: Sys, s': Sys, c: nat)
    requires WellShaped(s.snd) && WellShaped(s'.snd) && CallsFrom(s.snd, s'.snd) && FirstsOk(s) && TransfersOk(s')
    requires forall d :: d in s.log ==> d in s'.log
    requires c < |s'.snd.calls| && s'.snd.calls[c].first && s'.snd.calls[c].pc == Returned(true)
    ensures Logged(s'.log, s'.snd.calls[c].slot, s'.snd.calls[c].message)
  {
    if c < |s.snd.calls| && s.snd.calls[c].Active() {
      assert OnlyTransfer(s', c);
    }
    hide TransOk, RecvOk, AnswersOk, LogOk, TransfersOk;
  }

  lemma LogOnlyGrows(s: Sys, ev: Event)
    requires WellShaped(s.snd) && Possible(s, ev)
    ensures forall d :: d in s.log ==> d in Happen(s, ev).log
  {
    hide AfterRequest, Delivered, Answers, SendStep, OnAnswer;
  }

  lemma InvIsKept(s: Sys, s': Sys)
    requires Inv(s) && Next(s, s') && |s'.snd.askers| < U32_SIZE
    ensures Inv(s')
  {
    var ev :| Possible(s, ev) && s' == Happen(s, ev);
    match ev
    case Act(e) =>
      SendStepKeeps(s.snd, e);
      NetworkStays(s, ev);
      if e.Begin? { BeginTransfers(s, e.message); } else { ActTransfers(s, e); }
      FirstsStay(s, ev);
    case ArriveAtReceiver(p) =>
      NetworkStays(s, ev);
      ArrivalTransfers(s, p);
      FirstsStay(s, ev);
    case ArriveAtSender(p) =>
      AnswerKeeps(s.snd, p);
      NetworkStays(s, ev);
      AnswerTransfers(s, p);
      FirstsStay(s, ev);
  }

  lemma AskersGrow(s: Sys, s': Sys)
    requires Next(s, s')
    ensures |s.snd.askers| <= |s'.snd.askers|
  {
  }

  lemma InitIsOk()
    ensures Inv(INIT)
  {
  }

  /** The invariant holds in every reachable state of every run with fewer than 2^32 queries. */
  lemma {:induction false} RunInv(run: seq<Sys>)
    requires IsRun(run) && |run[|run| - 1].snd.askers| < U32_SIZE
    ensures Inv(run[|run| - 1])
  {
    hide Next, Inv;
    if |run| == 1 {
      InitIsOk();
    } else {
      var before := run[..|run| - 1];
      var s, s' := before[|before| - 1], run[|run| - 1];
      assert Next(s, s');
      AskersGrow(s, s');
      RunInv(before);
      InvIsKept(s, s');
    }
  }

  /* ---- first transfers ---- */

  /** None of the first n calls, c aside, is on slot k. */
  ghost predicate NoOther(calls: seq<Call>, n: nat, c: nat, k: nat)
    requires n <= |calls|
  {
    forall b :: 0 <= b < n && b != c ==> calls[b].slot != k
  }

  /** `first` and `begun` say what they are meant to. */
  ghost predicate MarksOk(s: Sender) {
    && WellShaped(s)
    && (forall c :: 0 <= c < |s.calls| ==>
          && (s.calls[c].first <==> NoOther(s.calls, c, c, s.calls[c].slot))
          && (s.begun[s.calls[c].slot] == 1 <==> NoOther(s.calls, |s.calls|, c, s.calls[c].slot)))
    && (forall k :: 0 <= k < SLOTS ==> (s.begun[k] == 0 <==> NoOther(s.calls, |s.calls|, |s.calls|, k)))
  }

  lemma SameCallsFirsts(s: Sender, s': Sender)
    requires MarksOk(s) && WellShaped(s') && s'.begun == s.begun && |s'.calls| == |s.calls|
    requires forall c :: 0 <= c < |s.calls| ==> SameCall(s.calls[c], s'.calls[c])
    ensures MarksOk(s')
  {
    assert forall n: nat, c: nat, k: nat :: n <= |s.calls| ==>
             (NoOther(s'.calls, n, c, k) <==> NoOther(s.calls, n, c, k));
  }

  lemma OneMore(calls: seq<Call>, call: Call, i: nat, c: nat, k: nat)
    ensures i <= |calls| ==> (NoOther(calls + [call], i, c, k) <==> NoOther(calls, i, c, k))
    ensures NoOther(calls + [call], |calls| + 1, c, k)
            <==> NoOther(calls, |calls|, c, k) && (c == |calls| || call.slot != k)
  {
    var all := calls + [call];
    assert all[|calls|] == call && forall b :: 0 <= b < |calls| ==> all[b] == calls[b];
  }

  lemma Began(s: Sender, message: bytes) returns (call: Call)
    requires WellShaped(s) && Enabled(s, Begin(message))
    ensures var s' := SendStep(s, Begin(message)).0;
            && s'.calls == s.calls + [call] && call.slot < SLOTS && (call.first <==> s.begun[call.slot] == 0)
            && s'.begun == s.begun[call.slot := s.begun[call.slot] + 1]
  {
    var k := FreeSlot(s.sl);
    call := Call(message, k, s.begun[k] == 0, 0, Begun, false);
  }

  lemma BeginFirsts(s: Sender, message: bytes)
    requires MarksOk(s) && Enabled(s, Begin(message)) && WellShaped(SendStep(s, Begin(message)).0)
    ensures MarksOk(SendStep(s, Begin(message)).0)
  {
    assert WellShaped(s);
    hide MarksOk, NoOther;
    var call := Began(s, message);
    hide SendStep, Enabled;
    NewCallMarks(s, call, SendStep(s, Begin(message)).0);
  }

  /** One more call on slot k. */
  lemma NewCallMarks(s: Sender, call: Call, s': Sender)
    requires MarksOk(s) && WellShaped(s') && s'.calls == s.calls + [call] && call.slot < SLOTS
    requires s'.begun == s.begun[call.slot := s.begun[call.slot] + 1] && (call.first <==> s.begun[call.slot] == 0)
    ensures MarksOk(s')
  {
    hide NoOther;
    var n := |s.calls|;
    forall c | 0 <= c < |s'.calls|
      ensures s'.calls[c].first <==> NoOther(s'.calls, c, c, s'.calls[c].slot)
      ensures s'.begun[s'.calls[c].slot] == 1 <==> NoOther(s'.calls, |s'.calls|, c, s'.calls[c].slot)
    {
      OneMore(s.calls, call, c, c, s'.calls[c].slot);
      if c < n { NotUnused(s, c); }
    }
    forall j | 0 <= j < SLOTS ensures s'.begun[j] == 0 <==> NoOther(s'.calls, |s'.calls|, |s'.calls|, j) {
      OneMore(s.calls, call, n, n + 1, j);
      PastTheEnd(s.calls, j);
    }
  }

  lemma PastTheEnd(calls: seq<Call>, k: nat)
    ensures NoOther(calls, |calls|, |calls| + 1, k) <==> NoOther(calls, |calls|, |calls|, k)
  {
  }

  lemma NotUnused(s: Sender, c: nat)
    requires MarksOk(s) && c < |s.calls|
    ensures s.begun[s.calls[c].slot] != 0
  {
    assert s.begun[s.calls[c].slot] == 0 <==> NoOther(s.calls, |s.calls|, |s.calls|, s.calls[c].slot);
  }

  lemma {:induction false} RunFirsts(run: seq<Sys>)
    requires IsRun(run) && |run[|run| - 1].snd.askers| < U32_SIZE
    ensures MarksOk(run[|run| - 1].snd)
  {
    if |run| > 1 {
      var before := run[..|run| - 1];
      var s, s' := before[|before| - 1], run[|run| - 1];
      assert Next(s, s');
      AskersGrow(s, s');
      RunFirsts(before);
      var ev :| Possible(s, ev) && s' == Happen(s, ev);
      assert SenderOk(s.snd) && SenderOk(s'.snd) by { RunInv(before); RunInv(run); }
      hide Next, Possible, Happen, MarksOk, SenderOk, IsRun;
      EventFirsts(s, ev);
    }
  }

  /** A step that begins no call leaves the calls and their slots as they are. */
  lemma KeepsCalls(s: Sender, e: SendEvent)
    requires WellShaped(s) && HistoryOk(s) && Enabled(s, e) && !e.Begin?
    ensures var s' := SendStep(s, e).0; s'.begun == s.begun && |s'.calls| == |s.calls| && Extends(s, s')
  {
    if e.Ask? {
      AskHistory(s, e.c, e.id);
    } else {
      SendStepIsLocal(s, e);
      LocalHistory(s, SendStep(s, e).0, e.c);
      hide SendStep;
    }
    hide IdPool.IsNextID, Extends;
  }

  lemma EventFirsts(s: Sys, ev: Event)
    requires MarksOk(s.snd) && Possible(s, ev) && SenderOk(s.snd) && SenderOk(Happen(s, ev).snd)
    ensures MarksOk(Happen(s, ev).snd)
  {
    var snd := s.snd;
    hide MarksOk, IdPool.IsNextID, Enabled, SendStep, OnAnswer, SlotsOk, RequestsOk, Answers, Delivered, AfterRequest;
    match ev
    case ArriveAtReceiver(p) =>
    case Act(e) =>
      if e.Begin? {
        BeginFirsts(snd, e.message);
      } else {
        KeepsCalls(snd, e);
        SameCallsFirsts(snd, SendStep(snd, e).0);
      }
    case ArriveAtSender(p) =>
      AnswerKeepsCalls(snd, p);
      SameCallsFirsts(snd, OnAnswer(snd, p));
  }

  lemma NoAnswer(s: Sender, p: Packet)
    requires WellShaped(s) && (p.Reply? ==> p.id !in s.requests) && (p.Received? ==> p.slot !in s.slWait)
    ensures OnAnswer(s, p) == s
  {
  }

  lemma AnswerKeepsCalls(s: Sender, p: Packet)
    requires WellShaped(s) && HistoryOk(s)
    ensures var s' := OnAnswer(s, p); s'.begun == s.begun && |s'.calls| == |s.calls| && Extends(s, s')
  {
    hide OnReply, OnReceived, HistoryOk;
    if p.Reply? && p.id in s.requests {
      ReplyIsLocal(s, p.id, p.status);
      LocalHistory(s, OnReply(s, p.id, p.status), s.requests[p.id]);
    } else if p.Received? && p.slot in s.slWait {
      ReceivedIsLocal(s, p.slot);
      LocalHistory(s, OnReceived(s, p.slot), s.slWait[p.slot]);
    } else {
      assert OnAnswer(s, p) == s by { NoAnswer(s, p); }
    }
  }

  /* ---- main results ---- */

  /** Whatever the network loses, duplicates or reorders: all that the receiver ever hands to `inbound`
      for a slot's first transfer is the message sent, also when late duplicates restart a completed
      receiver; and the sender never meets an order ID it does not have. */
  lemma FirstTransferIsIntact(run: seq<Sys>, c: nat)
    requires IsRun(run) && |run[|run| - 1].snd.askers| < U32_SIZE
    requires var calls := run[|run| - 1].snd.calls; c < |calls| && NoOther(calls, |calls|, c, calls[c].slot)
    ensures var s := run[|run| - 1]; var call := s.snd.calls[c];
            && (forall d :: d in s.log && d.slot == call.slot ==> d.message == call.message)
            && (call.pc.Writing? ==> !call.pc.after.ToError?)
  {
    RunInv(run);
    RunFirsts(run);
    assert OnlyTransfer(run[|run| - 1], c);
  }

  /** `SendMsg` returns nil only if the receiver has already delivered that very message, for the
      first transfer of each slot, with any number of other transfers interleaved. */
  lemma AcknowledgementIsSound(run: seq<Sys>, c: nat)
    requires IsRun(run) && |run[|run| - 1].snd.askers| < U32_SIZE
    requires c < |run[|run| - 1].snd.calls|
    requires var calls := run[|run| - 1].snd.calls;
             NoOther(calls, c, c, calls[c].slot) && calls[c].pc == Returned(true)
    ensures var s := run[|run| - 1];
            Delivery(s.snd.calls[c].slot, s.snd.calls[c].message) in s.log
  {
    RunInv(run);
    RunFirsts(run);
  }

  /** Calls in progress hold pairwise distinct slots below 10. */
  lemma SlotsAreExclusive(run: seq<Sys>, c: nat, c': nat)
    requires IsRun(run) && |run[|run| - 1].snd.askers| < U32_SIZE
    requires c < c' < |run[|run| - 1].snd.calls|
    requires run[|run| - 1].snd.calls[c].Active() && run[|run| - 1].snd.calls[c'].Active()
    ensures run[|run| - 1].snd.calls[c].slot != run[|run| - 1].snd.calls[c'].slot
    ensures run[|run| - 1].snd.calls[c].slot < SLOTS && run[|run| - 1].snd.calls[c'].slot < SLOTS
  {
    RunInv(run);
  }

  /** The slot an event is about. */
  ghost function SlotOf(s: Sys, ev: Event): nat
    requires WellShaped(s.snd) && Possible(s, ev)
  {
    match ev
    case Act(Begin(_)) => FreeSlot(s.snd.sl)
    case Act(e) => s.snd.calls[e.c].slot
    case ArriveAtReceiver(p) => p.slot
    case ArriveAtSender(p) => p.slot
  }

  lemma ActIsIsolated(s: Sender, e: SendEvent, j: nat)
    requires SenderOk(s) && Enabled(s, e) && |s.askers| + 1 < U32_SIZE
    requires j < SLOTS && j != if e.Begin? then FreeSlot(s.sl) else s.calls[e.c].slot
    requires WellShaped(SendStep(s, e).0)
    ensures SameSlot(s, SendStep(s, e).0, j)
  {
    if e.Begin? {
      BeginIsIsolated(s, e.message, j);
    } else if e.Ask? {
      NextRequestID(s, e.id);
      AskIsIsolated(s, e.c, e.id, j);
    } else {
      SendStepIsLocal(s, e);
      SendStepDropsOwn(s, e);
      LocalIsIsolated(s, SendStep(s, e).0, e.c, j);
    }
  }

  /** Segments, replies and acknowledgements for one slot, and the steps of its calls, leave the
      receiving and the sending state of every other slot alone. */
  lemma SlotsAreIsolated(run: seq<Sys>, ev: Event, j: nat)
    requires IsRun(run)
    requires var s := run[|run| - 1];
             |s.snd.askers| + 1 < U32_SIZE && WellShaped(s.snd) && Possible(s, ev) && j < SLOTS && j != SlotOf(s, ev)
    ensures var s := run[|run| - 1]; var s' := Happen(s, ev);
            && s'.rl[j] == s.rl[j]
            && WellShaped(s'.snd) && SameSlot(s.snd, s'.snd, j)
            && forall d :: d in s'.log && d.slot == j ==> d in s.log
  {
    RunInv(run);
    var s := run[|run| - 1];
    match ev
    case Act(e) =>
      SendStepKeeps(s.snd, e);
      ActIsIsolated(s.snd, e, j);
    case ArriveAtReceiver(p) =>
      ArrivalIsQuiet(s, p, j);
    case ArriveAtSender(p) =>
      AnswerKeeps(s.snd, p);
      AnswerIsIsolated(s.snd, p, j);
  }
}
