/** That messages do arrive: for every message there is a run in which it is delivered and `SendMsg`
    returns nil, on either network. */
module Success {
  import opened Bytes
  import opened Sending
  import opened Rounds
  import opened Status
  import opened Endpoint
  import opened SenderInvariant
  import opened SendPath
  import opened FifoNetwork
  import opened FifoOrder
  import opened FifoAck
  import opened FifoStuck
  import opened FifoRuns
  import opened StaleAck
  import L = LossyNetwork
  import IdPool

  /* ---- all segments are written ---- */

  /** The one call, on slot 0, sends m. */
  ghost predicate Sends(s: Sys, m: bytes) {
    && Open(s) && |s.snd.calls| == 1 && |s.snd.askers| <= s.snd.calls[0].sent
    && var call := s.snd.calls[0];
       call.message == m && call.slot == 0 && call.first && call.Active()
  }

  /** In a pass, which is cut short only if there is more to come. */
  ghost predicate InPass(call: Call) {
    && call.pc.Writing? && !call.pc.after.ToError?
    && (call.pc.after.ToQuery? ==> call.sent + |call.pc.ids| < call.Count())
  }

  lemma CountIsSmall(m: bytes)
    requires Sendable(m)
    ensures 1 <= SegmentCount(Wire(m)) < U16_SIZE
  {
    SendableIsWire(m);
    CountIsExact(Wire(m));
  }

  /** What the invariants say of it: it writes in order, and knows nothing before all has arrived. */
  lemma SendsFacts(run: seq<Sys>, m: bytes)
    requires Sendable(m) && IsRun(run) && Sends(Last(run), m) && Last(run).snd.calls[0].sent < U16_SIZE
    ensures var s := Last(run); var call := s.snd.calls[0];
            && |s.snd.askers| < U32_SIZE && InOrder(s.snd.calls, s.out[0], 0) && SendsInOrder(call)
            && s.eaten[0] <= |s.out[0]| && s.snd.sl[0] == Some(0)
            && (call.sent < call.Count() || s.eaten[0] < |s.out[0]| ==> !call.acked)
            && (call.pc.Writing? && call.pc.ids != [] ==> CanWrite(call.pc) && call.sent < call.Count())
            && (!call.acked && !call.pc.Begun? ==> 0 in s.snd.slWait && s.snd.slWait[0] == 0)
  {
    var s := Last(run);
    CountIsSmall(m);
    InitAcks(0);
    hide AckInv, IsRun, Open, SegmentCount, Wire;
    assert Clean(s.snd.calls, 0) && NoneGaveUp(s.snd.calls, 0, 0);
    RunAcks(run, 0, 0, 0);
    AckFacts(s);
  }

  lemma AckFacts(s: Sys)
    requires OrderInv(s, 0) && Shaped(s) && AckInv(s, 0, 0) && |s.snd.calls| == 1 && s.snd.calls[0].Active()
    requires s.snd.calls[0].slot == 0
    ensures var call := s.snd.calls[0];
            && InOrder(s.snd.calls, s.out[0], 0) && SendsInOrder(call)
            && s.eaten[0] <= |s.out[0]| && s.snd.sl[0] == Some(0)
            && (call.sent < call.Count() || s.eaten[0] < |s.out[0]| ==> !call.acked)
            && (call.pc.Writing? && call.pc.ids != [] ==> CanWrite(call.pc) && call.sent < call.Count())
            && (!call.acked && !call.pc.Begun? ==> 0 in s.snd.slWait && s.snd.slWait[0] == 0)
  {
    OrderFacts(s, 0);
    hide OrderInv, AckedTold, Chain, MessagesIn, FullySent, AcksOk, DoneRepliesOk, SegmentCount, Wire, Slot, LogOf;
    HolderFacts(s);
    hide RequestsOk, HistoryOk, ActiveIsLatest, Tip, Since, IsOf, SenderOk, SlotsOk, Registered, Owned;
    var call := s.snd.calls[0];
    assert SendsInOrder(call);
    SendableIsWire(call.message);
    CountIsExact(Wire(call.message));
    AckedIsTold(s);
  }

  lemma HolderFacts(s: Sys)
    requires Shaped(s) && SlotsOk(s.snd) && Registered(s.snd, 0)
    requires |s.snd.calls| == 1 && s.snd.calls[0].Active() && s.snd.calls[0].slot == 0
    ensures s.snd.sl[0] == Some(0)
    ensures !s.snd.calls[0].acked && !s.snd.calls[0].pc.Begun? ==> 0 in s.snd.slWait && s.snd.slWait[0] == 0
  {
  }

  lemma AckedIsTold(s: Sys)
    requires Shaped(s) && AckedTold(s, 0, 0) && |s.snd.calls| == 1 && s.snd.calls[0].slot == 0
    requires Owned(s.snd.calls, s.out[0], 0)
    ensures s.snd.calls[0].acked ==> s.snd.calls[0].sent == s.snd.calls[0].Count() && |s.out[0]| <= s.eaten[0]
  {
    hide SegmentCount, Wire, LogOf, FullySent;
    if s.eaten[0] < |s.out[0]| { assert IsOf(s.snd.calls, s.out[0][s.eaten[0]], 0); }
    if s.snd.calls[0].acked { assert Told(s, 0, 0); }
  }

  /** Write the rest of a pass. The last segment written has not arrived. */
  lemma WritePassOut(run: seq<Sys>, m: bytes) returns (run': seq<Sys>)
    requires Sendable(m) && IsRun(run) && Sends(Last(run), m) && InPass(Last(run).snd.calls[0])
    requires Last(run).snd.calls[0].pc.ids != [] && Last(run).snd.calls[0].sent < U16_SIZE
    ensures IsRun(run') && Sends(Last(run'), m)
    ensures var s, s' := Last(run), Last(run');
            && s'.snd.calls[0].pc == Writing([], s.snd.calls[0].pc.after)
            && s'.snd.calls[0].sent == s.snd.calls[0].sent + |s.snd.calls[0].pc.ids| < U16_SIZE
            && s'.snd.askers == s.snd.askers && s'.eaten[0] < |s'.out[0]|
    decreases |Last(run).snd.calls[0].pc.ids|
  {
    var s := Last(run);
    CountIsSmall(m);
    SendsFacts(run, m);
    hide IsRun, SegmentCount, Wire, Open, InOrder, SendsInOrder;
    run' := WriteOneMore(run, 0);
    if s.snd.calls[0].pc.ids[1..] != [] {
      run' := WritePassOut(run', m);
    }
  }

  /** The first pass, or the one after a reply, from which everything is then written. */
  lemma WriteAll(run: seq<Sys>, m: bytes) returns (run': seq<Sys>)
    requires Sendable(m) && IsRun(run) && Sends(Last(run), m) && InPass(Last(run).snd.calls[0])
    requires Last(run).snd.calls[0].pc.ids != [] && Last(run).snd.calls[0].sent < U16_SIZE
    ensures IsRun(run') && Sends(Last(run'), m)
    ensures var s := Last(run'); var call := s.snd.calls[0];
            call.pc == Waiting && call.sent == call.Count() && s.eaten[0] < |s.out[0]|
    decreases U16_SIZE - Last(run).snd.calls[0].sent
  {
    var run1 := WritePassOut(run, m);
    SendsFacts(run1, m);
    CountIsSmall(m);
    hide IsRun, SegmentCount, Wire, Open, InOrder;
    var run2 := EndsPass(run1, 0);
    if Last(run1).snd.calls[0].pc.after.ToWait? {
      run' := run2;
    } else {
      var run3 := NextPassBegins(run2, m);
      run' := WriteAll(run3, m);
    }
  }

  /** A call that has written a part queries, and goes on with the next pass. */
  lemma NextPassBegins(run: seq<Sys>, m: bytes) returns (run': seq<Sys>)
    requires Sendable(m) && IsRun(run) && Sends(Last(run), m) && Last(run).snd.calls[0].pc == Asking
    requires var call := Last(run).snd.calls[0]; |Last(run).snd.askers| < call.sent < call.Count()
    ensures IsRun(run') && Sends(Last(run'), m) && InPass(Last(run').snd.calls[0])
    ensures Last(run').snd.calls[0].pc.ids != [] && Last(run').snd.calls[0].sent == Last(run).snd.calls[0].sent
  {
    var s, call := Last(run), Last(run).snd.calls[0];
    SendsFacts(run, m);
    StatusIsExpected(s.snd.calls, s.out[0], 0, 0);
    RestIsPass(call);
    hide IsRun, SegmentCount, Wire, InOrder, SendsInOrder, Slot, StatusOf, PassAfter, NoneJams;
    run' := AskAndTake(run, 0);
    CountIsSmall(m);
  }

  lemma RestIsPass(call: Call)
    requires SendsInOrder(call) && 1 <= call.sent < call.Count()
    ensures !Expected(call).Completed?
    ensures var pass := PassAfter(Expected(call), call.Count());
            && pass.ids != [] && !pass.after.ToError?
            && (pass.after.ToQuery? ==> call.sent + |pass.ids| < call.Count())
  {
    CountIsSmall(call.message);
    hide SegmentCount, Wire;
    RestRound(call.sent, call.Count());
    hide ResendRound, ToU16;
    CutHasMore(call.sent, call.Count());
  }

  lemma CutHasMore(lo: nat, n: nat)
    requires lo < n
    ensures var pass := Cut(Range(lo, n), SEND_WINDOW);
            pass.ids != [] && !pass.after.ToError? && (pass.after.ToQuery? ==> lo + |pass.ids| < n)
  {
  }

  /** From the start: a call has written all of m, and its last segment is under way. */
  lemma AllWritten(m: bytes) returns (run: seq<Sys>)
    requires Sendable(m)
    ensures IsRun(run) && Sends(Last(run), m)
    ensures var s := Last(run); var call := s.snd.calls[0];
            call.pc == Waiting && call.sent == call.Count() && s.eaten[0] < |s.out[0]|
  {
    run := [INIT];
    InitSlots();
    CountIsSmall(m);
    CutHasMore(0, SegmentCount(Wire(m)));
    assert FreeSlot(INIT.snd.sl) == 0 && Open(INIT);
    hide SegmentCount, Wire, Open, FreeSlot, Cut;
    run := BeginCall(run, m);
    hide IsRun;
    run := WriteAll(run, m);
  }

  /* ---- and arrive ---- */

  /** Everything has arrived; the acknowledgement is under way, and no other answer ahead of it jams. */
  ghost predicate AllArrived(s: Sys, m: bytes) {
    && Shaped(s) && !s.snd.stuck && |s.snd.calls| == 1 && s.toR == []
    && 0 in s.snd.slWait && s.snd.slWait[0] == 0
    && HasAck(Passing(s.snd, s.toS), 0) && StatusOf(s.rl[0], SEND_WINDOW) == Completed
    && var call := s.snd.calls[0];
       && call.message == m && call.slot == 0 && call.first && !call.acked && call.pc == Waiting
       && call.sent == call.Count()
  }

  lemma LastIsUnderWay(s: Sys)
    requires OrderInv(s, 0) && Open(s) && |s.snd.calls| == 1 && s.snd.calls[0].slot == 0
    requires s.snd.calls[0].sent == s.snd.calls[0].Count() && s.eaten[0] < |s.out[0]|
    ensures GetsThrough(s, 0)
  {
    OrderFacts(s, 0);
    AllPass(s.snd, s.toS);
    AllPass(s.snd, s.toR);
    var j := |s.out[0]| - 1;
    assert IsOf(s.snd.calls, s.out[0][j], 0);
    assert IsFinal(s.out[0][j]);
    hide OrderInv, Chain, MessagesIn, FullySent, Slot, LogOf, Passing, NoneJams, HasAck, IsFinal, TransOf;
    assert FinalPasses(s, 0);
  }

  /** From the start: a message of any size has been written and has arrived. */
  lemma ArrivesWhole(m: bytes) returns (run: seq<Sys>)
    requires Sendable(m)
    ensures IsRun(run) && AllArrived(Last(run), m) && |Last(run).snd.askers| < U16_SIZE
  {
    run := AllWritten(m);
    CountIsSmall(m);
    var s := Last(run);
    SendsFacts(run, m);
    OneIsClean(s.snd.calls, 0);
    hide IsRun, SegmentCount, Wire, Open, Clean, GetsThrough, InOrder, SendsInOrder, OrderInv;
    RunIsOrdered(run, 0);
    LastIsUnderWay(s);
    run := DrainReceiver(run, 0);
    RunInv(run);
    DrainedIsWhole(Last(run), s, m);
  }

  lemma OneIsClean(calls: seq<Call>, k: nat)
    requires |calls| == 1 && calls[0].pc != Returned(false)
    ensures Clean(calls, k)
  {
  }

  lemma DrainedIsWhole(s: Sys, s0: Sys, m: bytes)
    requires Inv(s) && Shaped(s) && s.toR == [] && GetsThrough(s, 0) && s.snd == s0.snd && s.out == s0.out
    requires Sendable(m) && |s.snd.calls| == 1 && InOrder(s.snd.calls, s.out[0], 0)
    requires var call := s.snd.calls[0];
             && call.message == m && call.slot == 0 && call.first && !call.acked && call.pc == Waiting
             && call.sent == call.Count()
    requires 0 in s.snd.slWait && s.snd.slWait[0] == 0
    ensures AllArrived(s, m)
  {
    InvArrived(s, 0);
    DrainedHasAck(s, 0);
    CountIsSmall(m);
    StatusIsExpected(s.snd.calls, s.out[0], 0, 0);
    assert s.out[0][..s.eaten[0]] == s.out[0];
    hide Inv, InOrder, Slot, LogOf, InFlight, StatusOf, SegmentCount, Wire;
  }

  /* ---- the network that only delays ---- */

  /** For every message there is a run in which it is delivered and its call, woken by the acknowledgement,
      returns nil. */
  lemma SucceedsInOrder(m: bytes) returns (run: seq<Sys>)
    requires Sendable(m)
    ensures IsRun(run) && |Last(run).snd.calls| == 1
    ensures var call := Last(run).snd.calls[0];
            && call.message == m && call.slot == 0 && call.acked && call.pc == Returned(true)
            && LogOf(Last(run).log, 0) == [m]
  {
    run := ArrivesWhole(m);
    hide IsRun, Passing, HasAck, StatusOf, SegmentCount, Wire;
    run := DrainSender(run, 0, 0);
    run := SeesAck(run, 0);
    var s := Last(run);
    OneIsClean(s.snd.calls, 0);
    DeliversOnceInOrder(run, 0);
    OneIsSent(s.snd.calls, m);
    RunInv(run);
    NoneLeft(s.toR);
    hide LogOf, FullySent;
  }

  lemma OneIsSent(calls: seq<Call>, m: bytes)
    requires |calls| == 1 && calls[0].message == m && calls[0].slot == 0 && calls[0].sent == calls[0].Count()
    ensures FullySent(calls, 0) == [m]
  {
    assert calls[..0] == [];
  }

  lemma NoneLeft(q: seq<Packet>)
    ensures q == [] ==> TransOf(q, 0) == []
  {
  }

  /* ---- the network that loses, duplicates and reorders ---- */

  /** The same endpoints and deliveries, and all that is under way on the one network is on the other. */
  ghost predicate Covers(s: Sys, l: L.Sys) {
    && l.snd == s.snd && l.rl == s.rl && l.log == s.log
    && (forall p :: p in s.toR ==> p in l.toR) && (forall p :: p in s.toS ==> p in l.toS)
  }

  lemma StepIsCovered(s: Sys, s': Sys, l: L.Sys) returns (l': L.Sys)
    requires Next(s, s') && Covers(s, l)
    ensures L.Next(l, l') && Covers(s', l')
  {
    var ev :| Possible(s, ev) && s' == Happen(s, ev);
    var lev := match ev
               case Act(e) => L.Act(e)
               case ArriveAtReceiver => L.ArriveAtReceiver(s.toR[0])
               case ArriveAtSender => L.ArriveAtSender(s.toS[0]);
    l' := L.Happen(l, lev);
    hide SendStep, AfterRequest, Delivered, Answers, OnAnswer;
  }

  ghost function End(run: seq<L.Sys>): L.Sys
    requires run != []
  {
    run[|run| - 1]
  }

  lemma ExtendLossy(run: seq<L.Sys>, l: L.Sys) returns (run': seq<L.Sys>)
    requires L.IsRun(run) && L.Next(End(run), l)
    ensures L.IsRun(run') && End(run') == l
  {
    hide L.Next;
    run' := run + [l];
    assert forall i :: 0 <= i < |run| ==> run'[i] == run[i];
  }

  /** Every run without losses, duplicates or reordering is one of the network that allows them. */
  lemma {:induction false} RunIsCovered(run: seq<Sys>) returns (lossy: seq<L.Sys>)
    requires IsRun(run)
    ensures L.IsRun(lossy) && Covers(Last(run), End(lossy))
  {
    if |run| == 1 {
      lossy := [L.INIT];
    } else {
      var before := run[..|run| - 1];
      var earlier := RunIsCovered(before);
      assert Next(Last(before), Last(run));
      hide Next, L.Next;
      var l := StepIsCovered(Last(before), Last(run), End(earlier));
      lossy := ExtendLossy(earlier, l);
    }
  }

  /** What arrives is answered: a segment that completes a message with its acknowledgement, a query with
      the status of its slot. */
  lemma ArrivalsAreAnswered(l: L.Sys, p: Packet)
    requires WellShaped(l.snd) && p in l.toR
    ensures var l' := L.Happen(l, L.ArriveAtReceiver(p));
            && (Delivered(l.rl, p).Some? ==> Received(p.slot) in l'.toS)
            && (p.Query? && p.slot < SLOTS ==> Reply(p.slot, p.id, StatusOf(l.rl[p.slot], SEND_WINDOW)) in l'.toS)
            && l.toS <= l'.toS
  {
    var written := L.Written(Answers(l.rl, p));
    if Answers(l.rl, p) != [] { assert Answers(l.rl, p)[0] in written; }
    hide AfterRequest, StatusOf, Delivered;
  }

  /** A call has returned nil, and its message has been delivered. */
  ghost predicate Succeeded(l: L.Sys, m: bytes) {
    && |l.snd.calls| == 1 && l.snd.calls[0].message == m && l.snd.calls[0].pc == Returned(true)
    && Delivery(l.snd.calls[0].slot, m) in l.log
  }

  /** For every message there is a run in which its call is woken by the acknowledgement. */
  lemma SucceedsByAcknowledgement(m: bytes) returns (run: seq<L.Sys>)
    requires Sendable(m)
    ensures L.IsRun(run) && Succeeded(End(run), m) && End(run).snd.calls[0].acked
  {
    var fifo := SucceedsInOrder(m);
    run := RunIsCovered(fifo);
    LogHas(Last(fifo).log, 0, m);
  }

  lemma {:induction false} LogHas(log: seq<Delivery>, k: nat, m: bytes)
    requires m in LogOf(log, k)
    ensures Delivery(k, m) in log
  {
    if log != [] && Last(log) != Delivery(k, m) {
      LogHas(log[..|log| - 1], k, m);
    }
  }

  /** What a step of the sending half leads to on this network. */
  lemma ActOn(run: seq<L.Sys>, e: SendEvent) returns (run': seq<L.Sys>)
    requires L.IsRun(run) && CanMove(End(run).snd, Do(e))
    ensures L.IsRun(run')
    ensures var l, l' := End(run), End(run'); var (snd, written) := AfterMove(l.snd, Do(e));
            l' == l.(snd := snd, toR := l.toR + L.Written(written))
  {
    var l := End(run);
    var l' := L.Happen(l, L.Act(e));
    assert L.Next(l, l');
    hide L.Next, L.IsRun, SendStep, Enabled;
    run' := ExtendLossy(run, l');
  }

  /** The acknowledgement is lost: the wait times out, and the call draws an ID and queries. */
  lemma QueriesInstead(m: bytes) returns (run: seq<L.Sys>, id: u32)
    requires Sendable(m)
    ensures L.IsRun(run) && WellShaped(End(run).snd) && !End(run).snd.stuck
    ensures var l := End(run);
            && |l.snd.calls| == 1 && StatusOf(l.rl[0], SEND_WINDOW) == Completed && Query(0, id) in l.toR
            && id in l.snd.requests && l.snd.requests[id] == 0 && |l.snd.askers| < U32_SIZE
            && var call := l.snd.calls[0];
               call.message == m && call.slot == 0 && call.first && !call.acked && call.pc == Querying(id)
  {
    var fifo := ArrivesWhole(m);
    RunInv(fifo);
    InvFacts(Last(fifo));
    hide IsRun, Inv, Passing, HasAck, StatusOf, SegmentCount, Wire;
    run := RunIsCovered(fifo);
    id := FreshID(End(run).snd);
    hide SenderOk, L.IsRun, IdPool.IsNextID;
    TimeoutMove(End(run).snd, 0);
    run := ActOn(run, WaitTimeout(0));
    AskMove(End(run).snd, 0, id);
    run := ActOn(run, Ask(0, id));
    QueryMove(End(run).snd, 0);
    run := ActOn(run, WriteQuery(0));
    assert [Query(0, id)][0] in L.Written([Query(0, id)]);
  }

  /** For every message there is a run in which its acknowledgement never arrives and the call learns from
      the reply to a query that it has been delivered. */
  lemma SucceedsByReply(m: bytes) returns (run: seq<L.Sys>)
    requires Sendable(m)
    ensures L.IsRun(run) && Succeeded(End(run), m) && !End(run).snd.calls[0].acked
  {
    var id;
    run, id := QueriesInstead(m);
    hide L.IsRun, StatusOf;
    ArrivalsAreAnswered(End(run), Query(0, id));
    var l := L.Happen(End(run), L.ArriveAtReceiver(Query(0, id)));
    assert L.Next(End(run), l);
    run := ExtendLossy(run, l);
    ReplyMove(l.snd, 0, id, Completed);
    var l' := L.Happen(l, L.ArriveAtSender(Reply(0, id, Completed)));
    assert L.Next(l, l');
    hide L.Next;
    run := ExtendLossy(run, l');
    L.AcknowledgementIsSound(run, 0);
  }
}
