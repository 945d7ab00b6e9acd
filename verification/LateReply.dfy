/** A reply to a request that was given up, over whole runs: when it makes the sender's handler stick, and
    what never happens after that. */
module LateReply {
  import opened Bytes
  import opened Sending
  import opened Rounds
  import opened Status
  import opened Endpoint
  import opened SenderInvariant
  import opened SendPath
  import opened FifoNetwork
  import opened FifoOrder
  import opened FifoAck
  import opened FifoStuck
  import opened FifoRuns
  import IdPool

  /* ---- what calls begun since miss ---- */

  /** A call with more segments than one pass writes, none of whose queries has been answered. */
  ghost predicate InFirstPass(call: Call) {
    && call.Count() > SEND_WINDOW && call.sent <= SEND_WINDOW
    && match call.pc
       case Begun => call.sent == 0
       case Writing(ids, after) => after.ToQuery? && ids == Range(call.sent, SEND_WINDOW)
       case Waiting => false
       case _ => call.pc != Returned(true)
  }

  /** A call begun since news has been held up. */
  ghost predicate Unheard(call: Call, n: nat, slot: Option<nat>) {
    && AsksLate(call, n)
    && (call.Count() > SEND_WINDOW ==> InFirstPass(call))
    && (slot == Some(call.slot as nat) ==> !Knows(call))
  }

  lemma LongPass(count: nat)
    requires count > SEND_WINDOW
    ensures FullRound(count, SEND_WINDOW) == Round(Range(0, SEND_WINDOW), ToQuery)
  {
  }

  lemma FirstPassMoves(call: Call, call': Call, c: nat, out: seq<Entry>, out': seq<Entry>)
    requires InFirstPass(call) && CallMoves(call, call', c, out, out')
    requires Unanswered(call) ==> Unanswered(call')
    requires call'.pc.Writing? ==> call.pc.Begun? || call.pc.Writing?
    ensures InFirstPass(call')
  {
    LongPass(call.Count());
    hide FullRound, SegmentCount, StatusOf, PassAfter, Slot, Wire;
  }

  /** A call stays unheard. */
  lemma UnheardStays(s: Sys, s': Sys, c: nat, n: nat, slot: Option<nat>)
    requires Inv(s) && Shaped(s) && Shaped(s') && Next(s, s') && |s'.snd.askers| < U32_SIZE
    requires (slot.Some? ==> slot.value < SLOTS) && HeldUp(s, n, slot) && n <= |s.snd.askers|
    requires c < |s.snd.calls| && Unheard(s.snd.calls[c], n, slot)
    ensures c < |s'.snd.calls| && Unheard(s'.snd.calls[c], n, slot)
  {
    HeldBringsNoNews(s, s', c, n, slot);
    var k := s.snd.calls[c].slot;
    StepIsSlotStep(s, s', k);
    hide Inv, HeldUp, Next, CallMoves, InFirstPass;
    OneCallStep(s.snd.calls, s'.snd.calls, s.out[k], s'.out[k], k, c);
    var call, call' := s.snd.calls[c], s'.snd.calls[c];
    if CallMoves(call, call', c, s.out[k], s'.out[k]) && InFirstPass(call) {
      FirstPassMoves(call, call', c, s.out[k], s'.out[k]);
    } else if Rests(call, call') && InFirstPass(call) {
      RestsInPass(call, call');
    }
    MovesKeepMessage(call, call', c, s.out[k], s'.out[k]);
  }

  lemma RestsInPass(call: Call, call': Call)
    requires InFirstPass(call) && Rests(call, call')
    ensures InFirstPass(call')
  {
  }

  lemma MovesKeepMessage(call: Call, call': Call, c: nat, out: seq<Entry>, out': seq<Entry>)
    requires CallMoves(call, call', c, out, out') || Rests(call, call')
    ensures call'.message == call.message
  {
    hide PcMoves;
  }

  /** What a step of its slot does to a call. */
  lemma OneCallStep(calls: seq<Call>, calls': seq<Call>, out: seq<Entry>, out': seq<Entry>, k: nat, c: nat)
    requires SlotStep(calls, calls', out, out', k) && c < |calls| && calls[c].slot == k
    ensures c < |calls'|
    ensures CallMoves(calls[c], calls'[c], c, out, out') || Rests(calls[c], calls'[c])
  {
    hide CallMoves;
    if BeginsAt(calls, calls', k) {
      assert calls'[..|calls|][c] == calls[c];
    }
  }

  lemma OneBegins(calls: seq<Call>, calls': seq<Call>, out: seq<Entry>, out': seq<Entry>, k: nat, c: nat)
    requires SlotStep(calls, calls', out, out', k) && |calls| <= c < |calls'|
    ensures var call := calls'[c]; call.pc.Begun? && call.sent == 0 && !call.acked
  {
    hide CallMoves;
  }

  /** A call that begins. */
  lemma NewIsUnheard(s: Sys, s': Sys, n: nat, slot: Option<nat>)
    requires Inv(s) && Shaped(s) && Shaped(s') && Next(s, s')
    ensures forall c :: |s.snd.calls| <= c < |s'.snd.calls| ==> Unheard(s'.snd.calls[c], n, slot)
  {
    StepIsSlotStep(s, s', 0);
    hide Inv, Next, SlotStep, SegmentCount, Wire;
    forall c | |s.snd.calls| <= c < |s'.snd.calls| ensures Unheard(s'.snd.calls[c], n, slot) {
      OneBegins(s.snd.calls, s'.snd.calls, s.out[0], s'.out[0], 0, c);
    }
  }

  ghost predicate AllUnheard(s: Sys, from: nat, n: nat, slot: Option<nat>) {
    n <= |s.snd.askers| && forall c :: from <= c < |s.snd.calls| ==> Unheard(s.snd.calls[c], n, slot)
  }

  lemma AllStayUnheard(s: Sys, s': Sys, from: nat, n: nat, slot: Option<nat>)
    requires Inv(s) && Shaped(s) && Shaped(s') && Next(s, s') && |s'.snd.askers| < U32_SIZE
    requires (slot.Some? ==> slot.value < SLOTS) && HeldUp(s, n, slot) && AllUnheard(s, from, n, slot)
    ensures AllUnheard(s', from, n, slot)
  {
    StepIsFinal(s, s');
    NewIsUnheard(s, s', n, slot);
    hide Inv, Next, HeldUp, Unheard;
    forall c | from <= c < |s'.snd.calls| ensures Unheard(s'.snd.calls[c], n, slot) {
      if c < |s.snd.calls| { UnheardStays(s, s', c, n, slot); }
    }
  }

  lemma WasClean(s: Sys, s': Sys, slot: Option<nat>)
    requires Next(s, s') && (slot.Some? ==> Clean(s'.snd.calls, slot.value))
    ensures slot.Some? ==> Clean(s.snd.calls, slot.value)
  {
    hide Next, Clean;
    if slot.Some? { CleanWas(s, s', slot.value); }
  }

  /** While news is held up, none gets to the calls begun since. */
  lemma {:induction false} RunHeld(run: seq<Sys>, m: nat, n: nat, slot: Option<nat>)
    requires IsRun(run) && m < |run| && |Last(run).snd.askers| < U32_SIZE
    requires slot.Some? ==> slot.value < SLOTS && Clean(Last(run).snd.calls, slot.value)
    requires Shaped(run[m]) && HeldUp(run[m], n, slot) && n <= |run[m].snd.askers|
    ensures Shaped(Last(run)) && HeldUp(Last(run), n, slot)
    ensures AllUnheard(Last(run), |run[m].snd.calls|, n, slot)
  {
    RunInv(run);
    InvFacts(Last(run));
    hide Next, Inv, HeldUp, AllUnheard, Clean, Shaped;
    if m + 1 < |run| {
      var before := run[..|run| - 1];
      var s, s' := Last(before), Last(run);
      assert Next(s, s') && before[m] == run[m];
      StepIsFinal(s, s');
      WasClean(s, s', slot);
      RunHeld(before, m, n, slot);
      RunInv(before);
      if slot.Some? { RunIsOrdered(before, slot.value); }
      hide OrderInv;
      HeldIsKept(s, s', n, slot);
      AllStayUnheard(s, s', |run[m].snd.calls|, n, slot);
    } else {
      NoneBegun(Last(run), n, slot);
    }
  }

  lemma NoneBegun(s: Sys, n: nat, slot: Option<nat>)
    requires n <= |s.snd.askers|
    ensures AllUnheard(s, |s.snd.calls|, n, slot)
  {
  }

  /** A call that asks while news is held up stays unanswered. */
  lemma {:induction false} RunUnanswered(run: seq<Sys>, m: nat, n: nat, c: nat)
    requires IsRun(run) && m < |run| && |Last(run).snd.askers| < U32_SIZE
    requires Shaped(run[m]) && HeldUp(run[m], n, None) && n <= |run[m].snd.askers|
    requires c < |run[m].snd.calls| && Unanswered(run[m].snd.calls[c]) && AsksLate(run[m].snd.calls[c], n)
    ensures c < |Last(run).snd.calls| && Unanswered(Last(run).snd.calls[c]) && AsksLate(Last(run).snd.calls[c], n)
    ensures n <= |Last(run).snd.askers|
  {
    hide Next, Inv, HeldUp, Shaped, Unanswered, AsksLate;
    if m + 1 < |run| {
      var before := run[..|run| - 1];
      var s, s' := Last(before), Last(run);
      assert Next(s, s') && before[m] == run[m];
      StepIsFinal(s, s');
      RunUnanswered(before, m, n, c);
      RunHeld(before, m, n, None);
      RunInv(before);
      HeldBringsNoNews(s, s', c, n, None);
    }
  }

  /* ---- when the handler sticks ---- */

  ghost predicate IsArrival(s: Sys, s': Sys) {
    Shaped(s) && exists ev: Event :: !ev.Act? && Possible(s, ev) && s' == Happen(s, ev)
  }

  /** What is under way arrives, and nothing else happens. */
  ghost predicate OnlyArrivals(run: seq<Sys>, run': seq<Sys>) {
    && Continues(run, run')
    && forall i :: |run| <= i < |run'| ==> IsArrival(run'[i - 1], run'[i])
  }

  ghost predicate ArrivalsStick(run: seq<Sys>) {
    exists run' :: OnlyArrivals(run, run') && Last(run').snd.stuck
  }

  lemma ArrivalIsNext(s: Sys, s': Sys)
    requires IsArrival(s, s')
    ensures Next(s, s') && s'.snd.askers == s.snd.askers
  {
    var ev: Event :| !ev.Act? && Possible(s, ev) && s' == Happen(s, ev);
    if ev.ArriveAtReceiver? { ReceiverShape(s); } else { SenderShape(s); }
    hide AfterRequest, Delivered, Answers, PassAfter;
  }

  /** Arrivals give up nothing. */
  lemma ArrivalKeepsOpen(s: Sys, s': Sys)
    requires IsArrival(s, s') && Shaped(s') && Open(s)
    ensures Open(s')
  {
    var ev: Event :| !ev.Act? && Possible(s, ev) && s' == Happen(s, ev);
    hide Happen, NoneJams;
    match ev
    case Act(_) =>
    case ArriveAtReceiver => OpenReceives(s);
    case ArriveAtSender => OpenTakes(s);
  }

  lemma LastIsArrival(run: seq<Sys>, run': seq<Sys>) returns (before: seq<Sys>)
    requires OnlyArrivals(run, run') && |run| < |run'|
    ensures before == run'[..|run'| - 1] && OnlyArrivals(run, before) && IsArrival(Last(before), Last(run'))
  {
    before := run'[..|run'| - 1];
    assert before[..|run|] == run;
    assert forall i :: 0 <= i < |before| ==> before[i] == run'[i];
    assert IsArrival(Last(before), Last(run'));
    ArrivalIsNext(Last(before), Last(run'));
    hide IsArrival, Next;
  }

  lemma {:induction false} ArrivalsKeepOpen(run: seq<Sys>, run': seq<Sys>)
    requires run != [] && OnlyArrivals(run, run') && Open(Last(run))
    ensures Open(Last(run'))
    decreases |run'|
  {
    if |run| < |run'| {
      var before := LastIsArrival(run, run');
      RunInv(run');
      hide IsArrival, Inv, Open, OnlyArrivals, IsRun;
      ArrivalsKeepOpen(run, before);
      InvFacts(Last(run'));
      ArrivalKeepsOpen(Last(before), Last(run'));
    } else {
      assert run == run';
    }
  }

  lemma ExtendArrivals(run: seq<Sys>, ev: Event) returns (run': seq<Sys>)
    requires IsRun(run) && Shaped(Last(run)) && |Last(run).snd.askers| < U32_SIZE
    requires !ev.Act? && Possible(Last(run), ev) && IsArrival(Last(run), Happen(Last(run), ev))
    ensures OnlyArrivals(run, run') && Last(run') == Happen(Last(run), ev) && |run'| == |run| + 1
  {
    ArrivalIsNext(Last(run), Happen(Last(run), ev));
    hide Happen, Possible, IsArrival;
    run' := Extend(run, ev);
    run' := run + [Happen(Last(run), ev)];
    assert forall i :: 0 <= i < |run| ==> run'[i] == run[i];
  }

  lemma ArrivalsJoin(run: seq<Sys>, run1: seq<Sys>, run2: seq<Sys>)
    requires OnlyArrivals(run, run1) && OnlyArrivals(run1, run2)
    ensures OnlyArrivals(run, run2)
  {
    hide IsArrival, IsRun;
    assert forall i :: 0 <= i < |run1| ==> run2[i] == run1[i];
  }

  /** What holds news up sticks when everything arrives. */
  lemma HeldSticks(run: seq<Sys>) returns (run': seq<Sys>)
    requires IsRun(run) && |Last(run).snd.askers| < U32_SIZE && Shaped(Last(run))
    requires HeldUp(Last(run), |Last(run).snd.askers|, None)
    ensures OnlyArrivals(run, run') && Last(run').snd.stuck
    decreases 2 * |Last(run).toR| + |Last(run).toS|
  {
    var s := Last(run);
    if s.snd.stuck {
      return run;
    }
    HeldIsThere(s);
    RunInv(run);
    var ev := if s.toR != [] then ArriveAtReceiver else ArriveAtSender;
    var s' := Happen(s, ev);
    assert IsArrival(s, s');
    ArrivalIsNext(s, s');
    var run1 := ExtendArrivals(run, ev);
    RunInv(run1);
    InvFacts(s');
    HeldIsKept(s, s', |s.snd.askers|, None);
    ArrivalShrinks(s, ev);
    hide IsRun, HeldUp, Happen, IsArrival, Inv, Shaped, OnlyArrivals;
    run' := HeldSticks(run1);
    ArrivalsJoin(run, run1, run');
  }

  lemma HeldIsThere(s: Sys)
    requires Shaped(s) && HeldUp(s, |s.snd.askers|, None) && !s.snd.stuck
    ensures s.toR != [] || s.toS != []
  {
  }

  lemma ArrivalShrinks(s: Sys, ev: Event)
    requires Shaped(s) && !ev.Act? && Possible(s, ev)
    ensures var s' := Happen(s, ev); 2 * |s'.toR| + |s'.toS| < 2 * |s.toR| + |s.toS|
  {
    if ev.ArriveAtReceiver? {
      ReceiverShape(s);
      AnswerFor(s.rl, s.toR[0], 0);
    } else {
      SenderShape(s);
    }
    hide Happen, Answers, AfterRequest, Delivered, OnAnswer;
  }

  lemma NotOpenIsHeld(run: seq<Sys>)
    requires IsRun(run) && |Last(run).snd.askers| < U32_SIZE && !Open(Last(run))
    ensures Shaped(Last(run)) && HeldUp(Last(run), |Last(run).snd.askers|, None)
  {
    RunInv(run);
    InvFacts(Last(run));
    JamHolds(Last(run));
  }

  /** In every reachable state: when all that is under way arrives, the handler sticks if and only if it
      has already, or a query or a reply of a request that was given up is under way. */
  lemma SticksIff(run: seq<Sys>)
    requires IsRun(run) && |Last(run).snd.askers| < U32_SIZE
    ensures ArrivalsStick(run) <==> !Open(Last(run))
  {
    if Open(Last(run)) {
      forall run' | OnlyArrivals(run, run') ensures !Last(run').snd.stuck {
        ArrivalsKeepOpen(run, run');
      }
    } else {
      NotOpenIsHeld(run);
      hide Open, HeldUp, Shaped;
      var run' := HeldSticks(run);
    }
  }

  /** Some continuation answers the query that call c is about to make. */
  ghost predicate CanBeAnswered(run: seq<Sys>, c: nat) {
    exists run' :: Continues(run, run') && c < |Last(run').snd.calls| && !Unanswered(Last(run').snd.calls[c])
  }

  /** In every reachable state with a call at QUERY: the query can be answered if and only if the handler
      is not stuck and nothing under way will make it stick. */
  lemma QueriesAreAnsweredIff(run: seq<Sys>, c: nat)
    requires IsRun(run) && |Last(run).snd.askers| + 1 < U32_SIZE
    requires c < |Last(run).snd.calls| && Last(run).snd.calls[c].pc == Asking
    ensures CanBeAnswered(run, c) <==> Open(Last(run))
  {
    var s := Last(run);
    if Open(s) {
      var run' := AskAndTake(run, c);
      hide IsRun, Open, StatusOf, PassAfter, SegmentCount, Slot;
    } else {
      NotOpenIsHeld(run);
      hide Open, HeldUp, Shaped, Unanswered;
      assert Unanswered(s.snd.calls[c]);
      forall run' | Continues(run, run') && c < |Last(run').snd.calls| ensures Unanswered(Last(run').snd.calls[c]) {
        assert run'[|run| - 1] == s;
        RunUnanswered(run', |run| - 1, |s.snd.askers|, c);
      }
    }
  }

  /** From then on, no message that takes more than one pass is acknowledged or found completed, and of
      those messages no more than one pass is ever written. */
  lemma LongMessagesFail(run: seq<Sys>, run': seq<Sys>, c: nat)
    requires IsRun(run) && |Last(run).snd.askers| < U32_SIZE && !Open(Last(run)) && Continues(run, run')
    requires |Last(run).snd.calls| <= c < |Last(run').snd.calls| && Last(run').snd.calls[c].Count() > SEND_WINDOW
    ensures var call := Last(run').snd.calls[c]; call.pc != Returned(true) && call.sent <= SEND_WINDOW
  {
    NotOpenIsHeld(run);
    hide Open, HeldUp, Shaped;
    assert run'[|run| - 1] == Last(run);
    RunHeld(run', |run| - 1, |Last(run).snd.askers|, None);
    assert Unheard(Last(run').snd.calls[c], |Last(run).snd.askers|, None);
    hide IsRun, AllUnheard;
  }

  /* ---- after that ---- */

  /** Nothing comes in: no acknowledgement, no reply, and what is under way stays under way. */
  ghost predicate NothingComesIn(s: Sys, s': Sys) {
    && s'.snd.stuck && s.toS <= s'.toS && |s.snd.calls| <= |s'.snd.calls| && s'.snd.askers == s.snd.askers
    && (forall c :: 0 <= c < |s.snd.calls| ==>
          && s'.snd.calls[c].acked == s.snd.calls[c].acked
          && (Unanswered(s.snd.calls[c]) ==> Unanswered(s'.snd.calls[c])))
    && (forall c :: |s.snd.calls| <= c < |s'.snd.calls| ==> !Knows(s'.snd.calls[c]))
  }

  lemma StuckActs(s: Sys, e: SendEvent)
    requires Shaped(s) && s.snd.stuck && Possible(s, Act(e))
    ensures NothingComesIn(s, Happen(s, Act(e)))
  {
    var s' := Happen(s, Act(e));
    ActShape(s, e);
    ActStuck(s.snd, e);
    assert s'.snd.askers == s.snd.askers;
    if e.Begin? {
      FifoAck.BeginSlots(s.snd, e.message, 0);
      assert !s'.snd.calls[|s.snd.calls|].acked && s'.snd.calls[|s.snd.calls|].pc.Begun?;
    } else {
      ActCall(s.snd, e);
      ActLeavesOthers(s.snd, e);
      AskingGoes(s.snd, e);
    }
    hide Happen, SendStep;
  }

  lemma StuckStays(s: Sys, s': Sys)
    requires Next(s, s') && s.snd.stuck
    ensures NothingComesIn(s, s')
  {
    var ev :| Possible(s, ev) && s' == Happen(s, ev);
    match ev
    case Act(e) => StuckActs(s, e);
    case ArriveAtReceiver => ReceiverShape(s);
    case ArriveAtSender =>
  }

  lemma NothingAgain(a: Sys, b: Sys, c': Sys)
    requires NothingComesIn(a, b) && NothingComesIn(b, c')
    requires forall c :: 0 <= c < |b.snd.calls| && !Knows(b.snd.calls[c]) ==> !Knows(c'.snd.calls[c])
    ensures NothingComesIn(a, c')
  {
  }

  /** A call that knows nothing learns nothing. */
  lemma StuckTellsNothing(s: Sys, s': Sys, c: nat)
    requires Inv(s) && Shaped(s) && Next(s, s') && |s'.snd.askers| < U32_SIZE && s.snd.stuck && c < |s.snd.calls|
    requires !Knows(s.snd.calls[c])
    ensures c < |s'.snd.calls| && !Knows(s'.snd.calls[c])
  {
    var k := s.snd.calls[c].slot;
    InvFacts(s);
    HeldBringsNoNews(s, s', c, 0, Some(k as nat));
    hide Inv, Next;
  }

  /** Once the handler is stuck nothing ever comes in again: it stays stuck, no call is acknowledged, no
      query is answered, and a call that begins then never returns nil. */
  lemma {:induction false} StuckForGood(run: seq<Sys>, run': seq<Sys>)
    requires IsRun(run) && Continues(run, run') && Last(run).snd.stuck
    ensures NothingComesIn(Last(run), Last(run'))
  {
    hide Next, Inv, NothingComesIn;
    if |run| < |run'| {
      var before := run'[..|run'| - 1];
      var s, s' := Last(before), Last(run');
      assert Next(s, s') && before[..|run|] == run;
      StepIsFinal(s, s');
      StuckForGood(run, before);
      RunInv(before);
      InvFacts(s);
      assert s.snd.stuck by { StuckIs(Last(run), s); }
      StuckStays(s, s');
      forall c | 0 <= c < |s.snd.calls| && !Knows(s.snd.calls[c]) ensures !Knows(s'.snd.calls[c]) {
        StuckTellsNothing(s, s', c);
      }
      NothingAgain(Last(run), s, s');
    } else {
      assert run == run';
      NothingYet(Last(run));
    }
  }

  lemma StuckIs(s: Sys, s': Sys)
    requires NothingComesIn(s, s')
    ensures s'.snd.stuck
  {
  }

  lemma NothingYet(s: Sys)
    requires s.snd.stuck
    ensures NothingComesIn(s, s)
  {
  }

  /* ---- how it comes to that ---- */

  /** A pending ID is waited for, or its call has returned an error. */
  ghost predicate OwnersOk(snd: Sender)
    requires WellShaped(snd)
  {
    forall id :: id in snd.requests ==>
      snd.calls[snd.requests[id]].pc == Querying(id) || snd.calls[snd.requests[id]].pc == Returned(false)
  }

  lemma QueryingGoes(s: Sender, e: SendEvent)
    requires WellShaped(s) && Enabled(s, e) && !e.Begin? && s.calls[e.c].pc.Querying?
    ensures var s' := SendStep(s, e).0;
            |s'.calls| == |s.calls| && (s'.calls[e.c].pc == s.calls[e.c].pc || s'.calls[e.c].pc == Returned(false))
  {
  }

  lemma MoreOwners(s: Sender, e: SendEvent)
    requires WellShaped(s) && Enabled(s, e) && OwnersOk(s) && WellShaped(SendStep(s, e).0) && (e.Begin? || e.Ask?)
    ensures OwnersOk(SendStep(s, e).0)
  {
    hide IdPool.IsNextID;
  }

  lemma ActOwners(s: Sender, e: SendEvent)
    requires WellShaped(s) && Enabled(s, e) && OwnersOk(s) && WellShaped(SendStep(s, e).0)
    ensures OwnersOk(SendStep(s, e).0)
  {
    if e.Begin? || e.Ask? {
      MoreOwners(s, e);
    } else {
      SendStepIsLocal(s, e);
      ActLeavesOthers(s, e);
      if s.calls[e.c].pc.Querying? { QueryingGoes(s, e); }
      hide SendStep, Enabled;
    }
  }

  lemma AnswerOwners(s: Sender, p: Packet)
    requires WellShaped(s) && OwnersOk(s) && WellShaped(OnAnswer(s, p))
    ensures OwnersOk(OnAnswer(s, p))
  {
    hide PassAfter;
  }

  lemma {:induction false} RunOwners(run: seq<Sys>)
    requires IsRun(run) && |Last(run).snd.askers| < U32_SIZE
    ensures Shaped(Last(run)) && OwnersOk(Last(run).snd)
  {
    RunInv(run);
    InvFacts(Last(run));
    hide Inv, OwnersOk;
    if |run| > 1 {
      var before := run[..|run| - 1];
      var s, s' := Last(before), Last(run);
      assert Next(s, s');
      StepIsFinal(s, s');
      RunOwners(before);
      RunInv(before);
      InvFacts(s);
      var ev :| Possible(s, ev) && s' == Happen(s, ev);
      hide SenderOk;
      match ev
      case Act(e) => ActOwners(s.snd, e);
      case ArriveAtReceiver => ReceiverShape(s);
      case ArriveAtSender => AnswerOwners(s.snd, s.toS[0]);
    } else {
      NoOwners();
    }
  }

  lemma NoOwners()
    ensures Shaped(INIT) && OwnersOk(INIT.snd)
  {
  }

  /** A reply arrives for a request whose call has returned an error and left it pending. */
  ghost predicate IsLateReply(s: Sys, s': Sys) {
    && Shaped(s) && s.toS != [] && s' == Happen(s, ArriveAtSender) && !s.snd.stuck && s'.snd.stuck
    && var p := s.toS[0];
       p.Reply? && p.id in s.snd.requests && s.snd.calls[s.snd.requests[p.id]].pc == Returned(false)
  }

  lemma SticksOnLateReply(s: Sys, s': Sys)
    requires Next(s, s') && OwnersOk(s.snd) && !s.snd.stuck && s'.snd.stuck
    ensures IsLateReply(s, s')
  {
    var ev :| Possible(s, ev) && s' == Happen(s, ev);
    match ev
    case Act(e) => ActStuck(s.snd, e);
    case ArriveAtReceiver => ReceiverShape(s);
    case ArriveAtSender => AnswerGivesUp(s.snd, s.toS[0]);
  }

  ghost predicate HasCause(run: seq<Sys>) { exists i :: 0 < i < |run| && IsLateReply(run[i - 1], run[i]) }

  lemma CauseStays(before: seq<Sys>, run: seq<Sys>)
    requires before <= run && HasCause(before)
    ensures HasCause(run)
  {
    hide IsLateReply;
    var i :| 0 < i < |before| && IsLateReply(before[i - 1], before[i]);
    assert run[i - 1] == before[i - 1] && run[i] == before[i];
  }

  lemma LastIsCause(run: seq<Sys>, s: Sys, s': Sys)
    requires |run| > 1 && run[|run| - 2] == s && Last(run) == s' && IsLateReply(s, s')
    ensures HasCause(run)
  {
    hide IsLateReply;
  }

  /** Nothing else sticks: in every run in which the handler is stuck there is the step at which a late
      reply came. */
  lemma {:induction false} StuckHasCause(run: seq<Sys>)
    requires IsRun(run) && |Last(run).snd.askers| < U32_SIZE && Last(run).snd.stuck
    ensures HasCause(run)
  {
    var before := run[..|run| - 1];
    assert before != [];
    var s, s' := Last(before), Last(run);
    assert Next(s, s');
    StepIsFinal(s, s');
    hide Next, IsLateReply, HasCause, OwnersOk, ReturnedIsFinal;
    if s.snd.stuck {
      StuckHasCause(before);
      CauseStays(before, run);
    } else {
      RunOwners(before);
      SticksOnLateReply(s, s');
      LastIsCause(run, s, s');
    }
  }

  /** A run: the wait of a call times out, it queries, a repetition of the query cannot be written, and the
      call returns an error, with its query under way. */
  lemma QueryIsGivenUp(m: bytes) returns (run: seq<Sys>)
    requires IsShort(m)
    ensures IsRun(run) && Shaped(Last(run)) && |Last(run).snd.askers| == 1 && !Open(Last(run))
    ensures var s := Last(run);
            && s.snd.calls == [Call(m, 0, true, 1, Returned(false), false)] && s.snd.sl[0].None?
            && s.snd.requests == map[1 := 0] && |s.toR| == 2 && s.toR[1] == Query(0, 1)
  {
    run := ShortCallAsks(m);
    var s := Last(run);
    hide IsShort, PacketOf, IsRun;
    QueryMove(s.snd, 0);
    ActShape(s, WriteQuery(0));
    run := Extend(run, Act(WriteQuery(0)));
    var s1 := Last(run);
    assert s1.toR[1] == Query(0, 1) && s1.snd == s.snd;
    FailMove(s1.snd, 0, false);
    ActShape(s1, Fail(0, false));
    run := ExtendAct(run, Fail(0, false));
    assert Jams(Last(run).snd, Last(run).toR[1]);
    hide Happen, AfterMove, SendStep;
  }

  /** Then all that is under way arrives, and the handler sticks. */
  lemma LateReplySticks(m: bytes) returns (run: seq<Sys>)
    requires IsShort(m)
    ensures IsRun(run) && Last(run).snd.stuck
    ensures Last(run).snd.calls != [] && Last(run).snd.calls[0].message == m
    ensures Last(run).snd.calls[0].pc == Returned(false)
  {
    var failed := QueryIsGivenUp(m);
    hide IsShort, IsRun, Open;
    SticksIff(failed);
    run :| OnlyArrivals(failed, run) && Last(run).snd.stuck;
    RunIsFinal(failed, run);
  }
}
