/** Runs on the network that only delays, built step by step: what can happen next. */
module FifoRuns {
  import opened Bytes
  import opened Segments
  import opened Sending
  import opened Rounds
  import opened Status
  import opened Endpoint
  import opened SenderInvariant
  import opened SendPath
  import opened FifoNetwork
  import opened FifoStuck
  import IdPool

  /** run' is a run that continues run, with fewer than 2^32 queries. */
  ghost predicate Continues(run: seq<Sys>, run': seq<Sys>) {
    run != [] && run <= run' && IsRun(run') && |Last(run').snd.askers| < U32_SIZE
  }

  lemma Extend(run: seq<Sys>, ev: Event) returns (run': seq<Sys>)
    requires IsRun(run) && Shaped(Last(run)) && Possible(Last(run), ev)
    requires |Happen(Last(run), ev).snd.askers| < U32_SIZE
    ensures Continues(run, run') && Last(run') == Happen(Last(run), ev)
  {
    run' := run + [Happen(Last(run), ev)];
    hide Happen, Possible;
    assert forall i :: 0 <= i < |run| ==> run'[i] == run[i];
  }

  /** A step that asks nothing. */
  lemma ExtendAct(run: seq<Sys>, e: SendEvent) returns (run': seq<Sys>)
    requires IsRun(run) && Shaped(Last(run)) && |Last(run).snd.askers| < U32_SIZE && CanMove(Last(run).snd, Do(e))
    requires !e.Ask? && !e.WriteNext? && !e.WriteQuery?
    requires AfterMove(Last(run).snd, Do(e)).0.askers == Last(run).snd.askers
    ensures Continues(run, run') && Last(run') == Last(run).(snd := AfterMove(Last(run).snd, Do(e)).0)
  {
    ActShape(Last(run), e);
    run' := Extend(run, Act(e));
    hide Happen, SendStep, Enabled;
  }

  /** What slot k sees of steps that leave it alone. */
  ghost predicate OnlyOthersBegin(s: Sys, s': Sys, k: nat) {
    && s' == s.(snd := s'.snd) && s.snd.calls <= s'.snd.calls && s'.snd.askers == s.snd.askers
    && s'.snd.requests == s.snd.requests && s'.snd.stuck == s.snd.stuck
    && |s.snd.sl| == |s'.snd.sl| == SLOTS
    && (k < SLOTS ==> s'.snd.sl[k] == s.snd.sl[k])
    && forall c :: |s.snd.calls| <= c < |s'.snd.calls| ==> s'.snd.calls[c].slot != k
  }

  /** Other calls take the free slots below k, so that k is the next to be taken. */
  lemma FillLower(run: seq<Sys>, k: nat) returns (run': seq<Sys>)
    requires IsRun(run) && Shaped(Last(run)) && |Last(run).snd.askers| < U32_SIZE
    requires k < SLOTS && Last(run).snd.sl[k].None?
    ensures Continues(run, run') && Shaped(Last(run')) && OnlyOthersBegin(Last(run), Last(run'), k)
    ensures FreeSlot(Last(run').snd.sl) == k
    decreases k - FreeSlot(Last(run).snd.sl)
  {
    var s := Last(run);
    if FreeSlot(s.snd.sl) == k {
      return run;
    }
    var m: bytes := [0];
    BeginMove(s.snd, m);
    var run1 := ExtendAct(run, Begin(m));
    hide IsRun, AfterMove;
    run' := FillLower(run1, k);
  }

  /** New calls give up nothing. */
  lemma MoreCallsGiveUpNothing(snd: Sender, snd': Sender)
    requires WellShaped(snd) && WellShaped(snd') && snd.calls <= snd'.calls && snd'.requests == snd.requests
    ensures SameGivenUp(snd, snd')
  {
  }

  lemma SameOpen(s: Sys, s': Sys)
    requires Shaped(s) && Shaped(s') && SameGivenUp(s.snd, s'.snd)
    requires s'.toS == s.toS && s'.toR == s.toR && s'.snd.stuck == s.snd.stuck
    ensures Open(s) ==> Open(s')
  {
    SameJams(s.snd, s'.snd, s.toS);
    SameJams(s.snd, s'.snd, s.toR);
  }

  lemma {:induction false} RunIsFinal(run: seq<Sys>, run': seq<Sys>)
    requires run != [] && run <= run' && IsRun(run')
    ensures ReturnedIsFinal(Last(run).snd, Last(run').snd)
  {
    hide Next, ReturnedIsFinal;
    if |run| < |run'| {
      var before := run'[..|run'| - 1];
      assert Next(Last(before), Last(run'));
      StepIsFinal(Last(before), Last(run'));
      RunIsFinal(run, before);
      FinalTransits(Last(run).snd, Last(before).snd, Last(run').snd);
    } else {
      assert run == run';
      FinalReflects(Last(run).snd);
    }
  }

  lemma FinalReflects(s: Sender)
    ensures ReturnedIsFinal(s, s)
  {
  }

  lemma FinalTransits(a: Sender, b: Sender, c: Sender)
    requires ReturnedIsFinal(a, b) && ReturnedIsFinal(b, c)
    ensures ReturnedIsFinal(a, c)
  {
  }

  /** A call takes the next free slot and registers. */
  lemma BeginCall(run: seq<Sys>, m: bytes) returns (run': seq<Sys>)
    requires IsRun(run) && Shaped(Last(run)) && |Last(run).snd.askers| < U32_SIZE
    requires Sendable(m) && FreeSlot(Last(run).snd.sl) < SLOTS
    ensures Continues(run, run')
    ensures var s, s' := Last(run), Last(run'); var c, k := |s.snd.calls|, FreeSlot(s.snd.sl);
            var first := FullRound(SegmentCount(Wire(m)), SEND_WINDOW);
            && Shaped(s') && s' == s.(snd := s'.snd) && s'.snd.askers == s.snd.askers
            && s'.snd.requests == s.snd.requests && s'.snd.stuck == s.snd.stuck
            && s'.snd.calls
               == s.snd.calls + [Call(m, k, s.snd.begun[k] == 0, 0, Writing(first.ids, first.after), false)]
            && k in s'.snd.slWait && s'.snd.slWait[k] == c && s'.snd.sl == s.snd.sl[k := Some(c)]
            && (Open(s) ==> Open(s'))
  {
    var s, c := Last(run), |Last(run).snd.calls|;
    BeginMove(s.snd, m);
    var run1 := ExtendAct(run, Begin(m));
    var s1 := Last(run1);
    hide IsRun, SegmentCount, AfterMove, FullRound;
    RegisterMove(s1.snd, c);
    run' := ExtendAct(run1, Register(c));
    MoreCallsGiveUpNothing(s.snd, Last(run').snd);
    hide SameGivenUp;
    SameOpen(s, Last(run'));
  }

  /** Call c writes one segment. */
  lemma WriteOneMore(run: seq<Sys>, c: nat) returns (run': seq<Sys>)
    requires IsRun(run) && Shaped(Last(run)) && |Last(run).snd.askers| < U32_SIZE && c < |Last(run).snd.calls|
    requires CanWrite(Last(run).snd.calls[c].pc)
    ensures Continues(run, run')
    ensures var s, s' := Last(run), Last(run'); var call := s.snd.calls[c];
            var k, e := call.slot, Entry(c, call.message, call.pc.ids[0]);
            && Shaped(s') && s'.rl == s.rl && s'.toS == s.toS && s'.log == s.log && s'.eaten == s.eaten
            && s'.snd == s.snd.(calls := s.snd.calls[c := call.(pc := Writing(call.pc.ids[1..], call.pc.after),
                                                                sent := call.sent + 1)])
            && k < SLOTS && s'.toR == s.toR + [PacketOf(e, k)] && s'.out == s.out[k := s.out[k] + [e]]
            && (Open(s) ==> Open(s'))
  {
    var s := Last(run);
    WriteMove(s.snd, c);
    ActShape(s, WriteNext(c));
    run' := Extend(run, Act(WriteNext(c)));
    if Open(s) { OpenActs(s, WriteNext(c)); }
    hide IsRun, AfterMove, SendStep, Happen, Open;
  }

  /** Call c ends its pass. */
  lemma EndsPass(run: seq<Sys>, c: nat) returns (run': seq<Sys>)
    requires IsRun(run) && Shaped(Last(run)) && |Last(run).snd.askers| < U32_SIZE && c < |Last(run).snd.calls|
    requires var pc := Last(run).snd.calls[c].pc; pc.Writing? && pc.ids == [] && !pc.after.ToError?
    ensures Continues(run, run')
    ensures var s, s' := Last(run), Last(run'); var after := s.snd.calls[c].pc.after;
            && Shaped(s') && s' == s.(snd := s'.snd) && (Open(s) ==> Open(s'))
            && var pc := if after.ToQuery? then Asking else Waiting;
               s'.snd == s.snd.(calls := s.snd.calls[c := s.snd.calls[c].(pc := pc)])
  {
    EndPassMove(Last(run).snd, c);
    run' := ExtendAct(run, EndPass(c));
    if Open(Last(run)) {
      ActShape(Last(run), EndPass(c));
      OpenActs(Last(run), EndPass(c));
    }
    hide Open, Happen, SendStep;
  }

  /** Let everything under way to the receiver arrive. */
  lemma ReceiveAll(run: seq<Sys>) returns (run': seq<Sys>)
    requires IsRun(run) && |Last(run).snd.askers| < U32_SIZE && Shaped(Last(run))
    ensures Continues(run, run') && Shaped(Last(run')) && Last(run').toR == []
    ensures Last(run').snd == Last(run).snd && Last(run').out == Last(run).out && Last(run).toS <= Last(run').toS
    decreases |Last(run).toR|
  {
    if Last(run).toR == [] {
      return run;
    }
    ReceiverShape(Last(run));
    var run1 := Extend(run, ArriveAtReceiver);
    hide IsRun, Happen, AfterRequest, Delivered, Answers;
    run' := ReceiveAll(run1);
  }

  /** Then all that was written on a slot has been taken in. */
  lemma AllReceived(s: Sys, k: nat)
    requires Inv(s) && Shaped(s) && s.toR == [] && k < SLOTS
    ensures LogOf(s.log, k) == Slot(s.out[k]).1
  {
    assert ArrivedOk(s, k);
    hide Inv, Slot, LogOf;
    assert s.out[k][..s.eaten[k]] == s.out[k];
  }

  /** A query is on its way, or its reply. */
  ghost predicate QueryUnderWay(s: Sys, k: u16, id: u32) {
    || (exists a :: 0 <= a < |s.toR| && s.toR[a] == Query(k, id))
    || ReplyUnderWay(s.toS, id)
  }

  ghost predicate ReplyUnderWay(q: seq<Packet>, id: u32) {
    exists a :: 0 <= a < |q| && q[a].Reply? && q[a].id == id
  }

  lemma ArrivalAnswers(s: Sys, s': Sys, k: u16, id: u32)
    requires Shaped(s) && s.toR != [] && s' == Happen(s, ArriveAtReceiver) && QueryUnderWay(s, k, id) && k < SLOTS
    ensures QueryUnderWay(s', k, id)
  {
    ReceiverShape(s);
    var p := s.toR[0];
    hide Happen, AfterRequest, Delivered, StatusOf;
    if a :| 0 <= a < |s.toS| && s.toS[a].Reply? && s.toS[a].id == id {
      assert s'.toS[a] == s.toS[a];
    } else {
      var a :| 0 <= a < |s.toR| && s.toR[a] == Query(k, id);
      if a == 0 {
        assert s'.toS[|s.toS|] == Answers(s.rl, p)[0];
      } else {
        assert s'.toR[a - 1] == s.toR[a];
      }
    }
  }

  lemma ReceiveQuery(run: seq<Sys>, k: u16, id: u32) returns (run': seq<Sys>)
    requires IsRun(run) && |Last(run).snd.askers| < U32_SIZE && Shaped(Last(run)) && k < SLOTS
    requires QueryUnderWay(Last(run), k, id)
    ensures Continues(run, run') && Shaped(Last(run')) && ReplyUnderWay(Last(run').toS, id)
    ensures Last(run').snd == Last(run).snd && Last(run').out == Last(run).out
    ensures Open(Last(run)) ==> Open(Last(run'))
    decreases |Last(run).toR|
  {
    if Last(run).toR == [] {
      return run;
    }
    ReceiverShape(Last(run));
    if Open(Last(run)) { OpenReceives(Last(run)); }
    var run1 := Extend(run, ArriveAtReceiver);
    ArrivalAnswers(Last(run), Last(run1), k, id);
    hide IsRun, Happen, AfterRequest, Delivered, Answers, QueryUnderWay, NoneJams;
    run' := ReceiveQuery(run1, k, id);
  }

  /** Calls keep their slots and messages, and call c is where it was but for an acknowledgement. */
  ghost predicate OthersAnswered(s: Sys, s': Sys, c: nat) {
    && s'.out == s.out && c < |s.snd.calls| == |s'.snd.calls| && s'.snd.askers == s.snd.askers
    && (forall x :: 0 <= x < |s.snd.calls| ==> SameCall(s.snd.calls[x], s'.snd.calls[x]))
  }

  /** An answer that is not the one call c waits for. */
  lemma OtherAnswer(snd: Sender, p: Packet, c: nat, id: u32)
    requires WellShaped(snd) && c < |snd.calls| && snd.calls[c].pc == Querying(id)
    requires id in snd.requests && snd.requests[id] == c
    requires !(p.Reply? && p.id == id)
    ensures var snd' := OnAnswer(snd, p);
            && |snd'.calls| == |snd.calls| && snd'.askers == snd.askers && Rests(snd.calls[c], snd'.calls[c])
            && (forall x :: 0 <= x < |snd.calls| ==> SameCall(snd.calls[x], snd'.calls[x]))
            && id in snd'.requests && snd'.requests[id] == c
  {
    hide PassAfter;
  }

  /** Call c goes where a reply with all that was written on its slot sends it. */
  ghost predicate IsAnswered(s: Sys, s': Sys, c: nat)
    requires Shaped(s) && Shaped(s')
  {
    && c < |s.snd.calls| && c < |s'.snd.calls| && s'.snd.calls[c].sent == s.snd.calls[c].sent
    && var call := s.snd.calls[c]; var status := StatusOf(Slot(s.out[call.slot]).0, SEND_WINDOW);
       var pass := PassAfter(status, call.Count());
       s'.snd.calls[c].pc == if status.Completed? then Returned(true) else Writing(pass.ids, pass.after)
  }

  lemma LiveTake(s: Sys, s': Sys, c: nat, id: u32)
    requires Inv(s) && Shaped(s) && Shaped(s') && s.toS != [] && s' == Happen(s, ArriveAtSender) && c < |s.snd.calls|
    requires s.toS[0].Reply? && s.toS[0].id == id
    requires s.snd.calls[c].pc == Querying(id) && id in s.snd.requests && s.snd.requests[id] == c
    ensures OthersAnswered(s, s', c) && IsAnswered(s, s', c)
  {
    var c', k := LiveReply(s);
    hide Happen, Inv, PassAfter, StatusOf, Slot, SegmentCount;
  }

  /** Let answers arrive until the reply has reached call c: nothing under way sticks. */
  lemma TakeReply(run: seq<Sys>, c: nat, id: u32) returns (run': seq<Sys>)
    requires IsRun(run) && |Last(run).snd.askers| < U32_SIZE && Shaped(Last(run)) && c < |Last(run).snd.calls|
    requires var snd := Last(run).snd; snd.calls[c].pc == Querying(id) && id in snd.requests && snd.requests[id] == c
    requires ReplyUnderWay(Last(run).toS, id) && Open(Last(run))
    ensures Continues(run, run') && Open(Last(run')) && OthersAnswered(Last(run), Last(run'), c)
    ensures IsAnswered(Last(run), Last(run'), c)
    decreases |Last(run).toS|
  {
    var s := Last(run);
    RunInv(run);
    SenderShape(s);
    run' := Extend(run, ArriveAtSender);
    RunInv(run');
    var s' := Last(run');
    assert Shaped(s');
    OpenTakes(s);
    hide IsRun, Happen, Inv, NoneJams;
    if s.toS[0].Reply? && s.toS[0].id == id {
      LiveTake(s, s', c, id);
    } else {
      OtherAnswer(s.snd, s.toS[0], c, id);
      RepliesMoveUp(s.toS, id);
      hide OnAnswer, ReplyUnderWay, IsAnswered, OthersAnswered;
      run' := TakeReply(run', c, id);
      AnsweredLater(s, s', Last(run'), c);
    }
  }

  lemma AnsweredLater(s: Sys, s1: Sys, s': Sys, c: nat)
    requires Shaped(s) && Shaped(s1) && Shaped(s') && s1.out == s.out && c < |s.snd.calls| == |s1.snd.calls|
    requires s1.snd.askers == s.snd.askers && Rests(s.snd.calls[c], s1.snd.calls[c])
    requires forall x :: 0 <= x < |s.snd.calls| ==> SameCall(s.snd.calls[x], s1.snd.calls[x])
    requires OthersAnswered(s1, s', c) && IsAnswered(s1, s', c)
    ensures OthersAnswered(s, s', c) && IsAnswered(s, s', c)
  {
    hide PassAfter, StatusOf, Slot, SegmentCount;
  }

  lemma RepliesMoveUp(q: seq<Packet>, id: u32)
    requires q != [] && ReplyUnderWay(q, id) && !(q[0].Reply? && q[0].id == id)
    ensures ReplyUnderWay(q[1..], id)
  {
    var a :| 0 <= a < |q| && q[a].Reply? && q[a].id == id;
    assert q[1..][a - 1] == q[a];
  }

  /** There is a next request ID. */
  lemma FreshID(snd: Sender) returns (id: u32)
    requires SenderOk(snd) && |snd.askers| + 1 < U32_SIZE
    ensures id == |snd.askers| + 1 && IdPool.IsNextID(snd.requestID, 1, snd.requests.Keys, id)
  {
    id := |snd.askers| + 1;
    assert IdPool.IsFreeAt(snd.requestID, 1, snd.requests.Keys, id, 1);
  }

  /** Call c asks and is answered: with what is in the slot when everything has arrived. */
  lemma AskAndTake(run: seq<Sys>, c: nat) returns (run': seq<Sys>)
    requires IsRun(run) && |Last(run).snd.askers| + 1 < U32_SIZE && Shaped(Last(run)) && c < |Last(run).snd.calls|
    requires Last(run).snd.calls[c].pc == Asking && Open(Last(run))
    ensures Continues(run, run') && Open(Last(run')) && IsAnswered(Last(run), Last(run'), c)
    ensures |Last(run').snd.askers| == |Last(run).snd.askers| + 1 && Last(run').out == Last(run).out
    ensures |Last(run').snd.calls| == |Last(run).snd.calls|
    ensures forall x :: 0 <= x < |Last(run).snd.calls| ==> SameCall(Last(run).snd.calls[x], Last(run').snd.calls[x])
  {
    var run2, id := AskNow(run, c);
    hide IsRun, StatusOf, Slot, PassAfter, SegmentCount, ReplyUnderWay, QueryUnderWay, NoneJams;
    var run3 := ReceiveQuery(run2, Last(run).snd.calls[c].slot, id);
    run' := TakeReply(run3, c, id);
  }

  lemma AskNow(run: seq<Sys>, c: nat) returns (run': seq<Sys>, id: u32)
    requires IsRun(run) && |Last(run).snd.askers| + 1 < U32_SIZE && Shaped(Last(run)) && c < |Last(run).snd.calls|
    requires Last(run).snd.calls[c].pc == Asking && Open(Last(run))
    ensures Continues(run, run') && Open(Last(run')) && Last(run').out == Last(run).out
    ensures var snd, snd' := Last(run).snd, Last(run').snd;
            && snd'.calls == snd.calls[c := snd.calls[c].(pc := Querying(id))]
            && id in snd'.requests && snd'.requests[id] == c && |snd'.askers| == |snd.askers| + 1
            && snd.calls[c].slot < SLOTS && QueryUnderWay(Last(run'), snd.calls[c].slot, id)
  {
    var s := Last(run);
    RunInv(run);
    assert SenderOk(s.snd);
    id := FreshID(s.snd);
    AskMove(s.snd, c, id);
    ActShape(s, Ask(c, id));
    var run1 := Extend(run, Act(Ask(c, id)));
    var s1 := Last(run1);
    OpenActs(s, Ask(c, id));
    RunInv(run1);
    assert SenderOk(s1.snd);
    hide IsRun, Happen, Inv, SenderOk, SendStep, IdPool.IsNextID, Open;
    QueryMove(s1.snd, c);
    ActShape(s1, WriteQuery(c));
    run' := Extend(run1, Act(WriteQuery(c)));
    assert Open(Last(run')) by { OpenActs(s1, WriteQuery(c)); }
    hide AfterMove;
    assert Last(run').toR[|s1.toR|] == Query(s.snd.calls[c].slot, id);
  }

  /* ---- short messages ---- */

  /** The messages that take one segment. */
  predicate IsShort(message: bytes) { 1 <= |message| <= BODY_MAX_SIZE - 4 }

  lemma ShortIsOneSegment(message: bytes)
    requires IsShort(message)
    ensures Sendable(message) && SegmentCount(Wire(message)) == 1
    ensures FullRound(SegmentCount(Wire(message)), 64) == Round([0], ToWait)
  {
    assert Range(0, 1) == [0];
  }

  /** A call with a short message takes the next free slot and registers. */
  lemma BeginShort(run: seq<Sys>, m: bytes) returns (run': seq<Sys>)
    requires IsRun(run) && Shaped(Last(run)) && |Last(run).snd.askers| < U32_SIZE
    requires IsShort(m) && FreeSlot(Last(run).snd.sl) < SLOTS
    ensures Continues(run, run')
    ensures var s, s' := Last(run), Last(run'); var c, k := |s.snd.calls|, FreeSlot(s.snd.sl);
            && Shaped(s') && s' == s.(snd := s'.snd) && s'.snd.askers == s.snd.askers
            && s'.snd.requests == s.snd.requests && s'.snd.stuck == s.snd.stuck
            && s'.snd.calls == s.snd.calls + [Call(m, k, s.snd.begun[k] == 0, 0, Writing([0], ToWait), false)]
            && k in s'.snd.slWait && s'.snd.slWait[k] == c && s'.snd.sl == s.snd.sl[k := Some(c)]
  {
    ShortIsOneSegment(m);
    run' := BeginCall(run, m);
  }

  /** Call c writes its one segment and waits. */
  lemma WriteShort(run: seq<Sys>, c: nat) returns (run': seq<Sys>)
    requires IsRun(run) && Shaped(Last(run)) && |Last(run).snd.askers| < U32_SIZE && c < |Last(run).snd.calls|
    requires Last(run).snd.calls[c].pc == Writing([0], ToWait)
    ensures Continues(run, run')
    ensures var s, s' := Last(run), Last(run'); var call := s.snd.calls[c];
            var k, e := call.slot, Entry(c, call.message, 0);
            && Shaped(s') && s'.rl == s.rl && s'.toS == s.toS && s'.log == s.log && s'.eaten == s.eaten
            && s'.snd == s.snd.(calls := s.snd.calls[c := call.(pc := Waiting, sent := call.sent + 1)])
            && k < SLOTS && s'.toR == s.toR + [PacketOf(e, k)] && s'.out == s.out[k := s.out[k] + [e]]
  {
    assert [0][1..] == [];
    var run1 := WriteOneMore(run, c);
    hide IsRun;
    run' := EndsPass(run1, c);
  }

  /** A run: a call writes its one segment, its wait times out, and it draws a request ID. */
  lemma ShortCallAsks(m: bytes) returns (run: seq<Sys>)
    requires IsShort(m)
    ensures IsRun(run) && Shaped(Last(run)) && |Last(run).snd.askers| == 1
    ensures var s, e := Last(run), Entry(0, m, 0);
            && s.snd.calls == [Call(m, 0, true, 1, Querying(1), false)] && s.snd.requests == map[1 := 0]
            && s.toR == [PacketOf(e, 0)] && s.toS == [] && !s.snd.stuck && s.out[0] == [e] && s.eaten[0] == 0
  {
    run := [INIT];
    InitSlots();
    ShortIsOneSegment(m);
    hide IsShort, PacketOf;
    assert FreeSlot(INIT.snd.sl) == 0;
    run := BeginShort(run, m);
    hide IsRun, FreeSlot;
    assert Last(run).snd.calls == [Call(m, 0, true, 0, Writing([0], ToWait), false)];
    run := WriteShort(run, 0);
    var waits := Call(m, 0, true, 1, Waiting, false);
    assert Last(run).snd.calls == [waits];
    TimeoutMove(Last(run).snd, 0);
    run := ExtendAct(run, WaitTimeout(0));
    assert Last(run).snd.calls == [waits.(pc := Asking)];
    run := DrawsFirstID(run);
    assert Last(run).snd.calls == [waits.(pc := Querying(1))];
  }

  lemma DrawsFirstID(run: seq<Sys>) returns (run': seq<Sys>)
    requires IsRun(run) && Shaped(Last(run)) && !Last(run).snd.stuck && Last(run).snd.askers == []
    requires |Last(run).snd.calls| == 1 && Last(run).snd.calls[0].pc == Asking
    requires Last(run).snd.requests == map[]
    ensures IsRun(run') && Shaped(Last(run')) && |Last(run').snd.askers| == 1
    ensures var s, s' := Last(run), Last(run');
            && s'.snd.calls == [s.snd.calls[0].(pc := Querying(1))] && s'.snd.requests == map[1 := 0]
            && s'.toR == s.toR && s'.toS == s.toS && !s'.snd.stuck && s'.out == s.out && s'.eaten == s.eaten
  {
    var s := Last(run);
    RunInv(run);
    assert SenderOk(s.snd);
    var id := FreshID(s.snd);
    AskMove(s.snd, 0, 1);
    ActShape(s, Ask(0, 1));
    run' := Extend(run, Act(Ask(0, 1)));
    hide IsRun, Happen, SendStep, IdPool.IsNextID, Inv, SenderOk;
  }
}
