/** When the acknowledgement of a reused slot can mislead, exactly: the receiver acknowledges a slot, not
    a message, so whatever is still under way when the next call takes the slot is taken for its own. */
module StaleAck {
  import opened Bytes
  import opened Sending
  import opened Rounds
  import opened Endpoint
  import opened SenderInvariant
  import opened SendPath
  import opened FifoNetwork
  import opened FifoRuns
  import opened FifoOrder
  import opened FifoAck
  import opened FifoStuck
  import opened LateReply

  /** In every continuation in which no call begun since has failed on slot k after writing everything,
      every call begun since that returned nil on slot k has been delivered. */
  ghost predicate NilMeansDelivered(run: seq<Sys>, k: nat)
    requires run != []
  {
    var from := |Last(run).snd.calls|;
    forall run', c ::
      Continues(run, run') && StaysOrderly(Last(run'), k, from) && IsNil(Last(run'), k, c, from) ==>
        IsDelivered(Last(run'), k, c)
  }

  /** No call on slot k has failed in the middle of its message, nor, since, after writing everything. */
  ghost predicate StaysOrderly(s: Sys, k: nat, from: nat) {
    Clean(s.snd.calls, k) && NoneGaveUp(s.snd.calls, k, from)
  }

  /** Call c, begun since, has returned nil on slot k. */
  ghost predicate IsNil(s: Sys, k: nat, c: nat, from: nat) {
    from <= c < |s.snd.calls| && s.snd.calls[c].slot == k && s.snd.calls[c].pc == Returned(true)
  }

  /* ---- nothing under way ---- */

  lemma NothingUnderWay(run: seq<Sys>, k: nat)
    requires IsRun(run) && |Last(run).snd.askers| < U32_SIZE && k < SLOTS && Clean(Last(run).snd.calls, k)
    requires Shaped(Last(run)) && Last(run).snd.sl[k].None? && !StillUnderWay(Last(run), k)
    ensures NilMeansDelivered(run, k)
  {
    var from := |Last(run).snd.calls|;
    RunIsOrdered(run, k);
    FreshStart(Last(run), k);
    forall run', c | Continues(run, run') && StaysOrderly(Last(run'), k, from) && IsNil(Last(run'), k, c, from)
      ensures IsDelivered(Last(run'), k, c)
    {
      hide IsRun, AckInv, OrderInv, Shaped, Clean, NoneGaveUp, StillUnderWay, IsDelivered;
      assert run'[|run| - 1] == Last(run);
      RunAcks(run', |run| - 1, k, from);
      ToldIsDelivered(Last(run'), k, from, c);
    }
  }

  /* ---- something under way ---- */

  lemma SeesAck(run: seq<Sys>, c: nat) returns (run': seq<Sys>)
    requires IsRun(run) && Shaped(Last(run)) && |Last(run).snd.askers| < U32_SIZE && c < |Last(run).snd.calls|
    requires Last(run).snd.calls[c].pc.Waiting? && Last(run).snd.calls[c].acked
    ensures Continues(run, run')
    ensures var s, s' := Last(run), Last(run');
            && s' == s.(snd := s'.snd) && s'.snd.askers == s.snd.askers
            && s'.snd.calls == s.snd.calls[c := s.snd.calls[c].(pc := Returned(true))]
  {
    run' := ExtendAct(run, SeeAck(c));
  }

  /* ---- what gets through ---- */

  /** The part of a queue ahead of the first packet that jams. */
  ghost function Passing(snd: Sender, q: seq<Packet>): seq<Packet>
    requires WellShaped(snd)
  {
    if q == [] || Jams(snd, q[0]) then [] else [q[0]] + Passing(snd, q[1..])
  }

  /** Something that was written whole on slot k is under way, as an acknowledgement or as a segment, and
      gets to the sender: no query or reply of a request that was given up is ahead of it. */
  ghost predicate GetsThrough(s: Sys, k: nat)
    requires Shaped(s) && k < SLOTS
  {
    && !s.snd.stuck
    && (HasAck(Passing(s.snd, s.toS), k) || (Passing(s.snd, s.toS) == s.toS && FinalPasses(s, k)))
  }

  ghost predicate FinalPasses(s: Sys, k: nat)
    requires Shaped(s) && k < SLOTS
  {
    exists j :: s.eaten[k] <= j < |s.out[k]| && IsFinal(s.out[k][j])
                && j < s.eaten[k] + |TransOf(Passing(s.snd, s.toR), k)|
  }

  lemma {:induction false} PassingIsPrefix(snd: Sender, q: seq<Packet>)
    requires WellShaped(snd)
    ensures Passing(snd, q) <= q && NoneJams(snd, Passing(snd, q))
    ensures |Passing(snd, q)| < |q| ==> Jams(snd, q[|Passing(snd, q)|])
  {
    if q != [] && !Jams(snd, q[0]) {
      hide Jams;
      PassingIsPrefix(snd, q[1..]);
    }
  }

  lemma {:induction false} PassingJoins(snd: Sender, q: seq<Packet>, more: seq<Packet>)
    requires WellShaped(snd)
    ensures Passing(snd, q + more) == if Passing(snd, q) == q then q + Passing(snd, more) else Passing(snd, q)
  {
    hide Jams;
    if q == [] {
      assert q + more == more && [] + Passing(snd, more) == Passing(snd, more);
    } else {
      assert (q + more)[1..] == q[1..] + more && q == [q[0]] + q[1..];
      PassingJoins(snd, q[1..], more);
    }
  }

  lemma {:induction false} AllPass(snd: Sender, q: seq<Packet>)
    requires WellShaped(snd) && NoneJams(snd, q)
    ensures Passing(snd, q) == q
  {
    if q != [] {
      hide Jams;
      AllPass(snd, q[1..]);
    }
  }

  lemma {:induction false} SamePassing(snd: Sender, snd': Sender, q: seq<Packet>)
    requires WellShaped(snd) && WellShaped(snd') && SameGivenUp(snd, snd')
    ensures Passing(snd', q) == Passing(snd, q)
  {
    if q != [] {
      assert Jams(snd', q[0]) <==> Jams(snd, q[0]);
      hide Jams, SameGivenUp;
      SamePassing(snd, snd', q[1..]);
    }
  }

  lemma MoreAcks(q: seq<Packet>, more: seq<Packet>, k: nat)
    requires HasAck(q, k) || HasAck(more, k)
    ensures HasAck(q + more, k)
  {
    hide IsAck;
    if a :| 0 <= a < |q| && IsAck(q[a], k) {
      assert (q + more)[a] == q[a];
    } else {
      var b :| 0 <= b < |more| && IsAck(more[b], k);
      assert (q + more)[|q| + b] == more[b];
    }
  }

  lemma MoreAcksPass(snd: Sender, q: seq<Packet>, more: seq<Packet>, k: nat)
    requires WellShaped(snd) && HasAck(Passing(snd, q), k)
    ensures HasAck(Passing(snd, q + more), k)
  {
    PassingJoins(snd, q, more);
    hide Passing, HasAck;
    if Passing(snd, q) == q { MoreAcks(q, Passing(snd, more), k); }
  }

  /** The head of the receiver's queue passes, and something behind it or itself is final. */
  lemma HeadPasses(s: Sys, k: nat)
    requires Shaped(s) && k < SLOTS && FinalPasses(s, k)
    ensures s.toR != [] && !Jams(s.snd, s.toR[0])
    ensures |TransOf(Passing(s.snd, s.toR), k)|
            == (if OnSlot(s.toR[0], k) then 1 else 0) + |TransOf(Passing(s.snd, s.toR[1..]), k)|
  {
    var q := Passing(s.snd, s.toR);
    assert TransOf([], k) == [];
    assert q != [];
    TransOfPop(q, k);
    assert q[1..] == Passing(s.snd, s.toR[1..]);
    hide TransOf, IsFinal, Jams;
  }

  /** The final segment is behind the head of the queue. */
  lemma FinalMovesUp(s: Sys, s': Sys, k: nat)
    requires Shaped(s) && Shaped(s') && k < SLOTS && FinalPasses(s, k)
    requires s'.snd == s.snd && s'.toR == s.toR[1..] && s'.out == s.out
    requires s'.eaten[k] == (if OnSlot(s.toR[0], k) then s.eaten[k] + 1 else s.eaten[k])
    requires OnSlot(s.toR[0], k) ==> s.eaten[k] < |s.out[k]| && !IsFinal(s.out[k][s.eaten[k]])
    ensures FinalPasses(s', k)
  {
    HeadPasses(s, k);
    hide TransOf, Passing, IsFinal, OnSlot, Jams, WellShaped;
    var j :| s.eaten[k] <= j < |s.out[k]| && IsFinal(s.out[k][j])
             && j < s.eaten[k] + |TransOf(Passing(s.snd, s.toR), k)|;
    assert IsFinal(s'.out[k][j]);
  }

  /** The head of the queue is answered, and the answer passes. */
  lemma AnswerPasses(s: Sys, s': Sys, k: nat)
    requires Shaped(s) && Shaped(s') && Passing(s.snd, s.toS) == s.toS && s.toR != [] && !Jams(s.snd, s.toR[0])
    requires s'.snd == s.snd && s'.toS == s.toS + Answers(s.rl, s.toR[0])
    ensures Passing(s'.snd, s'.toS) == s'.toS
  {
    var added := Answers(s.rl, s.toR[0]);
    AnswersDoNotJam(s.snd, s.rl, s.toR[0]);
    AllPass(s.snd, added);
    PassingJoins(s.snd, s.toS, added);
  }

  /** An arrival at the receiver: what gets through still does, if only as its acknowledgement. */
  lemma FinalArrives(s: Sys, s': Sys, k: nat)
    requires OrderInv(s, k) && Shaped(s) && Passing(s.snd, s.toS) == s.toS && FinalPasses(s, k) && s.toR != []
    requires s' == Happen(s, ArriveAtReceiver) && Shaped(s') && !s.snd.stuck
    ensures GetsThrough(s', k)
  {
    var p := s.toR[0];
    assert s.eaten[k] <= |s.out[k]| && InFlight(s.toR, s.out[k], s.eaten[k], k) by { OrderFacts(s, k); }
    ReceiverEffect(s, k);
    ReceiverShape(s);
    HeadPasses(s, k);
    hide Happen, OrderInv, Passing, Answers, AfterRequest, Delivered, Jams, FinalPasses, HasAck, IsFinal, TransOf;
    hide InFlight;
    AnswerPasses(s, s', k);
    if OnSlot(p, k) && IsFinal(s.out[k][s.eaten[k]]) {
      FinalIsAcknowledged(s, k);
      OneAck(k);
      MoreAcks(s.toS, Answers(s.rl, p), k);
    } else {
      FinalMovesUp(s, s', k);
    }
  }

  lemma ArrivalKeepsThrough(s: Sys, s': Sys, k: nat)
    requires OrderInv(s, k) && Shaped(s) && s.toR != [] && GetsThrough(s, k)
    requires s' == Happen(s, ArriveAtReceiver) && Shaped(s')
    ensures GetsThrough(s', k)
  {
    if HasAck(Passing(s.snd, s.toS), k) {
      ReceiverShape(s);
      MoreAcksPass(s.snd, s.toS, Answers(s.rl, s.toR[0]), k);
      hide Happen, Passing, HasAck, OrderInv, Answers, AfterRequest, Delivered;
    } else {
      FinalArrives(s, s', k);
    }
  }

  lemma OneAck(k: u16)
    ensures HasAck([Received(k)], k)
  {
    assert IsAck([Received(k)][0], k);
  }

  lemma FinalIsAcknowledged(s: Sys, k: nat)
    requires OrderInv(s, k) && Shaped(s) && s.toR != [] && OnSlot(s.toR[0], k)
    requires s.eaten[k] < |s.out[k]| && IsFinal(s.out[k][s.eaten[k]])
    ensures Answers(s.rl, s.toR[0]) == [Received(k)]
  {
    OrderFacts(s, k);
    var out, eaten := s.out[k], s.eaten[k];
    hide OrderInv, Tip, Owned, MessagesIn, FullySent;
    InFlightArrives(s.toR, out, eaten, k);
    ChainPrefix(out, eaten);
    ChainIsReceived(out[..eaten]);
    hide Chain, Slot, RecvAt, InFlight, PacketOf, Take, IsFinal, Delivered;
    EntryArrives(s.rl[k], out, eaten);
    TakeIsArrival(s.rl, k, out[eaten]);
  }

  /** Let everything under way to the receiver arrive. */
  lemma DrainReceiver(run: seq<Sys>, k: nat) returns (run': seq<Sys>)
    requires IsRun(run) && |Last(run).snd.askers| < U32_SIZE && k < SLOTS && Clean(Last(run).snd.calls, k)
    requires Shaped(Last(run)) && GetsThrough(Last(run), k)
    ensures Continues(run, run') && Shaped(Last(run')) && Last(run').toR == [] && GetsThrough(Last(run'), k)
    ensures Last(run').snd == Last(run).snd && Last(run').out == Last(run).out
    decreases |Last(run).toR|
  {
    var s := Last(run);
    if s.toR == [] {
      return run;
    }
    RunIsOrdered(run, k);
    var run1 := Extend(run, ArriveAtReceiver);
    RunIsOrdered(run1, k);
    ReceiverShape(s);
    ArrivalKeepsThrough(s, Last(run1), k);
    hide IsRun, Happen, OrderInv, GetsThrough, Shaped, Clean, AfterRequest, Delivered, Answers;
    run' := DrainReceiver(run1, k);
  }

  /** With nothing under way to the receiver, what gets through is an acknowledgement. */
  lemma DrainedHasAck(s: Sys, k: nat)
    requires Shaped(s) && k < SLOTS && ArrivedOk(s, k) && s.toR == [] && GetsThrough(s, k)
    ensures Settled(s, k) && HasAck(Passing(s.snd, s.toS), k) && !s.snd.stuck
  {
    assert Passing(s.snd, s.toR) == [] && TransOf([], k) == [];
  }

  /** Call c, registered for slot k, is not disturbed by answers but for its acknowledgement. */
  lemma AnswerOrAck(snd: Sender, p: Packet, k: u16, c: nat)
    requires WellShaped(snd) && HistoryOk(snd) && c < |snd.calls| && !snd.calls[c].pc.Querying?
    requires k in snd.slWait && snd.slWait[k] == c
    ensures var snd' := OnAnswer(snd, p);
            && |snd'.calls| == |snd.calls| && snd'.askers == snd.askers
            && (forall x :: 0 <= x < |snd.calls| ==> snd'.calls[x].slot == snd.calls[x].slot)
            && (if IsAck(p, k) then snd'.calls[c] == snd.calls[c].(acked := true)
                else snd'.calls[c] == snd.calls[c] && k in snd'.slWait && snd'.slWait[k] == c)
  {
    hide PassAfter;
  }

  /** What answers leave alone. */
  ghost predicate OnlyAnswers(s: Sys, s': Sys) {
    && s'.toR == s.toR && s'.out == s.out && s'.eaten == s.eaten && s'.log == s.log && s'.rl == s.rl
    && |s'.snd.calls| == |s.snd.calls| && s'.snd.askers == s.snd.askers
    && forall x :: 0 <= x < |s.snd.calls| ==> s'.snd.calls[x].slot == s.snd.calls[x].slot
  }

  /** An answer that passes leaves what passes behind it. */
  lemma NextPasses(s: Sys, k: nat)
    requires Shaped(s) && !s.snd.stuck && HasAck(Passing(s.snd, s.toS), k) && s.toS != []
    requires WellShaped(OnAnswer(s.snd, s.toS[0]))
    ensures var p := s.toS[0]; var snd' := OnAnswer(s.snd, p);
            !snd'.stuck && (!IsAck(p, k) ==> HasAck(Passing(snd', s.toS[1..]), k))
  {
    var p := s.toS[0];
    AnswerGivesUp(s.snd, p);
    SamePassing(s.snd, OnAnswer(s.snd, p), s.toS[1..]);
    assert Passing(s.snd, s.toS) == [p] + Passing(s.snd, s.toS[1..]) && !Jams(s.snd, p);
    hide OnAnswer, Passing, Jams, SameGivenUp, IsAck;
    if !IsAck(p, k) {
      var q := Passing(s.snd, s.toS);
      var a :| 0 <= a < |q| && IsAck(q[a], k);
      assert q[1..][a - 1] == q[a];
    }
  }

  lemma AckIsThere(snd: Sender, q: seq<Packet>, k: nat)
    requires WellShaped(snd) && HasAck(Passing(snd, q), k)
    ensures q != []
  {
  }

  /** Let answers arrive until the acknowledgement for slot k has reached call c. */
  lemma DrainSender(run: seq<Sys>, k: u16, c: nat) returns (run': seq<Sys>)
    requires IsRun(run) && |Last(run).snd.askers| < U32_SIZE && Shaped(Last(run)) && c < |Last(run).snd.calls|
    requires !Last(run).snd.calls[c].pc.Querying? && k in Last(run).snd.slWait && Last(run).snd.slWait[k] == c
    requires !Last(run).snd.stuck && HasAck(Passing(Last(run).snd, Last(run).toS), k)
    ensures Continues(run, run') && Shaped(Last(run')) && OnlyAnswers(Last(run), Last(run'))
    ensures Last(run').snd.calls[c] == Last(run).snd.calls[c].(acked := true)
    decreases |Last(run).toS|
  {
    var s := Last(run);
    AckIsThere(s.snd, s.toS, k);
    RunInv(run);
    InvFacts(s);
    SenderShape(s);
    hide HasAck, Inv, OnAnswer, Passing, IsAck, Happen;
    AnswerOrAck(s.snd, s.toS[0], k, c);
    run' := Extend(run, ArriveAtSender);
    RunInv(run');
    InvFacts(Last(run'));
    hide IsRun, SenderOk;
    NextPasses(s, k);
    if !IsAck(s.toS[0], k) {
      run' := DrainSender(run', k, c);
    }
  }

  /** Since the slot was free, only call c has begun on it, and that has not failed. */
  lemma StillOrderly(s0: Sys, s: Sys, k: nat, c: nat)
    requires Shaped(s0) && SlotsOk(s0.snd) && k < SLOTS && s0.snd.sl[k].None? && Clean(s0.snd.calls, k)
    requires ReturnedIsFinal(s0.snd, s.snd) && c < |s.snd.calls| && s.snd.calls[c].pc != Returned(false)
    requires forall x :: |s0.snd.calls| <= x < |s.snd.calls| && x != c ==> s.snd.calls[x].slot != k
    requires forall x :: 0 <= x < |s0.snd.calls| ==> s.snd.calls[x].slot == s0.snd.calls[x].slot
    ensures StaysOrderly(s, k, |s0.snd.calls|)
  {
    FreeSlotIsIdle(s0, k);
    hide SlotsOk, SegmentCount;
  }

  /** A call whose last segment is the only one that has not arrived is not delivered. */
  lemma NotYetDelivered(s: Sys, k: nat, c: nat)
    requires OrderInv(s, k) && Shaped(s) && c < |s.snd.calls| && s.out[k] != [] && IsFinal(Last(s.out[k]))
    requires s.eaten[k] == |s.out[k]| - 1
    requires forall x :: c < x < |s.snd.calls| ==> s.snd.calls[x].slot != k
    ensures !IsDelivered(s, k, c)
  {
    OrderFacts(s, k);
    LogIsArrived(s, k);
    hide OrderInv, InOrder, ArrivedOk, LogOf, FullySent, IsFinal;
    FullySentUpTo(s.snd.calls, k, c);
    assert |MessagesIn(s.out[k][..s.eaten[k]])| < |MessagesIn(s.out[k])|;
    hide MessagesIn;
  }

  /** The next call on the slot, c, has only to write, and already has the acknowledgement. */
  ghost predicate Misled(s0: Sys, s: Sys, k: nat, c: nat, m: bytes)
    requires Shaped(s) && k < SLOTS
  {
    && |s0.snd.calls| <= c == |s.snd.calls| - 1 && Settled(s, k) && s.toR == []
    && s.snd.calls[c].(first := false) == Call(m, k, false, 0, Writing([0], ToWait), true)
    && (forall x :: 0 <= x < |s0.snd.calls| ==> s.snd.calls[x].slot == s0.snd.calls[x].slot)
    && (forall x :: |s0.snd.calls| <= x < c ==> s.snd.calls[x].slot != k)
  }

  /** The next call takes slot k and registers; what gets through still does. */
  lemma NextCallRegisters(run: seq<Sys>, k: u16, m: bytes) returns (run': seq<Sys>, c: nat)
    requires IsRun(run) && |Last(run).snd.askers| < U32_SIZE && k < SLOTS && Clean(Last(run).snd.calls, k)
    requires Shaped(Last(run)) && Last(run).snd.sl[k].None? && GetsThrough(Last(run), k) && IsShort(m)
    ensures Continues(run, run') && Shaped(Last(run')) && GetsThrough(Last(run'), k) && Clean(Last(run').snd.calls, k)
    ensures var s0, s := Last(run), Last(run');
            && |s0.snd.calls| <= c == |s.snd.calls| - 1 && k in s.snd.slWait && s.snd.slWait[k] == c
            && s.snd.calls[c].(first := false) == Call(m, k, false, 0, Writing([0], ToWait), false)
            && (forall x :: 0 <= x < |s0.snd.calls| ==> s.snd.calls[x].slot == s0.snd.calls[x].slot)
            && (forall x :: |s0.snd.calls| <= x < c ==> s.snd.calls[x].slot != k)
  {
    var s0 := Last(run);
    RunInv(run);
    assert SlotsOk(s0.snd);
    hide IsRun, Inv, SlotsOk, GetsThrough, IsShort;
    var run1 := FillLower(run, k);
    c := |Last(run1).snd.calls|;
    run' := BeginShort(run1, m);
    MoreCallsGiveUpNothing(s0.snd, Last(run').snd);
    hide SameGivenUp;
    SameThrough(s0, Last(run'), k);
    RunIsFinal(run, run');
    hide ReturnedIsFinal, NoneGaveUp, Clean;
    StillOrderly(s0, Last(run'), k, c);
  }

  /** The next call on slot k is woken by what gets through. */
  lemma NextCallIsWoken(run: seq<Sys>, k: u16, m: bytes) returns (run': seq<Sys>, c: nat)
    requires IsRun(run) && |Last(run).snd.askers| < U32_SIZE && k < SLOTS && Clean(Last(run).snd.calls, k)
    requires Shaped(Last(run)) && Last(run).snd.sl[k].None? && GetsThrough(Last(run), k) && IsShort(m)
    ensures Continues(run, run') && Shaped(Last(run')) && Misled(Last(run), Last(run'), k, c, m)
  {
    hide IsRun, GetsThrough, IsShort, Clean, Passing;
    var run2, run3;
    run2, c := NextCallRegisters(run, k, m);
    run3 := DrainReceiver(run2, k);
    RunInv(run3);
    hide Inv, HasAck, ArrivedOk;
    InvArrived(Last(run3), k);
    DrainedHasAck(Last(run3), k);
    run' := DrainSender(run3, k, c);
  }

  lemma InvArrived(s: Sys, k: nat)
    requires Inv(s) && k < SLOTS
    ensures Shaped(s) && ArrivedOk(s, k)
  {
  }

  lemma SameThrough(s: Sys, s': Sys, k: nat)
    requires Shaped(s) && Shaped(s') && k < SLOTS && GetsThrough(s, k) && SameGivenUp(s.snd, s'.snd)
    requires s'.out == s.out && s'.eaten == s.eaten && s'.toS == s.toS && s'.toR == s.toR
    requires s'.snd.stuck == s.snd.stuck
    ensures GetsThrough(s', k)
  {
    SamePassing(s.snd, s'.snd, s.toS);
    SamePassing(s.snd, s'.snd, s.toR);
    hide Passing, TransOf, IsFinal, HasAck, SameGivenUp;
  }

  /** The next call on the slot then returns nil though its message has not been delivered. */
  lemma ThroughMisleads(run: seq<Sys>, k: u16, m: bytes) returns (run': seq<Sys>, c: nat)
    requires IsRun(run) && |Last(run).snd.askers| < U32_SIZE && k < SLOTS && Clean(Last(run).snd.calls, k)
    requires Shaped(Last(run)) && Last(run).snd.sl[k].None? && GetsThrough(Last(run), k) && IsShort(m)
    ensures Continues(run, run') && StaysOrderly(Last(run'), k, |Last(run).snd.calls|)
    ensures IsNil(Last(run'), k, c, |Last(run).snd.calls|) && Last(run').snd.calls[c].message == m
    ensures !IsDelivered(Last(run'), k, c)
  {
    var s0 := Last(run);
    RunInv(run);
    assert SlotsOk(s0.snd);
    ShortIsOneSegment(m);
    hide IsRun, Inv, SlotsOk, GetsThrough, IsShort;
    var run1;
    run1, c := NextCallIsWoken(run, k, m);
    var run2 := WriteShort(run1, c);
    run' := SeesAck(run2, c);
    RunIsFinal(run, run');
    StillOrderly(s0, Last(run'), k, c);
    hide Clean, NoneGaveUp, ReturnedIsFinal;
    RunIsOrdered(run', k);
    NotYetDelivered(Last(run'), k, c);
  }

  /* ---- something under way that does not get through ---- */

  lemma {:induction false} PrefixHasFewer(q: seq<Packet>, r: nat, k: nat)
    requires r <= |q|
    ensures |TransOf(q[..r], k)| <= |TransOf(q, k)|
  {
    if r == |q| {
      assert q[..r] == q;
    } else {
      var init := q[..|q| - 1];
      PrefixHasFewer(init, r, k);
      assert init[..r] == q[..r];
    }
  }

  lemma OldNews(s: Sys, k: nat, a: nat, r: nat)
    requires QueuesOk(s) && a <= |s.toS| && r <= |s.toR| && !HasAck(s.toS[..a], k)
    ensures NoNews(s.toS, a, |s.snd.askers|, Some(k)) && NoNews(s.toR, r, |s.snd.askers|, Some(k))
  {
    forall b | 0 <= b < a ensures !IsAck(s.toS[b], k) {
      assert s.toS[b] == s.toS[..a][b];
    }
  }

  /** What does not get through is behind a query or a reply that jams. */
  lemma BehindIsHeld(s: Sys, k: nat)
    requires Inv(s) && Shaped(s) && k < SLOTS && StillUnderWay(s, k) && !GetsThrough(s, k)
    ensures HeldUp(s, |s.snd.askers|, Some(k))
  {
    InvFacts(s);
    PassingIsPrefix(s.snd, s.toS);
    PassingIsPrefix(s.snd, s.toR);
    InvArrived(s, k);
    var n, slot, a := |s.snd.askers|, Some(k), |Passing(s.snd, s.toS)|;
    hide Inv, SenderOk, QueuesOk, Passing, Jams, IsFinal, TransOf, NoneJams, Slot, LogOf, HasAck, NoNews;
    if s.snd.stuck {
    } else if a < |s.toS| {
      OldNews(s, k, a, 0);
      assert HeldByReply(s, n, slot, a);
    } else {
      assert Passing(s.snd, s.toS) == s.toS == s.toS[..a];
      OldNews(s, k, a, |Passing(s.snd, s.toR)|);
      hide HeldByReply;
      QueryIsAhead(s, k);
    }
  }

  lemma NotAllPass(s: Sys, k: nat)
    requires Shaped(s) && k < SLOTS && StillUnderWay(s, k) && !FinalPasses(s, k) && !HasAck(s.toS, k)
    requires InFlight(s.toR, s.out[k], s.eaten[k], k)
    ensures Passing(s.snd, s.toR) != s.toR
  {
    hide Passing, Jams, IsFinal, TransOf, HasAck, PacketOf;
  }

  lemma QueryIsAhead(s: Sys, k: nat)
    requires Shaped(s) && k < SLOTS && StillUnderWay(s, k) && !FinalPasses(s, k) && !HasAck(s.toS, k)
    requires InFlight(s.toR, s.out[k], s.eaten[k], k)
    requires var q := Passing(s.snd, s.toR); q <= s.toR && (|q| < |s.toR| ==> Jams(s.snd, s.toR[|q|]))
    requires NoNews(s.toS, |s.toS|, |s.snd.askers|, Some(k))
    requires NoNews(s.toR, |Passing(s.snd, s.toR)|, |s.snd.askers|, Some(k))
    ensures HeldByQuery(s, |s.snd.askers|, Some(k), |Passing(s.snd, s.toR)|)
  {
    var q := Passing(s.snd, s.toR);
    PrefixHasFewer(s.toR, |q|, k);
    NotAllPass(s, k);
    assert q == s.toR[..|q|];
    hide Passing, Jams, IsFinal, TransOf, HasAck, NoNews, PacketOf, StillUnderWay, WellShaped;
  }

  lemma NoneIsNil(s: Sys, k: nat, from: nat, n: nat)
    requires AllUnheard(s, from, n, Some(k))
    ensures forall c :: !IsNil(s, k, c, from)
  {
    hide InFirstPass, SegmentCount, Wire, AsksLate;
    forall c | from <= c < |s.snd.calls| && s.snd.calls[c].slot == k ensures s.snd.calls[c].pc != Returned(true) {
      assert Unheard(s.snd.calls[c], n, Some(k));
    }
  }

  lemma NoneGetsThrough(run: seq<Sys>, k: nat)
    requires IsRun(run) && |Last(run).snd.askers| < U32_SIZE && k < SLOTS
    requires Shaped(Last(run)) && StillUnderWay(Last(run), k) && !GetsThrough(Last(run), k)
    ensures NilMeansDelivered(run, k)
  {
    var s, from := Last(run), |Last(run).snd.calls|;
    RunInv(run);
    BehindIsHeld(s, k);
    hide IsRun, HeldUp, NoneGaveUp, StillUnderWay, GetsThrough, Inv, IsDelivered, IsNil, AllUnheard;
    forall run' | Continues(run, run') && StaysOrderly(Last(run'), k, from)
      ensures forall c :: !IsNil(Last(run'), k, c, from)
    {
      hide Clean;
      assert run'[|run| - 1] == s;
      RunHeld(run', |run| - 1, |s.snd.askers|, Some(k));
      NoneIsNil(Last(run'), k, from, |s.snd.askers|);
    }
  }

  /* ---- result ---- */

  /** Take any reachable state in which slot k is free and no call on it has failed in the middle of its
      message. Every call to come that returns nil on slot k is delivered, in all continuations in which
      no such call fails after writing everything, if and only if nothing that was written whole on slot
      k is still under way, as a segment or as its acknowledgement, and gets through to the sender. */
  lemma AcknowledgementIsSoundIff(run: seq<Sys>, k: nat)
    requires IsRun(run) && |Last(run).snd.askers| < U32_SIZE && k < SLOTS && Clean(Last(run).snd.calls, k)
    requires Shaped(Last(run)) && Last(run).snd.sl[k].None?
    ensures NilMeansDelivered(run, k) <==> !GetsThrough(Last(run), k)
  {
    if GetsThrough(Last(run), k) {
      var run', c := ThroughMisleads(run, k, [0]);
      hide IsRun, GetsThrough, StaysOrderly, IsNil, IsDelivered, Clean;
    } else {
      if StillUnderWay(Last(run), k) { NoneGetsThrough(run, k); } else { NothingUnderWay(run, k); }
      hide NilMeansDelivered;
    }
  }

  /* ---- an instance ---- */

  /** A call writes its one segment, times out, cannot write the query and fails: a clean slot, with a
      message under way. */
  lemma FirstCallFails(m: bytes) returns (run: seq<Sys>)
    requires IsShort(m)
    ensures IsRun(run) && run != [] && Shaped(Last(run)) && |Last(run).snd.askers| < U32_SIZE
    ensures Last(run).snd.calls == [Call(m, 0, true, 1, Returned(false), false)] && Last(run).snd.sl[0].None?
    ensures Clean(Last(run).snd.calls, 0) && GetsThrough(Last(run), 0)
  {
    run := ShortCallAsks(m);
    var s := Last(run);
    ShortIsOneSegment(m);
    hide IsRun, IsShort;
    FailMove(s.snd, 0, false);
    run := ExtendAct(run, Fail(0, false));
    var s' := Last(run);
    assert !Jams(s'.snd, s.toR[0]);
    hide AfterMove, HasAck, Jams;
    AllPass(s'.snd, s.toR);
    assert TransOf([], 0) == [] && [] + s.toR == s.toR;
    TransOfSnoc([], s.toR[0], 0);
    assert IsFinal(s'.out[0][0]);
    hide TransOf;
    assert FinalPasses(s', 0);
  }

  /** A call writes all of m, times out and fails; the next call on the slot, with another message, is
      woken by the acknowledgement of m and returns nil though its own message has not been delivered. */
  lemma AcknowledgementOfFailedCall(m: bytes, other: bytes) returns (run: seq<Sys>, c: nat)
    requires IsShort(m) && IsShort(other)
    ensures IsRun(run) && Clean(Last(run).snd.calls, 0)
    ensures IsNil(Last(run), 0, c, 1) && Last(run).snd.calls[c].message == other && !IsDelivered(Last(run), 0, c)
  {
    run := FirstCallFails(m);
    hide IsShort, Clean, GetsThrough, IsDelivered;
    run, c := ThroughMisleads(run, 0, other);
    hide IsRun;
  }
}
