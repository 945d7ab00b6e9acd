/** A request whose call returned an error while its ID was pending. When the reply to it comes,
    `handleRep` sends on a channel that nothing will receive from, and never returns. What such a reply,
    or the query that leads to it, holds up while it is on its way. */
module FifoStuck {
  import opened Bytes
  import opened Rounds
  import opened Status
  import opened Endpoint
  import opened SenderInvariant
  import opened FifoNetwork
  import opened FifoOrder
  import opened FifoAck
  import IdPool

  /** The ID is pending, and its call does not wait for the reply to it. */
  ghost predicate GivenUp(snd: Sender, id: u32)
    requires WellShaped(snd)
  {
    id in snd.requests && snd.calls[snd.requests[id]].pc != Querying(id)
  }

  /** A query or a reply with which the sender's handler gets stuck. */
  ghost predicate Jams(snd: Sender, p: Packet)
    requires WellShaped(snd)
  {
    (p.Query? || p.Reply?) && GivenUp(snd, p.id)
  }

  ghost predicate NoneJams(snd: Sender, q: seq<Packet>)
    requires WellShaped(snd)
  {
    forall a :: 0 <= a < |q| ==> !Jams(snd, q[a])
  }

  /** The handler runs, and nothing under way will make it stick. */
  ghost predicate Open(s: Sys) {
    Shaped(s) && !s.snd.stuck && NoneJams(s.snd, s.toS) && NoneJams(s.snd, s.toR)
  }

  /** The same requests are given up. */
  ghost predicate SameGivenUp(snd: Sender, snd': Sender)
    requires WellShaped(snd) && WellShaped(snd')
  {
    forall id: u32 :: GivenUp(snd', id) <==> GivenUp(snd, id)
  }

  /* ---- what gives up a request ---- */

  /** Only a failure gives up a request. */
  lemma ActGivesUp(s: Sender, e: SendEvent)
    requires WellShaped(s) && Enabled(s, e) && WellShaped(SendStep(s, e).0) && !e.Fail?
    ensures SameGivenUp(s, SendStep(s, e).0)
  {
  }

  lemma ActStuck(s: Sender, e: SendEvent)
    requires WellShaped(s) && Enabled(s, e)
    ensures SendStep(s, e).0.stuck == s.stuck
  {
    hide IdPool.IsNextID, FullRound;
  }

  /** What is given up stays given up. */
  lemma GivenUpStays(s: Sender, e: SendEvent, id: u32)
    requires SenderOk(s) && Enabled(s, e) && WellShaped(SendStep(s, e).0) && GivenUp(s, id)
    ensures GivenUp(SendStep(s, e).0, id)
  {
    if !e.Fail? { ActGivesUp(s, e); }
  }

  lemma AnswerGivesUp(s: Sender, p: Packet)
    requires WellShaped(s) && WellShaped(OnAnswer(s, p))
    ensures SameGivenUp(s, OnAnswer(s, p))
    ensures OnAnswer(s, p).stuck <==> s.stuck || (p.Reply? && Jams(s, p))
  {
    hide PassAfter;
  }

  lemma SameJams(snd: Sender, snd': Sender, q: seq<Packet>)
    requires WellShaped(snd) && WellShaped(snd') && SameGivenUp(snd, snd')
    ensures NoneJams(snd, q) <==> NoneJams(snd', q)
    ensures forall p :: Jams(snd', p) <==> Jams(snd, p)
  {
  }

  /* ---- what stays open ---- */

  lemma OpenReceives(s: Sys)
    requires Open(s) && s.toR != []
    ensures Open(Happen(s, ArriveAtReceiver))
  {
    var s', p := Happen(s, ArriveAtReceiver), s.toR[0];
    ReceiverShape(s);
    assert !Jams(s.snd, p);
    AnswersDoNotJam(s.snd, s.rl, p);
    hide Happen, AfterRequest, Delivered, Answers, Jams;
    assert forall a :: 0 <= a < |s'.toR| ==> s'.toR[a] == s.toR[a + 1];
  }

  lemma AnswersDoNotJam(snd: Sender, rl: RecvList, p: Packet)
    requires WellShaped(snd) && !Jams(snd, p)
    ensures NoneJams(snd, Answers(rl, p))
  {
    hide Delivered, StatusOf;
  }

  lemma OpenTakes(s: Sys)
    requires Open(s) && s.toS != [] && Shaped(Happen(s, ArriveAtSender))
    ensures Open(Happen(s, ArriveAtSender))
  {
    var s', p := Happen(s, ArriveAtSender), s.toS[0];
    SenderShape(s);
    AnswerGivesUp(s.snd, p);
    hide Happen, OnAnswer, Jams;
    SameJams(s.snd, s'.snd, s.toR);
    SameJams(s.snd, s'.snd, s.toS);
    assert forall a :: 0 <= a < |s'.toS| ==> s'.toS[a] == s.toS[a + 1];
  }

  /** A step other than a failure, and what it writes, keep the way open. */
  lemma OpenActs(s: Sys, e: SendEvent)
    requires Open(s) && Possible(s, Act(e)) && !e.Fail? && Shaped(Happen(s, Act(e)))
    requires e.WriteQuery? ==> RequestsOk(s.snd)
    ensures Open(Happen(s, Act(e)))
  {
    var s' := Happen(s, Act(e));
    ActShape(s, e);
    ActGivesUp(s.snd, e);
    ActStuck(s.snd, e);
    SameJams(s.snd, s'.snd, s.toR);
    SameJams(s.snd, s'.snd, s.toS);
    if e.WriteQuery? { OwnQuery(s.snd, e.c); }
    hide Happen, SendStep, SameGivenUp;
  }

  lemma OwnQuery(s: Sender, c: nat)
    requires WellShaped(s) && RequestsOk(s) && c < |s.calls| && s.calls[c].pc.Querying?
    ensures !Jams(s, Query(s.calls[c].slot, s.calls[c].pc.id))
  {
  }

  /* ---- what is held up ---- */

  /** No news: no query or reply of a request numbered past n and, if `slot` is one, no acknowledgement for it. */
  ghost predicate NoNews(q: seq<Packet>, len: nat, n: nat, slot: Option<nat>) {
    && len <= |q|
    && forall b :: 0 <= b < len ==>
         (q[b].Query? || q[b].Reply? ==> q[b].id <= n) && (slot.Some? ==> !IsAck(q[b], slot.value))
  }

  /** Nor is there a segment among the first `len` that will be acknowledged. */
  ghost predicate NoFinals(s: Sys, len: nat, slot: Option<nat>)
    requires Shaped(s) && (slot.Some? ==> slot.value < SLOTS)
  {
    && len <= |s.toR|
    && (slot.Some? ==>
          var k := slot.value; var eaten, end := s.eaten[k], s.eaten[k] + |TransOf(s.toR[..len], k)|;
          end <= |s.out[k]| && forall j :: eaten <= j < end ==> !IsFinal(s.out[k][j]))
  }

  ghost predicate HeldByReply(s: Sys, n: nat, slot: Option<nat>, a: nat)
    requires Shaped(s)
  {
    a < |s.toS| && Jams(s.snd, s.toS[a]) && NoNews(s.toS, a, n, slot)
  }

  ghost predicate HeldByQuery(s: Sys, n: nat, slot: Option<nat>, r: nat)
    requires Shaped(s) && (slot.Some? ==> slot.value < SLOTS)
  {
    && r < |s.toR| && Jams(s.snd, s.toR[r]) && NoNews(s.toS, |s.toS|, n, slot) && NoNews(s.toR, r, n, slot)
    && NoFinals(s, r, slot)
  }

  /** The handler is stuck, or will be before any news gets to it. */
  ghost predicate HeldUp(s: Sys, n: nat, slot: Option<nat>)
    requires Shaped(s) && (slot.Some? ==> slot.value < SLOTS)
  {
    || s.snd.stuck
    || (exists a: nat :: HeldByReply(s, n, slot, a))
    || (exists r: nat :: HeldByQuery(s, n, slot, r))
  }

  /** More is written, and more requests may be given up. */
  lemma GrowthHolds(s: Sys, s': Sys, n: nat, slot: Option<nat>)
    requires Shaped(s) && Shaped(s') && (slot.Some? ==> slot.value < SLOTS) && HeldUp(s, n, slot)
    requires s'.snd.stuck == s.snd.stuck && s'.toS == s.toS && s.toR <= s'.toR && s'.eaten == s.eaten
    requires slot.Some? ==> s.out[slot.value] <= s'.out[slot.value]
    requires forall p :: Jams(s.snd, p) ==> Jams(s'.snd, p)
    ensures HeldUp(s', n, slot)
  {
    hide Jams, IsAck, IsFinal, TransOf, WellShaped;
    if s.snd.stuck {
    } else if a: nat :| HeldByReply(s, n, slot, a) {
      assert HeldByReply(s', n, slot, a);
    } else {
      var r: nat :| HeldByQuery(s, n, slot, r);
      assert s'.toR[..r] == s.toR[..r];
      assert forall b :: 0 <= b < |s.toR| ==> s'.toR[b] == s.toR[b];
      if slot.Some? {
        assert forall j :: 0 <= j < |s.out[slot.value]| ==> s'.out[slot.value][j] == s.out[slot.value][j];
      }
      assert NoFinals(s', r, slot);
      assert HeldByQuery(s', n, slot, r);
    }
  }

  lemma ActHolds(s: Sys, e: SendEvent, n: nat, slot: Option<nat>)
    requires Shaped(s) && SenderOk(s.snd) && Possible(s, Act(e)) && Shaped(Happen(s, Act(e)))
    requires (slot.Some? ==> slot.value < SLOTS) && HeldUp(s, n, slot)
    ensures HeldUp(Happen(s, Act(e)), n, slot)
  {
    var s' := Happen(s, Act(e));
    ActShape(s, e);
    ActStuck(s.snd, e);
    forall p | Jams(s.snd, p) ensures Jams(s'.snd, p) { GivenUpStays(s.snd, e, p.id); }
    hide SendStep, SenderOk, Enabled, Jams, HeldUp;
    GrowthHolds(s, s', n, slot);
  }

  lemma FirstIsCounted(s: Sys, r: nat, k: nat)
    requires Shaped(s) && k < SLOTS && 0 < r <= |s.toR|
    ensures s.toR[1..][..r - 1] == s.toR[..r][1..]
    ensures |TransOf(s.toR[..r], k)| == |TransOf(s.toR[1..][..r - 1], k)| + if OnSlot(s.toR[0], k) then 1 else 0
  {
    TransOfPop(s.toR[..r], k);
    assert s.toR[1..][..r - 1] == s.toR[..r][1..];
  }

  lemma HeadIsNotFinal(s: Sys, k: nat, r: nat)
    requires Shaped(s) && k < SLOTS && NoFinals(s, r, Some(k)) && 0 < r && OnSlot(s.toR[0], k)
    ensures s.eaten[k] < |s.out[k]| && !IsFinal(s.out[k][s.eaten[k]])
  {
    FirstIsCounted(s, r, k);
    hide TransOf, IsFinal;
  }

  lemma HeadIsNotAcknowledged(s: Sys, k: nat, r: nat)
    requires OrderInv(s, k) && Shaped(s) && NoFinals(s, r, Some(k)) && 0 < r
    ensures var added := Answers(s.rl, s.toR[0]); |added| == 1 ==> !IsAck(added[0], k)
  {
    var p := s.toR[0];
    hide OrderInv, IsFinal, Answers, Delivered, NoFinals;
    assert k < SLOTS by { OrderFacts(s, k); }
    AnswerFor(s.rl, p, k);
    if OnSlot(p, k) && Delivered(s.rl, p).Some? {
      DeliveredIsFinal(s, k);
      HeadIsNotFinal(s, k, r);
    }
  }

  /** The head of the receiver's queue, ahead of the query that holds, brings no news. */
  lemma HeadIsNoNews(s: Sys, n: nat, slot: Option<nat>, r: nat)
    requires Shaped(s) && s.toR != [] && 0 < r
    requires (slot.Some? ==> slot.value < SLOTS && OrderInv(s, slot.value)) && HeldByQuery(s, n, slot, r)
    ensures var added := Answers(s.rl, s.toR[0]); NoNews(added, |added|, n, slot)
  {
    hide Answers, Delivered, NoFinals, OrderInv, Jams, IsAck;
    AnswerFor(s.rl, s.toR[0], 0);
    if slot.Some? { HeadIsNotAcknowledged(s, slot.value, r); }
  }

  lemma ReceiverPops(s: Sys, s': Sys, n: nat, slot: Option<nat>, r: nat)
    requires Shaped(s) && Shaped(s') && s.toR != [] && 0 < r && (slot.Some? ==> slot.value < SLOTS)
    requires HeldByQuery(s, n, slot, r) && s'.snd == s.snd && s'.out == s.out && s'.toR == s.toR[1..]
    requires |s.toS| <= |s'.toS| && s'.toS[..|s.toS|] == s.toS
    requires NoNews(s'.toS[|s.toS|..], |s'.toS| - |s.toS|, n, slot)
    requires slot.Some? ==>
               s'.eaten[slot.value] == s.eaten[slot.value] + if OnSlot(s.toR[0], slot.value) then 1 else 0
    ensures HeldByQuery(s', n, slot, r - 1)
  {
    if slot.Some? { FirstIsCounted(s, r, slot.value); }
    hide Jams, IsAck, IsFinal, TransOf, WellShaped, OnSlot;
    assert forall b :: 0 <= b < |s'.toR| ==> s'.toR[b] == s.toR[b + 1];
    assert forall b :: 0 <= b < |s.toS| ==> s'.toS[b] == s.toS[b];
    assert forall b :: |s.toS| <= b < |s'.toS| ==> s'.toS[b] == s'.toS[|s.toS|..][b - |s.toS|];
    assert NoNews(s'.toS, |s'.toS|, n, slot);
    assert NoNews(s'.toR, r - 1, n, slot);
    assert NoFinals(s', r - 1, slot);
  }

  /** The query that holds is answered. */
  lemma HolderIsAnswered(s: Sys, n: nat, slot: Option<nat>)
    requires Inv(s) && Shaped(s) && s.toR != [] && Shaped(Happen(s, ArriveAtReceiver))
    requires (slot.Some? ==> slot.value < SLOTS) && HeldByQuery(s, n, slot, 0)
    ensures HeldByReply(Happen(s, ArriveAtReceiver), n, slot, |s.toS|)
  {
    ReceiverShape(s);
    QueryIsAnswered(s);
    hide Happen, Answers, Inv, Jams, NoFinals, AfterRequest, Delivered;
  }

  lemma QueryMovesUp(s: Sys, n: nat, slot: Option<nat>, r: nat)
    requires Inv(s) && Shaped(s) && s.toR != [] && Shaped(Happen(s, ArriveAtReceiver)) && 0 < r
    requires (slot.Some? ==> slot.value < SLOTS && OrderInv(s, slot.value)) && HeldByQuery(s, n, slot, r)
    ensures HeldByQuery(Happen(s, ArriveAtReceiver), n, slot, r - 1)
  {
    var s', added := Happen(s, ArriveAtReceiver), Answers(s.rl, s.toR[0]);
    ReceiverShape(s);
    HeadIsNoNews(s, n, slot, r);
    if slot.Some? { ReceiverAt(s, slot.value); }
    hide Happen, Answers, OrderInv, Inv, HeldByQuery, NoNews, AfterRequest, Delivered, WellShaped;
    assert s'.toS[|s.toS|..] == added && s'.toS[..|s.toS|] == s.toS;
    ReceiverPops(s, s', n, slot, r);
  }

  lemma ReceiverHolds(s: Sys, n: nat, slot: Option<nat>)
    requires Inv(s) && Shaped(s) && s.toR != [] && Shaped(Happen(s, ArriveAtReceiver))
    requires (slot.Some? ==> slot.value < SLOTS && OrderInv(s, slot.value)) && HeldUp(s, n, slot)
    ensures HeldUp(Happen(s, ArriveAtReceiver), n, slot)
  {
    hide Happen, Answers, OrderInv, Inv, HeldByQuery, HeldByReply, AfterRequest, Delivered;
    ReceiverShape(s);
    if s.snd.stuck {
    } else if a: nat :| HeldByReply(s, n, slot, a) {
      ReplyStays(s, Happen(s, ArriveAtReceiver), n, slot, a);
    } else {
      var r: nat :| HeldByQuery(s, n, slot, r);
      if r > 0 { QueryMovesUp(s, n, slot, r); } else { HolderIsAnswered(s, n, slot); }
    }
  }

  lemma ReplyStays(s: Sys, s': Sys, n: nat, slot: Option<nat>, a: nat)
    requires Shaped(s) && Shaped(s') && s'.snd == s.snd && s.toS <= s'.toS && HeldByReply(s, n, slot, a)
    ensures HeldByReply(s', n, slot, a)
  {
  }

  lemma ReceiverAt(s: Sys, k: nat)
    requires OrderInv(s, k) && Shaped(s) && s.toR != [] && Shaped(Happen(s, ArriveAtReceiver))
    ensures Happen(s, ArriveAtReceiver).eaten[k] == s.eaten[k] + if OnSlot(s.toR[0], k) then 1 else 0
  {
    OrderFacts(s, k);
    ReceiverEffect(s, k);
    hide Happen;
  }

  /** A query that jams is answered with a reply that does. */
  lemma QueryIsAnswered(s: Sys)
    requires Inv(s) && Shaped(s) && s.toR != [] && Jams(s.snd, s.toR[0])
    ensures var added := Answers(s.rl, s.toR[0]); |added| == 1 && Jams(s.snd, added[0])
  {
    var p := s.toR[0];
    assert p.Query? && AskedFor(s.snd, p.slot, p.id);
    hide StatusOf;
  }

  lemma SenderHolds(s: Sys, n: nat, slot: Option<nat>)
    requires Inv(s) && Shaped(s) && s.toS != [] && !s.snd.stuck && Shaped(Happen(s, ArriveAtSender))
    requires (slot.Some? ==> slot.value < SLOTS) && HeldUp(s, n, slot)
    ensures HeldUp(Happen(s, ArriveAtSender), n, slot)
  {
    var s', p := Happen(s, ArriveAtSender), s.toS[0];
    SenderShape(s);
    AnswerGivesUp(s.snd, p);
    SameJams(s.snd, s'.snd, s.toS);
    assert !p.Query?;
    hide Happen, OnAnswer, Inv, SameGivenUp, HeldByReply, HeldByQuery, Jams, NoneJams;
    if a: nat :| HeldByReply(s, n, slot, a) {
      ReplyMovesUp(s, s', n, slot, a);
    } else {
      var r: nat :| HeldByQuery(s, n, slot, r);
      QueryStays(s, s', n, slot, r);
    }
  }

  lemma ReplyMovesUp(s: Sys, s': Sys, n: nat, slot: Option<nat>, a: nat)
    requires Shaped(s) && Shaped(s') && s.toS != [] && s'.toS == s.toS[1..] && HeldByReply(s, n, slot, a)
    requires slot.Some? ==> slot.value < SLOTS
    requires forall p :: Jams(s'.snd, p) <==> Jams(s.snd, p)
    requires !s.toS[0].Query? && (s'.snd.stuck <==> s.toS[0].Reply? && Jams(s.snd, s.toS[0]))
    ensures HeldUp(s', n, slot)
  {
    hide GivenUp, IsAck, HeldByQuery, WellShaped;
    assert forall b :: 0 <= b < |s'.toS| ==> s'.toS[b] == s.toS[b + 1];
    if a > 0 { assert HeldByReply(s', n, slot, a - 1); }
  }

  lemma QueryStays(s: Sys, s': Sys, n: nat, slot: Option<nat>, r: nat)
    requires Shaped(s) && Shaped(s') && s.toS != [] && s'.toS == s.toS[1..]
    requires (slot.Some? ==> slot.value < SLOTS) && HeldByQuery(s, n, slot, r)
    requires s'.toR == s.toR && s'.out == s.out && s'.eaten == s.eaten
    requires forall p :: Jams(s'.snd, p) <==> Jams(s.snd, p)
    ensures HeldUp(s', n, slot)
  {
    hide Jams, IsAck, IsFinal, TransOf, HeldByReply, WellShaped;
    assert forall b :: 0 <= b < |s'.toS| ==> s'.toS[b] == s.toS[b + 1];
    assert HeldByQuery(s', n, slot, r);
  }

  /** What gets through while news is held up. */
  lemma HeldTakes(s: Sys, n: nat, slot: Option<nat>)
    requires Shaped(s) && s.toS != [] && !s.snd.stuck && (slot.Some? ==> slot.value < SLOTS) && HeldUp(s, n, slot)
    ensures IsLive(s.snd, s.toS[0]) ==> s.toS[0].id <= n
    ensures slot.Some? ==> !IsAck(s.toS[0], slot.value)
  {
    hide NoFinals;
    if a: nat :| HeldByReply(s, n, slot, a) {
    } else {
      var r: nat :| HeldByQuery(s, n, slot, r);
    }
  }

  /* ---- every step ---- */

  /** What has been numbered is numbered. */
  lemma JamHolds(s: Sys)
    requires Inv(s) && Shaped(s) && !Open(s)
    ensures HeldUp(s, |s.snd.askers|, None)
  {
    assert QueuesOk(s);
    hide Inv, Jams, SenderOk;
    if !NoneJams(s.snd, s.toS) {
      var a: nat :| a < |s.toS| && Jams(s.snd, s.toS[a]);
      assert HeldByReply(s, |s.snd.askers|, None, a);
    } else if !NoneJams(s.snd, s.toR) {
      var r: nat :| r < |s.toR| && Jams(s.snd, s.toR[r]);
      assert HeldByQuery(s, |s.snd.askers|, None, r);
    }
  }

  lemma HeldIsKept(s: Sys, s': Sys, n: nat, slot: Option<nat>)
    requires Inv(s) && Shaped(s) && Shaped(s') && Next(s, s')
    requires (slot.Some? ==> slot.value < SLOTS && OrderInv(s, slot.value)) && HeldUp(s, n, slot)
    ensures HeldUp(s', n, slot)
  {
    var ev :| Possible(s, ev) && s' == Happen(s, ev);
    hide Inv, OrderInv, Happen, HeldUp;
    match ev
    case Act(e) =>
      InvFacts(s);
      ActHolds(s, e, n, slot);
    case ArriveAtReceiver => ReceiverHolds(s, n, slot);
    case ArriveAtSender => SenderHolds(s, n, slot);
  }

  lemma InvFacts(s: Sys)
    requires Inv(s)
    ensures Shaped(s) && SenderOk(s.snd) && QueuesOk(s) && ActiveIsLatest(s.snd.calls)
  {
  }

  /** Call c has drawn no request ID up to n that is pending. */
  ghost predicate AsksLate(call: Call, n: nat) { call.pc.Querying? ==> call.pc.id > n }

  /** A call that asks, and has not been answered, or has given up. */
  ghost predicate Unanswered(call: Call) { call.pc.Asking? || call.pc.Querying? || call.pc == Returned(false) }

  /** A step of a call, or past it, that brings it no news: a query stays unanswered and, if `slot` is the
      call's, no acknowledgement comes. */
  ghost predicate NoNewsFor(call: Call, call': Call, n: nat, slot: Option<nat>) {
    && call'.slot == call.slot
    && AsksLate(call', n)
    && (Unanswered(call) ==> Unanswered(call')) && (call'.pc.Writing? ==> call.pc.Begun? || call.pc.Writing?)
    && (slot == Some(call.slot as nat) ==>
          call'.acked == call.acked && (call'.pc == Returned(true) ==> call.acked || call.pc == Returned(true)))
  }

  lemma AskingGoes(s: Sender, e: SendEvent)
    requires WellShaped(s) && Enabled(s, e) && !e.Begin?
    ensures var s' := SendStep(s, e).0;
            && |s'.calls| == |s.calls|
            && (Unanswered(s.calls[e.c]) ==> Unanswered(s'.calls[e.c]))
            && (s'.calls[e.c].pc.Writing? ==> s.calls[e.c].pc.Begun? || s.calls[e.c].pc.Writing?)
  {
    hide IdPool.IsNextID, FullRound;
  }

  lemma ActBringsNoNews(s: Sender, e: SendEvent, c: nat, n: nat, slot: Option<nat>)
    requires SenderOk(s) && Enabled(s, e) && c < |s.calls| && n <= |s.askers| && |SendStep(s, e).0.askers| < U32_SIZE
    requires AsksLate(s.calls[c], n)
    ensures c < |SendStep(s, e).0.calls| && NoNewsFor(s.calls[c], SendStep(s, e).0.calls[c], n, slot)
  {
    if e.Begin? {
      FifoAck.BeginSlots(s, e.message, 0);
    } else {
      ActCall(s, e);
      ActLeavesOthers(s, e);
      if e.Ask? { NextRequestID(s, e.id); }
      AskingGoes(s, e);
    }
    hide SendStep, SenderOk, Enabled;
  }

  lemma ReplyLeaves(snd: Sender, p: Packet, c: nat)
    requires WellShaped(snd) && c < |snd.calls| && p.Reply?
    requires IsLive(snd, p) ==> c != snd.requests[p.id]
    ensures c < |OnAnswer(snd, p).calls| && OnAnswer(snd, p).calls[c] == snd.calls[c]
  {
    hide PassAfter;
  }

  lemma ReceivedLeaves(snd: Sender, p: Packet, c: nat)
    requires WellShaped(snd) && HistoryOk(snd) && c < |snd.calls| && !p.Reply?
    ensures c < |OnAnswer(snd, p).calls|
    ensures var call, call' := snd.calls[c], OnAnswer(snd, p).calls[c];
            call' == call || (p == Received(call.slot) && call' == call.(acked := true))
  {
  }

  lemma AnswerBringsNoNews(snd: Sender, p: Packet, c: nat, n: nat, slot: Option<nat>)
    requires SenderOk(snd) && c < |snd.calls| && AsksLate(snd.calls[c], n)
    requires IsLive(snd, p) ==> p.id <= n
    requires slot.Some? ==> !IsAck(p, slot.value)
    ensures c < |OnAnswer(snd, p).calls| && NoNewsFor(snd.calls[c], OnAnswer(snd, p).calls[c], n, slot)
  {
    hide OnAnswer, SlotsOk, RequestsOk, HistoryOk;
    if p.Reply? { ReplyLeaves(snd, p, c); } else { ReceivedLeaves(snd, p, c); }
  }

  lemma HeldBringsNoNews(s: Sys, s': Sys, c: nat, n: nat, slot: Option<nat>)
    requires Inv(s) && Shaped(s) && Next(s, s') && |s'.snd.askers| < U32_SIZE
    requires (slot.Some? ==> slot.value < SLOTS) && HeldUp(s, n, slot)
    requires c < |s.snd.calls| && n <= |s.snd.askers| && AsksLate(s.snd.calls[c], n)
    ensures c < |s'.snd.calls| && n <= |s'.snd.askers| && NoNewsFor(s.snd.calls[c], s'.snd.calls[c], n, slot)
  {
    var ev :| Possible(s, ev) && s' == Happen(s, ev);
    InvFacts(s);
    StepIsFinal(s, s');
    hide Inv, HeldUp, SenderOk;
    match ev {
      case Act(e) =>
        ActShape(s, e);
        hide Happen;
        ActBringsNoNews(s.snd, e, c, n, slot);
      case ArriveAtReceiver => ReceiverShape(s);
      case ArriveAtSender =>
        HeldTakes(s, n, slot);
        SenderShape(s);
        hide Happen;
        AnswerBringsNoNews(s.snd, s.toS[0], c, n, slot);
    }
  }
}
