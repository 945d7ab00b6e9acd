/** What every step of the sending half keeps, whatever the network does. */
module SenderInvariant {
  import opened Bytes
  import opened Sending
  import opened Rounds
  import opened Status
  import opened Endpoint
  import IdPool

  /** Active calls and occupied slots correspond one to one. */
  ghost predicate SlotsOk(s: Sender) {
    && (forall k :: 0 <= k < |s.sl| && s.sl[k].Some? ==>
          s.sl[k].value < |s.calls| && s.calls[s.sl[k].value].slot == k && s.calls[s.sl[k].value].Active())
    && (forall c :: 0 <= c < |s.calls| && s.calls[c].Active() ==>
          s.calls[c].slot < |s.sl| && s.sl[s.calls[c].slot] == Some(c))
  }

  /** Request ID i was drawn by the i-th asking call, and by no other. */
  ghost predicate RequestsOk(s: Sender) {
    && s.requestID == |s.askers|
    && (forall i :: 0 <= i < |s.askers| ==> s.askers[i] < |s.calls|)
    && (forall id :: id in s.requests ==> 1 <= id <= |s.askers| && s.requests[id] == s.askers[id - 1])
    && (forall c :: 0 <= c < |s.calls| && s.calls[c].pc.Querying? ==>
          1 <= s.calls[c].pc.id <= |s.askers| && s.askers[s.calls[c].pc.id - 1] == c)
  }

  /** `begun` counts the calls on a slot as far as it matters: none, exactly one, or more. */
  ghost predicate HistoryOk(s: Sender)
    requires WellShaped(s)
  {
    && (forall c :: 0 <= c < |s.calls| ==> Sendable(s.calls[c].message) && s.begun[s.calls[c].slot] >= 1)
    && (forall c, c' :: 0 <= c < c' < |s.calls| && s.calls[c].slot == s.calls[c'].slot ==>
          s.begun[s.calls[c].slot] >= 2)
    && (forall k :: k in s.slWait ==> s.calls[s.slWait[k]].slot == k)
  }

  ghost predicate SenderOk(s: Sender) {
    WellShaped(s) && SlotsOk(s) && RequestsOk(s) && HistoryOk(s)
  }

  /** Steps never move a call to another slot, change its message, or forget a drawn ID. */
  ghost predicate Extends(s: Sender, s': Sender) {
    && |s.calls| <= |s'.calls| && s.askers <= s'.askers
    && forall c :: 0 <= c < |s.calls| ==> SameCall(s.calls[c], s'.calls[c])
  }

  ghost predicate SameCall(a: Call, b: Call) {
    a.slot == b.slot && a.message == b.message && a.first == b.first
  }

  /** Only call c changes, it frees its slot when it returns, and it registers itself at most in its
      own slot; no request is added. */
  ghost predicate LocalStep(s: Sender, s': Sender, c: nat) {
    && c < |s.calls| == |s'.calls| && s'.begun == s.begun && s'.askers == s.askers && s'.requestID == s.requestID
    && SameCall(s.calls[c], s'.calls[c])
    && (forall x :: 0 <= x < |s.calls| && x != c ==> s'.calls[x] == s.calls[x])
    && s.calls[c].slot < |s.sl|
    && s'.sl == (if s.calls[c].Active() && !s'.calls[c].Active() then s.sl[s.calls[c].slot := None] else s.sl)
    && (s.calls[c].pc.Returned? ==> s'.calls[c].pc == s.calls[c].pc && s'.calls[c].sent == s.calls[c].sent)
    && (s'.calls[c].pc.Querying? ==> s'.calls[c].pc == s.calls[c].pc)
    && (forall id :: id in s'.requests ==> id in s.requests && s'.requests[id] == s.requests[id])
    && (forall k :: k in s'.slWait ==>
          (k in s.slWait && s'.slWait[k] == s.slWait[k]) || (k == s.calls[c].slot && s'.slWait[k] == c))
  }

  lemma LocalSlots(s: Sender, s': Sender, c: nat)
    requires SlotsOk(s) && LocalStep(s, s', c)
    ensures SlotsOk(s')
  {
  }

  lemma LocalRequests(s: Sender, s': Sender, c: nat)
    requires RequestsOk(s) && LocalStep(s, s', c)
    ensures RequestsOk(s')
  {
  }

  lemma LocalHistory(s: Sender, s': Sender, c: nat)
    requires WellShaped(s) && HistoryOk(s) && LocalStep(s, s', c)
    ensures WellShaped(s') && HistoryOk(s') && Extends(s, s')
  {
    assert forall x :: 0 <= x < |s.calls| ==> SameCall(s.calls[x], s'.calls[x]);
  }

  lemma LocalStepKeeps(s: Sender, s': Sender, c: nat)
    requires SenderOk(s) && LocalStep(s, s', c)
    ensures SenderOk(s') && Extends(s, s')
  {
    LocalSlots(s, s', c);
    LocalRequests(s, s', c);
    LocalHistory(s, s', c);
  }

  lemma FailIsLocal(s: Sender, c: nat, forget: bool)
    requires WellShaped(s) && Enabled(s, Fail(c, forget))
    ensures LocalStep(s, SendStep(s, Fail(c, forget)).0, c)
  {
  }

  lemma EndPassIsLocal(s: Sender, c: nat)
    requires WellShaped(s) && Enabled(s, EndPass(c))
    ensures LocalStep(s, SendStep(s, EndPass(c)).0, c)
  {
    var after := s.calls[c].pc.after;
    assert SendStep(s, EndPass(c)).0
           == if after.ToError? then s.Return(c, false) else s.Goto(c, if after.ToQuery? then Asking else Waiting);
    hide SendStep;
  }

  lemma WriteIsLocal(s: Sender, c: nat)
    requires WellShaped(s) && Enabled(s, WriteNext(c))
    ensures LocalStep(s, SendStep(s, WriteNext(c)).0, c)
  {
    hide Fragment, Wire;
  }

  lemma SendStepIsLocal(s: Sender, e: SendEvent)
    requires WellShaped(s) && Enabled(s, e) && !e.Begin? && !e.Ask?
    ensures LocalStep(s, SendStep(s, e).0, e.c)
  {
    hide IdPool.IsNextID, FullRound;
    if e.Fail? {
      hide SendStep, LocalStep;
      FailIsLocal(s, e.c, e.forget);
    } else if e.EndPass? {
      hide SendStep, LocalStep;
      EndPassIsLocal(s, e.c);
    } else if e.WriteNext? {
      hide SendStep, LocalStep;
      WriteIsLocal(s, e.c);
    }
  }

  lemma ReplyIsLocal(s: Sender, id: u32, status: Status)
    requires WellShaped(s) && id in s.requests
    ensures LocalStep(s, OnReply(s, id, status), s.requests[id])
  {
  }

  lemma ReceivedIsLocal(s: Sender, slot: u16)
    requires WellShaped(s) && slot in s.slWait
    ensures LocalStep(s, OnReceived(s, slot), s.slWait[slot])
  {
  }

  lemma BeginSlots(s: Sender, message: bytes)
    requires WellShaped(s) && SlotsOk(s) && Enabled(s, Begin(message))
    ensures SlotsOk(SendStep(s, Begin(message)).0)
  {
  }

  lemma BeginRequests(s: Sender, message: bytes)
    requires WellShaped(s) && RequestsOk(s) && Enabled(s, Begin(message))
    ensures RequestsOk(SendStep(s, Begin(message)).0)
  {
  }

  lemma BeginHistory(s: Sender, message: bytes)
    requires WellShaped(s) && HistoryOk(s) && Enabled(s, Begin(message))
    ensures var s' := SendStep(s, Begin(message)).0;
            WellShaped(s') && HistoryOk(s') && Extends(s, s')
  {
    hide IdPool.IsNextID;
  }

  /** While fewer than 2^32 IDs have been drawn the next one is new. */
  lemma NextRequestID(s: Sender, id: u32)
    requires RequestsOk(s) && |s.askers| + 1 < U32_SIZE
    requires IdPool.IsNextID(s.requestID, 1, s.requests.Keys, id)
    ensures id == |s.askers| + 1
  {
    var d: nat :| IdPool.IsFreeAt(s.requestID, 1, s.requests.Keys, id, d);
    assert IdPool.StepID(s.requestID, 1, 1) !in s.requests.Keys;
  }

  lemma AskRequests(s: Sender, c: nat, id: u32)
    requires WellShaped(s) && RequestsOk(s) && Enabled(s, Ask(c, id)) && |s.askers| + 1 < U32_SIZE
    ensures RequestsOk(SendStep(s, Ask(c, id)).0)
  {
    NextRequestID(s, id);
    hide IdPool.IsNextID;
  }

  lemma AskSlots(s: Sender, c: nat, id: u32)
    requires WellShaped(s) && SlotsOk(s) && Enabled(s, Ask(c, id))
    ensures SlotsOk(SendStep(s, Ask(c, id)).0)
  {
    hide IdPool.IsNextID;
  }

  lemma AskHistory(s: Sender, c: nat, id: u32)
    requires WellShaped(s) && HistoryOk(s) && Enabled(s, Ask(c, id))
    ensures var s' := SendStep(s, Ask(c, id)).0;
            WellShaped(s') && HistoryOk(s') && Extends(s, s')
  {
    assert SendStep(s, Ask(c, id)).0
           == s.(requests := s.requests[id := c], requestID := id, askers := s.askers + [c]).Goto(c, Querying(id));
    hide SendStep, IdPool.IsNextID;
  }

  lemma SendStepKeeps(s: Sender, e: SendEvent)
    requires SenderOk(s) && Enabled(s, e) && |SendStep(s, e).0.askers| < U32_SIZE
    ensures SenderOk(SendStep(s, e).0) && Extends(s, SendStep(s, e).0)
  {
    if e.Begin? {
      BeginSlots(s, e.message);
      BeginRequests(s, e.message);
      BeginHistory(s, e.message);
    } else if e.Ask? {
      AskSlots(s, e.c, e.id);
      AskRequests(s, e.c, e.id);
      AskHistory(s, e.c, e.id);
    } else {
      SendStepIsLocal(s, e);
      LocalStepKeeps(s, SendStep(s, e).0, e.c);
    }
  }

  lemma AnswerKeeps(s: Sender, p: Packet)
    requires SenderOk(s)
    ensures SenderOk(OnAnswer(s, p)) && Extends(s, OnAnswer(s, p))
  {
    if p.Reply? && p.id in s.requests {
      ReplyIsLocal(s, p.id, p.status);
      LocalStepKeeps(s, OnAnswer(s, p), s.requests[p.id]);
    } else if p.Received? && p.slot in s.slWait {
      ReceivedIsLocal(s, p.slot);
      LocalStepKeeps(s, OnAnswer(s, p), s.slWait[p.slot]);
    }
  }

  /** Queries and replies carry the ID of a request made for their slot. */
  ghost predicate AskedFor(snd: Sender, slot: u16, id: u32) {
    1 <= id <= |snd.askers| && snd.askers[id - 1] < |snd.calls| && snd.calls[snd.askers[id - 1]].slot == slot
  }

  lemma AskedForStays(s: Sender, s': Sender)
    requires Extends(s, s')
    ensures forall slot: u16, id: u32 :: AskedFor(s, slot, id) ==> AskedFor(s', slot, id)
  {
    forall slot: u16, id: u32 | AskedFor(s, slot, id) ensures AskedFor(s', slot, id) {
      assert s'.askers[id - 1] == s.askers[id - 1];
    }
  }

  /** A returned call stays returned, and a new call starts on a slot that was free. */
  ghost predicate CallsFrom(s: Sender, s': Sender)
    requires WellShaped(s) && WellShaped(s')
  {
    && |s.calls| <= |s'.calls|
    && (forall c :: 0 <= c < |s.calls| ==>
          && SameCall(s.calls[c], s'.calls[c])
          && (s.calls[c].pc.Returned? ==> s'.calls[c].pc == s.calls[c].pc)
          && (s.calls[c].Active() ==> s'.begun[s.calls[c].slot] == s.begun[s.calls[c].slot]))
    && (forall c :: |s.calls| <= c < |s'.calls| ==>
          s'.calls[c].Active() && (s'.calls[c].first ==> s'.begun[s'.calls[c].slot] == 1))
  }

  /** A returned call is final. */
  ghost predicate ReturnedIsFinal(s: Sender, s': Sender) {
    && |s.calls| <= |s'.calls| && |s.askers| <= |s'.askers|
    && forall c :: 0 <= c < |s.calls| && s.calls[c].pc.Returned? ==>
         s'.calls[c].pc == s.calls[c].pc && s'.calls[c].sent == s.calls[c].sent
         && SameCall(s.calls[c], s'.calls[c])
  }

  lemma LocalIsFinal(s: Sender, s': Sender, c: nat)
    requires LocalStep(s, s', c)
    ensures ReturnedIsFinal(s, s')
  {
  }

  lemma SendStepIsFinal(s: Sender, e: SendEvent)
    requires WellShaped(s) && Enabled(s, e)
    ensures ReturnedIsFinal(s, SendStep(s, e).0)
  {
    hide IdPool.IsNextID;
    if !e.Begin? && !e.Ask? {
      SendStepIsLocal(s, e);
      LocalIsFinal(s, SendStep(s, e).0, e.c);
    }
  }

  lemma AnswerIsFinal(s: Sender, p: Packet)
    requires WellShaped(s)
    ensures ReturnedIsFinal(s, OnAnswer(s, p))
  {
    if p.Reply? && p.id in s.requests {
      ReplyIsLocal(s, p.id, p.status);
      LocalIsFinal(s, OnAnswer(s, p), s.requests[p.id]);
    } else if p.Received? && p.slot in s.slWait {
      ReceivedIsLocal(s, p.slot);
      LocalIsFinal(s, OnAnswer(s, p), s.slWait[p.slot]);
    }
  }

  lemma LocalCallsFrom(s: Sender, s': Sender, c: nat)
    requires WellShaped(s) && WellShaped(s') && LocalStep(s, s', c)
    ensures CallsFrom(s, s')
  {
  }

  lemma BeginCallsFrom(s: Sender, message: bytes)
    requires WellShaped(s) && SlotsOk(s) && Enabled(s, Begin(message))
    requires WellShaped(SendStep(s, Begin(message)).0)
    ensures CallsFrom(s, SendStep(s, Begin(message)).0)
  {
  }

  lemma AskCallsFrom(s: Sender, c: nat, id: u32)
    requires WellShaped(s) && Enabled(s, Ask(c, id)) && WellShaped(SendStep(s, Ask(c, id)).0)
    ensures CallsFrom(s, SendStep(s, Ask(c, id)).0)
  {
    hide IdPool.IsNextID;
  }

  lemma SendStepCallsFrom(s: Sender, e: SendEvent)
    requires WellShaped(s) && SlotsOk(s) && Enabled(s, e) && WellShaped(SendStep(s, e).0)
    ensures CallsFrom(s, SendStep(s, e).0)
  {
    if e.Begin? {
      BeginCallsFrom(s, e.message);
    } else if e.Ask? {
      AskCallsFrom(s, e.c, e.id);
    } else {
      SendStepIsLocal(s, e);
      LocalCallsFrom(s, SendStep(s, e).0, e.c);
    }
  }

  lemma AnswerCallsFrom(s: Sender, p: Packet)
    requires WellShaped(s) && WellShaped(OnAnswer(s, p))
    ensures CallsFrom(s, OnAnswer(s, p))
  {
    if p.Reply? && p.id in s.requests {
      ReplyIsLocal(s, p.id, p.status);
      LocalCallsFrom(s, OnAnswer(s, p), s.requests[p.id]);
    } else if p.Received? && p.slot in s.slWait {
      ReceivedIsLocal(s, p.slot);
      LocalCallsFrom(s, OnAnswer(s, p), s.slWait[p.slot]);
    }
  }

  /** The state kept for slot j: its occupant, its waiter, its calls and their pending requests. */
  ghost predicate SameSlot(s: Sender, s': Sender, j: nat)
    requires j < SLOTS && WellShaped(s) && WellShaped(s')
  {
    && s'.sl[j] == s.sl[j]
    && (j in s'.slWait <==> j in s.slWait) && (j in s.slWait ==> s'.slWait[j] == s.slWait[j])
    && (forall c :: 0 <= c < |s.calls| && s.calls[c].slot == j ==> c < |s'.calls| && s'.calls[c] == s.calls[c])
    && (forall c :: |s.calls| <= c < |s'.calls| ==> s'.calls[c].slot != j)
    && (forall id :: id in s.requests && s.calls[s.requests[id]].slot == j ==>
          id in s'.requests && s'.requests[id] == s.requests[id])
  }

  /** Only requests of call c and the waiter of its slot are dropped. */
  ghost predicate DropsOwn(s: Sender, s': Sender, c: nat)
    requires c < |s.calls|
  {
    && (forall id :: id in s.requests && s.requests[id] != c ==>
          id in s'.requests && s'.requests[id] == s.requests[id])
    && (forall k :: k in s.slWait && k != s.calls[c].slot ==> k in s'.slWait && s'.slWait[k] == s.slWait[k])
  }

  lemma LocalIsIsolated(s: Sender, s': Sender, c: nat, j: nat)
    requires WellShaped(s) && WellShaped(s') && LocalStep(s, s', c) && DropsOwn(s, s', c)
    requires j < SLOTS && s.calls[c].slot != j
    ensures SameSlot(s, s', j)
  {
  }

  lemma SendStepDropsOwn(s: Sender, e: SendEvent)
    requires WellShaped(s) && RequestsOk(s) && Enabled(s, e) && !e.Begin? && !e.Ask?
    ensures DropsOwn(s, SendStep(s, e).0, e.c)
  {
  }

  lemma BeginIsIsolated(s: Sender, message: bytes, j: nat)
    requires WellShaped(s) && Enabled(s, Begin(message)) && WellShaped(SendStep(s, Begin(message)).0)
    requires j < SLOTS && j != FreeSlot(s.sl)
    ensures SameSlot(s, SendStep(s, Begin(message)).0, j)
  {
  }

  lemma AskIsIsolated(s: Sender, c: nat, id: u32, j: nat)
    requires WellShaped(s) && Enabled(s, Ask(c, id)) && WellShaped(SendStep(s, Ask(c, id)).0)
    requires id !in s.requests
    requires j < SLOTS && j != s.calls[c].slot
    ensures SameSlot(s, SendStep(s, Ask(c, id)).0, j)
  {
    hide IdPool.IsNextID;
  }

  lemma ReplyDropsOwn(s: Sender, id: u32, status: Status)
    requires WellShaped(s) && id in s.requests
    ensures DropsOwn(s, OnReply(s, id, status), s.requests[id])
  {
  }

  lemma ReceivedDropsOwn(s: Sender, slot: u16)
    requires WellShaped(s) && HistoryOk(s) && slot in s.slWait
    ensures DropsOwn(s, OnReceived(s, slot), s.slWait[slot])
  {
  }

  lemma AnswerIsIsolated(s: Sender, p: Packet, j: nat)
    requires WellShaped(s) && HistoryOk(s) && WellShaped(OnAnswer(s, p))
    requires p.Reply? && p.id in s.requests ==> s.calls[s.requests[p.id]].slot == p.slot
    requires j < SLOTS && j != p.slot
    ensures SameSlot(s, OnAnswer(s, p), j)
  {
    if p.Reply? && p.id in s.requests {
      ReplyIsLocal(s, p.id, p.status);
      ReplyDropsOwn(s, p.id, p.status);
      hide OnReply, HistoryOk;
      LocalIsIsolated(s, OnAnswer(s, p), s.requests[p.id], j);
    } else if p.Received? && p.slot in s.slWait {
      ReceivedIsLocal(s, p.slot);
      ReceivedDropsOwn(s, p.slot);
      assert s.calls[s.slWait[p.slot]].slot == p.slot;
      hide OnReceived, HistoryOk;
      LocalIsIsolated(s, OnAnswer(s, p), s.slWait[p.slot], j);
    }
  }
}
