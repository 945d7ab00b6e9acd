/** What a slot that is used any number of times keeps on a network that only delays, as long as no
    call on that slot has failed in the middle of its message. Other slots do not matter. */
module FifoOrder {
  import opened Bytes
  import opened Sending
  import opened Recving
  import opened Reassembly
  import opened Rounds
  import opened Status
  import opened Endpoint
  import opened FifoNetwork

  /** No call on slot k has failed in the middle of its message: it had written nothing, or everything. */
  ghost predicate Clean(calls: seq<Call>, k: nat) {
    forall c :: 0 <= c < |calls| && calls[c].slot == k && calls[c].pc == Returned(false) ==>
      calls[c].sent == 0 || calls[c].sent == calls[c].Count()
  }

  /* ---- what was sent, in order ---- */

  ghost predicate IsFinal(e: Entry) { e.id + 1 == SegmentCount(Wire(e.message)) }

  /** e may be written after a: the next segment of the same call, or the first of a later call once
      the earlier transfer is complete. */
  ghost predicate Follows(a: Entry, e: Entry) {
    if e.id == 0 then IsFinal(a) && a.call < e.call
    else a == Entry(e.call, e.message, e.id - 1)
  }

  /** Every transfer is written once, in order, without gaps, and whole before the next begins. */
  ghost predicate Chain(out: seq<Entry>) {
    && (forall j :: 0 <= j < |out| ==> Sendable(out[j].message) && out[j].id < SegmentCount(Wire(out[j].message)))
    && (out != [] ==> out[0].id == 0)
    && (forall j :: 0 < j < |out| ==> Follows(out[j - 1], out[j]))
  }

  /** The messages whose final segment is among these, in order. */
  ghost function MessagesIn(out: seq<Entry>): seq<bytes> {
    if out == [] then []
    else MessagesIn(out[..|out| - 1]) + if IsFinal(Last(out)) then [Last(out).message] else []
  }

  /** The messages of the calls on slot k that wrote all their segments, in the order the calls began. */
  ghost function FullySent(calls: seq<Call>, k: nat): seq<bytes> {
    if calls == [] then []
    else
      FullySent(calls[..|calls| - 1], k) + Contribution(Last(calls), k)
  }

  ghost function Contribution(call: Call, k: nat): seq<bytes> {
    if call.slot == k && call.sent == call.Count() then [call.message] else []
  }

  /** What call c still has to write is exactly what it has not written. */
  ghost predicate SendsInOrder(call: Call) {
    var n := call.Count();
    && Sendable(call.message)
    && call.sent <= n
    && (call.pc.Begun? ==> call.sent == 0)
    && (call.pc.Writing? ==>
          && call.pc.ids == Range(call.sent, call.sent + |call.pc.ids|)
          && 1 <= call.sent + |call.pc.ids| <= n
          && !call.pc.after.ToError?
          && (call.pc.after.ToWait? ==> call.sent + |call.pc.ids| == n))
    && (call.pc.Asking? || call.pc.Querying? ==> 1 <= call.sent)
    && (call.pc.Waiting? || call.pc == Returned(true) ==> call.sent == n)
  }

  /** Where the history of slot k stands with respect to the calls on it. */
  ghost predicate Tip(calls: seq<Call>, out: seq<Entry>, k: nat) {
    if out == [] then forall c :: 0 <= c < |calls| && calls[c].slot == k ==> calls[c].sent == 0
    else
      var e := Last(out);
      && e.call < |calls| && calls[e.call].slot == k && calls[e.call].message == e.message
      && calls[e.call].sent == e.id + 1
      && forall c :: e.call < c < |calls| && calls[c].slot == k ==> calls[c].sent == 0
  }

  /** The receiver of slot k has accepted the arrived segments of the transfer it is in. */
  ghost predicate RecvAt(recving: Option<Recv>, arrived: seq<Entry>) {
    if arrived == [] then recving.None?
    else recving.Some? && Tracks(recving.value, Wire(Last(arrived).message), Below(Last(arrived).id + 1))
  }

  /** The status a receiver must report that has everything call c has sent. */
  ghost function Expected(call: Call): Status {
    if call.sent == call.Count() then Completed
    else NotCompleted(ToU16(call.sent - 1), [])
  }

  /** A segment that its call, on slot k, has written. */
  ghost predicate IsOf(calls: seq<Call>, e: Entry, k: nat) {
    && e.call < |calls| && calls[e.call].slot == k && calls[e.call].message == e.message
    && e.id < calls[e.call].sent
  }

  ghost predicate Owned(calls: seq<Call>, out: seq<Entry>, k: nat) {
    forall j :: 0 <= j < |out| ==> IsOf(calls, out[j], k)
  }

  /** The calls on slot k and the segments they wrote, in order. */
  ghost predicate InOrder(calls: seq<Call>, out: seq<Entry>, k: nat) {
    && (forall c :: 0 <= c < |calls| && calls[c].slot == k ==> SendsInOrder(calls[c]))
    && Chain(out) && Tip(calls, out, k) && Owned(calls, out, k) && MessagesIn(out) == FullySent(calls, k)
  }

  /* ---- lists ---- */

  lemma MessagesInSnoc(out: seq<Entry>, e: Entry)
    ensures MessagesIn(out + [e]) == MessagesIn(out) + if IsFinal(e) then [e.message] else []
  {
    assert (out + [e])[..|out|] == out;
  }

  lemma {:induction false} FullySentAlike(calls: seq<Call>, calls': seq<Call>, k: nat)
    requires |calls| == |calls'|
    requires forall c :: 0 <= c < |calls| ==>
               calls'[c].slot == calls[c].slot && (calls[c].slot == k ==> SameProgress(calls[c], calls'[c]))
    ensures FullySent(calls', k) == FullySent(calls, k)
  {
    if calls != [] {
      FullySentAlike(calls[..|calls| - 1], calls'[..|calls| - 1], k);
      assert Contribution(Last(calls), k) == Contribution(Last(calls'), k);
    }
  }

  /** Later calls on other slots add nothing. */
  lemma {:induction false} FullySentUpTo(calls: seq<Call>, k: nat, c: nat)
    requires c < |calls| && forall x :: c < x < |calls| ==> calls[x].slot != k
    ensures FullySent(calls, k) == FullySent(calls[..c + 1], k)
  {
    if c + 1 < |calls| {
      var init := calls[..|calls| - 1];
      FullySentUpTo(init, k, c);
      assert init[..c + 1] == calls[..c + 1];
      assert Contribution(Last(calls), k) == [];
    } else {
      assert calls[..c + 1] == calls;
    }
  }

  /** When the latest call on slot k writes its last segment, its message joins the end. */
  lemma FullySentGrows(calls: seq<Call>, calls': seq<Call>, c: nat, k: nat)
    requires c < |calls| == |calls'| && calls[c].slot == calls'[c].slot == k && Contribution(calls[c], k) == []
    requires forall x :: 0 <= x < |calls| && x != c ==> calls'[x] == calls[x]
    requires forall x :: c < x < |calls| ==> calls[x].slot != k
    ensures FullySent(calls', k) == FullySent(calls, k) + Contribution(calls'[c], k)
  {
    FullySentUpTo(calls, k, c);
    FullySentUpTo(calls', k, c);
    assert calls[..c + 1][..c] == calls[..c] == calls'[..c] == calls'[..c + 1][..c];
    assert FullySent(calls[..c + 1], k) == FullySent(calls[..c], k) + [];
    hide Contribution;
  }

  /* ---- receiver ---- */

  lemma BelowIsFull(w: bytes, m: nat)
    ensures IsFull(w, Below(m)) <==> m >= SegmentCount(w)
  {
    assert m !in Below(m);
  }

  /** The receiver that the next written segment meets has exactly the segments before it. */
  lemma CurrentTracks(recving: Option<Recv>, out: seq<Entry>, eaten: nat)
    requires Chain(out) && eaten < |out| && RecvAt(recving, out[..eaten])
    ensures Tracks(Current(recving), Wire(out[eaten].message), Below(out[eaten].id))
  {
    var e := out[eaten];
    assert Sendable(e.message) && e.id < SegmentCount(Wire(e.message));
    if eaten == 0 {
      SendableIsWire(e.message);
      FreshTracks(Wire(e.message));
      assert e.id == 0 && Below(0) == {};
    } else {
      assert Last(out[..eaten]) == out[eaten - 1] && Follows(out[eaten - 1], e);
      hide Chain, Tracks, SegmentCount, Wire, Follows, Current;
      CurrentAfter(recving.value, out[eaten - 1], e);
    }
  }

  lemma CurrentAfter(r: Recv, a: Entry, e: Entry)
    requires Tracks(r, Wire(a.message), Below(a.id + 1)) && Follows(a, e)
    requires Sendable(e.message) && e.id < SegmentCount(Wire(e.message))
    ensures Tracks(Current(Some(r)), Wire(e.message), Below(e.id))
  {
    hide Tracks, SegmentCount, Wire, IsFull;
    CompletedIsFull(r, Wire(a.message), Below(a.id + 1));
    BelowIsFull(Wire(a.message), a.id + 1);
    if e.id == 0 {
      assert r.completed && Below(0) == {};
      SendableIsWire(e.message);
      FreshTracks(Wire(e.message));
    } else {
      assert a.message == e.message && a.id + 1 == e.id && !r.completed;
    }
  }

  lemma NextSaved(r: Recv, message: bytes, i: u16)
    requires Sendable(message) && i < SegmentCount(Wire(message))
    requires Tracks(r, Wire(message), Below(i))
    ensures r.CanSave(i, Fragment(Wire(message), i))
    ensures Tracks(r.Save(i, Fragment(Wire(message), i)).0, Wire(message), Below(i + 1))
    ensures r.Save(i, Fragment(Wire(message), i)).1
            == if i + 1 == SegmentCount(Wire(message)) then Some(message) else None
  {
    var w := Wire(message);
    SendableIsWire(message);
    BelowIsFull(w, i + 1);
    SaveInserts(r, w, Below(i), i);
    hide Tracks, IsFull;
    assert Below(i) + {i as nat} == Below(i + 1);
    assert (i as nat) !in Below(i);
  }

  /** The next written segment arrives. */
  lemma EntryArrives(recving: Option<Recv>, out: seq<Entry>, eaten: nat)
    requires Chain(out) && eaten < |out| && RecvAt(recving, out[..eaten])
    ensures RecvAt(Take(recving, out[eaten]).0, out[..eaten + 1])
    ensures Take(recving, out[eaten]).1 == if IsFinal(out[eaten]) then Some(out[eaten].message) else None
  {
    var e := out[eaten];
    CurrentTracks(recving, out, eaten);
    assert Sendable(e.message) && e.id < SegmentCount(Wire(e.message));
    hide Tracks, Chain;
    NextSaved(Current(recving), e.message, e.id);
    hide Recv.Save, Recv.CanSave, SegmentCount, Fragment, Wire, Current, Below;
    assert Last(out[..eaten + 1]) == e;
  }

  lemma ChainPrefix(out: seq<Entry>, m: nat)
    requires Chain(out) && m <= |out|
    ensures Chain(out[..m])
  {
    hide Follows;
  }

  lemma LastArrives(init: seq<Entry>, e: Entry)
    requires Chain(init + [e]) && RecvAt(Slot(init).0, init) && Slot(init).1 == MessagesIn(init)
    ensures RecvAt(Slot(init + [e]).0, init + [e]) && Slot(init + [e]).1 == MessagesIn(init + [e])
  {
    var out := init + [e];
    assert out[..|init|] == init && out[..|init| + 1] == out;
    hide Slot, Take, Chain, RecvAt, IsFinal, MessagesIn;
    EntryArrives(Slot(init).0, out, |init|);
    SlotSnoc(init, e);
    MessagesInSnoc(init, e);
    assert MessagesIn(init) + [] == MessagesIn(init);
  }

  /** A history in order leaves the slot with the last transfer's segments, and all messages handed out. */
  lemma {:induction false} ChainIsReceived(out: seq<Entry>)
    requires Chain(out)
    ensures RecvAt(Slot(out).0, out) && Slot(out).1 == MessagesIn(out)
  {
    if out != [] {
      var init := out[..|out| - 1];
      ChainPrefix(out, |out| - 1);
      hide Slot, Chain, RecvAt, MessagesIn;
      ChainIsReceived(init);
      assert init + [Last(out)] == out;
      LastArrives(init, Last(out));
    }
  }

  /** A receiver that has accepted exactly the first m segments says so. */
  lemma StatusOfPrefix(r: Recv, call: Call)
    requires Sendable(call.message) && 1 <= call.sent <= call.Count()
    requires Tracks(r, Wire(call.message), Below(call.sent))
    ensures StatusOf(Some(r), SEND_WINDOW) == Expected(call)
  {
    var w := Wire(call.message);
    SendableIsWire(call.message);
    CountIsExact(w);
    hide Tracks, IsFull, SegmentCount, Wire;
    BelowIsFull(w, call.sent);
    CompletedIsFull(r, w, Below(call.sent));
    if call.sent < call.Count() {
      PrefixShape(r, w, call.sent);
      SmallIsU16(call.sent - 1);
      hide ToU16;
      assert r.MissingFrom(r.nextID) == [];
    }
  }

  lemma SmallIsU16(x: u16)
    ensures ToU16(x) == x
  {
  }

  lemma PrefixShape(r: Recv, w: bytes, m: nat)
    requires Tracks(r, w, Below(m)) && 1 <= m
    ensures r.nextID == m && r.largestOrderID == m - 1
  {
    assert r.nextID !in Below(m) && (r.nextID > m ==> m in Below(m));
    assert m - 1 in Below(m) && Below(m) != {};
    hide SegmentCount, IsFull;
  }

  /* ---- steps of the slot ---- */

  lemma CutRange(lo: nat, n: nat)
    requires lo < n
    ensures var pass := Cut(Range(lo, n), SEND_WINDOW);
            && pass.ids == Range(lo, lo + |pass.ids|) && 1 <= |pass.ids| && lo + |pass.ids| <= n
            && !pass.after.ToError? && (pass.after.ToWait? ==> lo + |pass.ids| == n)
  {
  }

  lemma WriteNextStays(call: Call)
    requires call.pc.Writing? && call.pc.ids != [] && SendsInOrder(call)
    ensures SendsInOrder(call.(pc := Writing(call.pc.ids[1..], call.pc.after), sent := call.sent + 1))
  {
    hide SegmentCount;
    assert Range(call.sent, call.sent + |call.pc.ids|)[1..] == Range(call.sent + 1, call.sent + |call.pc.ids|);
  }

  lemma RegisterStays(call: Call)
    requires call.pc.Begun? && SendsInOrder(call)
    ensures var first := FullRound(call.Count(), SEND_WINDOW);
            SendsInOrder(call.(pc := Writing(first.ids, first.after)))
  {
    SendableIsWire(call.message);
    CountIsExact(Wire(call.message));
    CutRange(0, call.Count());
    hide SegmentCount, Cut;
  }

  lemma NoneMissing(largest: u16, n: nat)
    ensures ResendRound(largest, [], n, SEND_WINDOW) == Cut(Range(ToU16(largest + 1), n), SEND_WINDOW)
  {
    var rest := Range(ToU16(largest + 1), n);
    hide Range, ToU16, Cut;
    assert [] + rest == rest;
  }

  lemma RestRound(sent: nat, n: nat)
    requires 1 <= sent < n < U16_SIZE
    ensures ResendRound(ToU16(sent - 1), [], n, SEND_WINDOW) == Cut(Range(sent, n), SEND_WINDOW)
  {
    SmallIsU16(sent - 1);
    SmallIsU16(sent);
    hide ToU16, ResendRound, Cut, Range;
    NoneMissing(sent - 1, n);
  }

  /** The pass that an expected status leads to is the rest of the message. */
  lemma ExpectedPass(call: Call)
    requires SendsInOrder(call) && call.pc.Querying? && call.sent < call.Count()
    ensures var pass := PassAfter(Expected(call), call.Count());
            SendsInOrder(call.(pc := Writing(pass.ids, pass.after)))
  {
    RestRound(call.sent, call.Count());
    CutRange(call.sent, call.Count());
    hide Cut, ResendRound, SegmentCount;
  }

  /** The latest call on the slot, once it has written, is the one that wrote last. */
  lemma WriterIsTip(calls: seq<Call>, out: seq<Entry>, k: nat, c: nat)
    requires Tip(calls, out, k) && c < |calls| && calls[c].slot == k && calls[c].sent >= 1
    requires forall x :: c < x < |calls| ==> calls[x].slot != k
    ensures out != [] && Last(out).call == c && Last(out).message == calls[c].message
    ensures Last(out).id + 1 == calls[c].sent
  {
  }

  /** What a reply tells a call. */
  lemma StatusIsExpected(calls: seq<Call>, out: seq<Entry>, k: nat, c: nat)
    requires InOrder(calls, out, k) && c < |calls| && calls[c].slot == k
    requires calls[c].pc.Querying? || calls[c].sent >= 1
    requires forall x :: c < x < |calls| ==> calls[x].slot != k
    ensures StatusOf(Slot(out).0, SEND_WINDOW) == Expected(calls[c])
  {
    WriterIsTip(calls, out, k, c);
    ChainIsReceived(out);
    assert SendsInOrder(calls[c]);
    hide Chain, Tip, Tracks, Slot, StatusOf;
    StatusOfPrefix(Slot(out).0.value, calls[c]);
  }

  lemma PcStaysInOrder(call: Call, pc: Pc, recving: Option<Recv>)
    requires SendsInOrder(call) && PcMoves(call, pc, recving)
    requires call.pc.Querying? ==> StatusOf(recving, SEND_WINDOW) == Expected(call)
    ensures SendsInOrder(call.(pc := pc))
  {
    SendableIsWire(call.message);
    CountIsExact(Wire(call.message));
    if call.pc.Begun? {
      RegisterStays(call);
    } else if call.pc.Querying? && call.sent < call.Count() {
      ExpectedPass(call);
    }
    hide StatusOf, PassAfter, FullRound, SegmentCount;
  }

  /** Steps of slot k that write no segment. */
  lemma QuietStepStays(calls: seq<Call>, calls': seq<Call>, out: seq<Entry>, k: nat)
    requires InOrder(calls, out, k) && |calls| == |calls'|
    requires forall c :: 0 <= c < |calls| ==>
               calls'[c].slot == calls[c].slot && (calls[c].slot == k ==> SameProgress(calls[c], calls'[c]))
    requires forall c :: 0 <= c < |calls'| && calls'[c].slot == k ==> SendsInOrder(calls'[c])
    ensures InOrder(calls', out, k)
  {
    hide SendsInOrder, Chain, MessagesIn;
    FullySentAlike(calls, calls', k);
    hide FullySent;
    assert forall e :: IsOf(calls, e, k) ==> IsOf(calls', e, k);
    hide IsOf;
  }

  lemma BeginCalls(calls: seq<Call>, calls': seq<Call>, out: seq<Entry>, k: nat)
    requires |calls'| == |calls| + 1 && calls'[..|calls|] == calls
    requires Last(calls').sent == 0 < Last(calls').Count()
    requires Tip(calls, out, k)
    ensures Tip(calls', out, k) && FullySent(calls', k) == FullySent(calls, k)
  {
    assert forall c :: 0 <= c < |calls| ==> calls'[c] == calls'[..|calls|][c];
    assert Contribution(Last(calls'), k) == [];
  }

  lemma ChainSnoc(out: seq<Entry>, e: Entry)
    requires Chain(out) && Sendable(e.message) && e.id < SegmentCount(Wire(e.message))
    requires if out == [] then e.id == 0 else Follows(Last(out), e)
    ensures Chain(out + [e])
  {
    hide SegmentCount;
    var all := out + [e];
    forall j | 0 < j < |all| ensures Follows(all[j - 1], all[j]) {
      if j < |out| { assert Follows(out[j - 1], out[j]); }
    }
  }

  /** The last segment written on a slot allows the next one of the slot's active call. */
  lemma TipAllows(calls: seq<Call>, out: seq<Entry>, k: nat, c: nat)
    requires InOrder(calls, out, k) && Clean(calls, k) && c < |calls| && calls[c].slot == k && out != []
    requires forall x :: 0 <= x < |calls| && x != c && calls[x].slot == k ==> x < c && !calls[x].Active()
    ensures Follows(Last(out), Entry(c, calls[c].message, calls[c].sent))
  {
    hide SegmentCount, Chain, MessagesIn, FullySent;
    assert SendsInOrder(calls[Last(out).call]);
  }

  /** Call c, the latest on slot k and the only active one, writes the next segment of its pass. */
  ghost predicate WritesAt(calls: seq<Call>, calls': seq<Call>, k: nat, c: nat) {
    && c < |calls| == |calls'| && calls[c].slot == k && CanWrite(calls[c].pc)
    && calls'[c] == calls[c].(pc := Writing(calls[c].pc.ids[1..], calls[c].pc.after), sent := calls[c].sent + 1)
    && (forall x :: 0 <= x < |calls| && x != c ==> calls'[x] == calls[x])
    && (forall x :: 0 <= x < |calls| && x != c && calls[x].slot == k ==> x < c && !calls[x].Active())
  }

  lemma WritesNext(calls: seq<Call>, calls': seq<Call>, out: seq<Entry>, k: nat, c: nat)
    requires InOrder(calls, out, k) && Clean(calls, k) && WritesAt(calls, calls', k, c)
    ensures calls[c].pc.ids[0] == calls[c].sent < calls[c].Count()
    ensures Chain(out + [Entry(c, calls[c].message, calls[c].sent)])
    ensures SendsInOrder(calls'[c])
  {
    assert SendsInOrder(calls[c]);
    WriteNextStays(calls[c]);
    assert calls[c].pc.ids[0] == calls[c].sent;
    if out != [] { TipAllows(calls, out, k, c); }
    hide Clean, SegmentCount, Tip, Owned, MessagesIn, FullySent;
    ChainSnoc(out, Entry(c, calls[c].message, calls[c].sent));
  }

  lemma WriteTotals(calls: seq<Call>, calls': seq<Call>, out: seq<Entry>, k: nat, c: nat)
    requires WritesAt(calls, calls', k, c) && MessagesIn(out) == FullySent(calls, k)
    requires calls[c].sent < calls[c].Count()
    ensures MessagesIn(out + [Entry(c, calls[c].message, calls[c].sent)]) == FullySent(calls', k)
  {
    hide SegmentCount;
    FullySentGrows(calls, calls', c, k);
    MessagesInSnoc(out, Entry(c, calls[c].message, calls[c].sent));
    hide MessagesIn, FullySent;
  }

  lemma WriteOwned(calls: seq<Call>, calls': seq<Call>, out: seq<Entry>, k: nat, c: nat)
    requires WritesAt(calls, calls', k, c) && Owned(calls, out, k) && calls[c].sent < calls[c].Count()
    ensures Owned(calls', out + [Entry(c, calls[c].message, calls[c].sent)], k)
  {
    var all := out + [Entry(c, calls[c].message, calls[c].sent)];
    forall j | 0 <= j < |all| ensures IsOf(calls', all[j], k) {
      if j < |out| { assert IsOf(calls, out[j], k); }
    }
  }

  lemma WriteTip(calls: seq<Call>, calls': seq<Call>, out: seq<Entry>, k: nat, c: nat)
    requires WritesAt(calls, calls', k, c) && Tip(calls, out, k) && calls[c].sent < calls[c].Count()
    ensures Tip(calls', out + [Entry(c, calls[c].message, calls[c].sent)], k)
  {
  }

  lemma WriteStaysInOrder(calls: seq<Call>, calls': seq<Call>, out: seq<Entry>, k: nat, c: nat)
    requires InOrder(calls, out, k) && Clean(calls, k) && WritesAt(calls, calls', k, c)
    ensures InOrder(calls', out + [Entry(c, calls[c].message, calls[c].pc.ids[0])], k)
  {
    WritesNext(calls, calls', out, k, c);
    WriteTotals(calls, calls', out, k, c);
    WriteOwned(calls, calls', out, k, c);
    WriteTip(calls, calls', out, k, c);
    hide Clean, SendsInOrder, SegmentCount, Chain, Tip, Owned, MessagesIn, FullySent;
  }

  lemma BeginStaysInOrder(calls: seq<Call>, calls': seq<Call>, out: seq<Entry>, k: nat)
    requires InOrder(calls, out, k) && BeginsAt(calls, calls', k)
    ensures InOrder(calls', out, k)
  {
    SendableIsWire(Last(calls').message);
    CountIsExact(Wire(Last(calls').message));
    BeginCalls(calls, calls', out, k);
    BeginOwned(calls, calls', out, k);
    hide Chain, MessagesIn, FullySent, Tip, Owned;
    assert forall c :: 0 <= c < |calls| ==> calls'[c] == calls'[..|calls|][c];
  }

  lemma BeginOwned(calls: seq<Call>, calls': seq<Call>, out: seq<Entry>, k: nat)
    requires Owned(calls, out, k) && |calls'| == |calls| + 1 && calls'[..|calls|] == calls
    ensures Owned(calls', out, k)
  {
    forall j | 0 <= j < |out| ensures IsOf(calls', out[j], k) {
      assert IsOf(calls, out[j], k);
      assert calls'[out[j].call] == calls'[..|calls|][out[j].call];
    }
  }

  lemma MoveStaysInOrder(calls: seq<Call>, calls': seq<Call>, out: seq<Entry>, out': seq<Entry>, k: nat, c: nat)
    requires InOrder(calls, out, k) && Clean(calls, k) && MovesAt(calls, calls', out, out', k, c)
    ensures InOrder(calls', out', k)
  {
    if calls'[c] == calls[c].(pc := calls'[c].pc) && out' == out && PcMoves(calls[c], calls'[c].pc, Slot(out).0) {
      if calls[c].pc.Querying? {
        StatusIsExpected(calls, out, k, c);
      }
      hide Slot;
      PcStaysInOrder(calls[c], calls'[c].pc, Slot(out).0);
      hide SendsInOrder, PcMoves, Clean;
      QuietStepStays(calls, calls', out, k);
    } else {
      hide InOrder, Clean;
      assert WritesAt(calls, calls', k, c);
      WriteStaysInOrder(calls, calls', out, k, c);
    }
  }

  /** The slot's own induction step: other slots are free to do anything. */
  lemma SlotStaysInOrder(calls: seq<Call>, calls': seq<Call>, out: seq<Entry>, out': seq<Entry>, k: nat)
    requires InOrder(calls, out, k) && Clean(calls, k) && SlotStep(calls, calls', out, out', k)
    ensures InOrder(calls', out', k)
  {
    hide MovesAt;
    if BeginsAt(calls, calls', k) && out' == out {
      hide InOrder;
      BeginStaysInOrder(calls, calls', out, k);
    } else if RestsAt(calls, calls', k) && out' == out {
      QuietStepStays(calls, calls', out, k);
    } else {
      var c :| MovesAt(calls, calls', out, out', k, c);
      hide InOrder;
      MoveStaysInOrder(calls, calls', out, out', k, c);
    }
  }

  /* ---- every run ---- */

  /** A returned call is final, so a slot that is clean now always was. */
  lemma CleanWas(s: Sys, s': Sys, k: nat)
    requires Next(s, s') && Clean(s'.snd.calls, k)
    ensures Clean(s.snd.calls, k)
  {
    StepIsFinal(s, s');
    hide Next;
  }

  lemma InitInOrder(k: nat)
    requires k < SLOTS
    ensures Shaped(INIT) && InOrder(INIT.snd.calls, INIT.out[k], k)
  {
    InitSlots();
  }

  lemma InOrderIsKept(s: Sys, s': Sys, k: nat)
    requires Inv(s) && Shaped(s') && Next(s, s') && k < SLOTS
    requires Clean(s.snd.calls, k) && InOrder(s.snd.calls, s.out[k], k)
    ensures InOrder(s'.snd.calls, s'.out[k], k)
  {
    StepIsSlotStep(s, s', k);
    hide SlotStep, InOrder, Clean, Next, Inv;
    SlotStaysInOrder(s.snd.calls, s'.snd.calls, s.out[k], s'.out[k], k);
  }

  /** In every reachable state, slot k is in order if it is clean. */
  lemma {:induction false} RunInOrder(run: seq<Sys>, k: nat)
    requires IsRun(run) && |Last(run).snd.askers| < U32_SIZE && k < SLOTS && Clean(Last(run).snd.calls, k)
    ensures Inv(Last(run)) && InOrder(Last(run).snd.calls, Last(run).out[k], k)
  {
    RunInv(run);
    hide Next, Inv, Clean, InOrder;
    if |run| == 1 {
      InitInOrder(k);
    } else {
      var before := run[..|run| - 1];
      var s, s' := Last(before), Last(run);
      assert Next(s, s');
      StepIsFinal(s, s');
      CleanWas(s, s', k);
      RunInOrder(before, k);
      ShapedIs(s');
      InOrderIsKept(s, s', k);
    }
  }

  lemma ShapedIs(s: Sys)
    requires Inv(s)
    ensures Shaped(s)
  {
  }

  /* ---- main results ---- */

  /** Any sequence of messages that reuses a slot: what the receiver delivers from the slot is, in order
      and byte for byte, a prefix of the messages whose calls wrote them out, each once; and it is all of
      them as soon as no segment for the slot is under way. Every call on the slot that returned nil is
      among them. Calls on other slots may fail in any way. */
  lemma DeliversOnceInOrder(run: seq<Sys>, k: nat)
    requires IsRun(run) && |Last(run).snd.askers| < U32_SIZE && k < SLOTS && Clean(Last(run).snd.calls, k)
    ensures var s := Last(run);
            && LogOf(s.log, k) <= FullySent(s.snd.calls, k)
            && (TransOf(s.toR, k) == [] ==> LogOf(s.log, k) == FullySent(s.snd.calls, k))
            && forall c :: 0 <= c < |s.snd.calls| && s.snd.calls[c].slot == k && s.snd.calls[c].pc == Returned(true) ==>
                 s.snd.calls[c].sent == s.snd.calls[c].Count()
  {
    RunInOrder(run, k);
    var s := Last(run);
    assert ArrivedOk(s, k);
    var out, eaten := s.out[k], s.eaten[k];
    ChainPrefix(out, eaten);
    ChainIsReceived(out[..eaten]);
    hide IsRun, Inv, Chain, Tip, RecvAt, Slot;
    MessagesInPrefix(out, eaten);
    if TransOf(s.toR, k) == [] { assert out[..eaten] == out; }
    forall c | 0 <= c < |s.snd.calls| && s.snd.calls[c].slot == k && s.snd.calls[c].pc == Returned(true)
      ensures s.snd.calls[c].sent == s.snd.calls[c].Count()
    {
      assert SendsInOrder(s.snd.calls[c]);
    }
  }

  lemma {:induction false} MessagesInPrefix(out: seq<Entry>, eaten: nat)
    requires eaten <= |out|
    ensures MessagesIn(out[..eaten]) <= MessagesIn(out)
  {
    if eaten == |out| {
      assert out[..eaten] == out;
    } else {
      var init := out[..|out| - 1];
      MessagesInPrefix(init, eaten);
      assert init[..eaten] == out[..eaten];
    }
  }

  /** No segment is ever written twice on a slot, whatever timeouts fire and however late replies come:
      the history is strictly increasing in the call and, within a call, in the segment number. */
  lemma NoDuplicateSend(run: seq<Sys>, k: nat, i: nat, j: nat)
    requires IsRun(run) && |Last(run).snd.askers| < U32_SIZE && k < SLOTS && Clean(Last(run).snd.calls, k)
    requires Shaped(Last(run)) && i < j < |Last(run).out[k]|
    ensures var out := Last(run).out[k];
            out[i].call < out[j].call || (out[i].call == out[j].call && out[i].id < out[j].id)
  {
    RunInOrder(run, k);
    ChainIncreases(Last(run).out[k], i, j);
  }

  lemma {:induction false} ChainIncreases(out: seq<Entry>, i: nat, j: nat)
    requires Chain(out) && i < j < |out|
    ensures out[i].call < out[j].call || (out[i].call == out[j].call && out[i].id < out[j].id)
    decreases j - i
  {
    assert Follows(out[j - 1], out[j]);
    if i < j - 1 {
      ChainIncreases(out, i, j - 1);
    }
  }
}
