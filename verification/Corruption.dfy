/** Whether the message after an abandoned one comes out in order, over all that can happen next. */
module Corruption {
  import opened Bytes
  import opened Sending
  import opened Recving
  import opened Rounds
  import opened Status
  import opened Endpoint
  import opened SenderInvariant
  import opened SendPath
  import opened FifoNetwork
  import opened FifoOrder
  import opened FifoStuck
  import opened FifoRuns
  import opened LateReply
  import opened Leftover

  /** The order ID that the receiver of slot k waits for, once everything written has arrived. */
  ghost function NextID(s: Sys, k: nat): nat
    requires Shaped(s) && k < SLOTS
  {
    if Slot(s.out[k]).0.Some? then Slot(s.out[k]).0.value.nextID else 0
  }

  /** In slot k, call d writes on after call c was abandoned. */
  ghost predicate Drives(s: Sys, k: nat, c: nat, d: nat) {
    && Shaped(s) && k < SLOTS && Abandoned(s.snd.calls, k, c, d) && d < |s.snd.calls| && s.snd.calls[d].pc.Writing?
    && |s.snd.calls[c].message| <= |s.snd.calls[d].message|
  }

  /** While nothing of d has come out, the mixture grows; and since d's message is the longer, a pass that
      ends without completing it was cut short. */
  lemma MixingFacts(slot: Held, rest: Rest, message: bytes, pc: Pc)
    requires Sendable(message) && Stage(slot, rest, Wire(message), pc) && slot.1 == rest.before
    requires |rest.a| <= |Wire(message)|
    ensures rest.Valid() && slot.0.Some?
    ensures var i, b := slot.0.value.nextID, Wire(message);
            && StillMixing(slot, rest, b, pc, i) && rest.j <= i < SegmentCount(rest.a) && i < SegmentCount(b)
            && (pc.Writing? && pc.ids == [] ==> pc.after.ToQuery?)
  {
    var b := Wire(message);
    SendableIsWire(message);
    hide Wire;
    StageIsMixing(slot, rest, b, pc);
    var i: nat :| StillMixing(slot, rest, b, pc, i);
    assert slot.0.value.nextID == i by { AheadNext(slot.0.value, rest, b, i); }
    if i >= SegmentCount(b) { MixedToTheEnd(slot.0.value, rest, b, i); }
    AheadIsShort(slot.0.value, rest, b, i);
  }

  lemma StageIsMixing(slot: Held, rest: Rest, b: bytes, pc: Pc)
    requires Stage(slot, rest, b, pc)
    ensures slot.1 == rest.before ==> exists i: nat :: StillMixing(slot, rest, b, pc, i)
  {
    hide StillMixing;
    if accepted :| Refills(slot, rest, b, pc, accepted) {
      LongerByOne(rest.before, Mixed(rest.a, b, rest.j));
    } else if Repaired(slot, rest, b, pc) {
      var m := Mixed(rest.a, b, rest.j);
      assert |rest.before + [m, b[4..]]| == |rest.before| + 2;
    }
  }

  lemma AheadNext(r: Recv, rest: Rest, b: bytes, i: nat)
    requires rest.Valid() && Ahead(r, rest.a, b, rest.j, i)
    ensures r.nextID == i
  {
  }

  lemma AheadIsShort(r: Recv, rest: Rest, b: bytes, i: nat)
    requires IsWire(b) && rest.Valid() && Ahead(r, rest.a, b, rest.j, i) && i < SegmentCount(b)
    ensures rest.j <= i < SegmentCount(rest.a)
  {
    CountIsExact(b);
    CountIsExact(rest.a);
    hide SegmentCount, Midway;
  }

  /** What one more segment does to the ID waited for. */
  lemma NextAfterWrite(slot: Held, rest: Rest, message: bytes, pc: Pc, e: Entry)
    requires Sendable(message) && slot.0.Some? && StillMixing(slot, rest, Wire(message), pc, slot.0.value.nextID)
    requires pc.Writing? && pc.ids != [] && e.message == message && e.id == pc.ids[0]
    requires Put(slot, e).1 == slot.1
    ensures Put(slot, e).0.Some?
    ensures Put(slot, e).0.value.nextID == if e.id < rest.j then slot.0.value.nextID else e.id + 1
    ensures e.id >= rest.j ==> slot.0.value.nextID == e.id
  {
    var b := Wire(message);
    if e.id < rest.j {
      TakesForRepeat(slot.0.value, rest.a, b, rest.j, e);
    } else {
      TakesNext(slot.0.value, rest.a, message, rest.j, e);
      LongerByOne(slot.1, Mixed(rest.a, b, rest.j));
    }
    hide Take, Wire, SegmentCount, WritesOn, Mixed;
  }

  /* ---- driving the call ---- */

  /** Only call d has moved, or calls on other slots. */
  lemma AbandonedStays(s: Sys, s': Sys, k: nat, c: nat, d: nat)
    requires Inv(s) && Abandoned(s.snd.calls, k, c, d) && d < |s.snd.calls| && s.snd.calls[d].Active()
    requires ReturnedIsFinal(s.snd, s'.snd) && |s'.snd.calls| == |s.snd.calls|
    requires forall x :: 0 <= x < |s.snd.calls| ==> SameCall(s.snd.calls[x], s'.snd.calls[x])
    ensures Abandoned(s'.snd.calls, k, c, d)
  {
    var calls, calls' := s.snd.calls, s'.snd.calls;
    assert ActiveIsLatest(calls);
    hide Inv, SegmentCount;
    assert forall x :: c < x < |calls| && x != d && calls[x].slot == k && calls[x].sent == 0 ==> !calls[x].Active()
      by { LatestIsActive(calls, k, d); }
    forall x | 0 <= x < c && calls'[x].slot == k && calls'[x].pc == Returned(false)
      ensures calls'[x].sent == 0 || calls'[x].sent == calls'[x].Count()
    {
      assert calls[..c][x] == calls[x];
      LatestIsActive(calls, k, d);
    }
    assert Clean(calls'[..c], k);
  }

  /** Only the latest call on a slot is active. */
  lemma LatestIsActive(calls: seq<Call>, k: nat, d: nat)
    requires ActiveIsLatest(calls) && d < |calls| && calls[d].Active() && calls[d].slot == k
    ensures forall x :: 0 <= x < |calls| && x != d && calls[x].slot == k ==> !calls[x].Active()
  {
  }

  ghost predicate NothingOut(s: Sys, k: nat, c: nat)
    requires Shaped(s) && k < SLOTS && c < |s.snd.calls|
  {
    Slot(s.out[k]).1 == FullySent(s.snd.calls[..c], k)
  }

  /** What slot k has handed out, once everything written has arrived. */
  lemma HandOut(run: seq<Sys>, k: nat, c: nat, d: nat) returns (run': seq<Sys>)
    requires IsRun(run) && |Last(run).snd.askers| < U32_SIZE && Drives(Last(run), k, c, d)
    requires !NothingOut(Last(run), k, c)
    ensures Continues(run, run') && Last(run').snd == Last(run).snd
    ensures SameStory(Last(run), Last(run'), k, c, d) && Abandoned(Last(run').snd.calls, k, c, d)
    ensures |LogOf(Last(run').log, k)| > |FullySent(Last(run').snd.calls[..c], k)|
  {
    var s := Last(run);
    RunLeft(run, k, c, d);
    var rest := RestOf(s.snd.calls, k, c);
    hide IsRun, Inv, Slot, Stage, FullySent, LogOf, Rest.Valid, Abandoned;
    StageHandsOut(Slot(s.out[k]), rest, s.snd.calls[d].message, s.snd.calls[d].pc);
    hide Mixed;
    run' := ReceiveAll(run);
    RunInv(run');
    AllReceived(Last(run'), k);
  }

  /** What slot k had handed out when call c failed, and the two messages. */
  ghost predicate SameStory(s: Sys, s': Sys, k: nat, c: nat, d: nat) {
    && c < d < |s.snd.calls| && d < |s'.snd.calls|
    && RestOf(s'.snd.calls, k, c) == RestOf(s.snd.calls, k, c)
    && s'.snd.calls[c].message == s.snd.calls[c].message && s'.snd.calls[d].message == s.snd.calls[d].message
    && s'.snd.calls[c].sent == s.snd.calls[c].sent
  }

  /** The stage of a driven call from which nothing has come out. */
  lemma DrivenFacts(run: seq<Sys>, k: nat, c: nat, d: nat)
    requires IsRun(run) && |Last(run).snd.askers| < U32_SIZE
    requires Drives(Last(run), k, c, d) && NothingOut(Last(run), k, c)
    ensures var s := Last(run);
            var rest, slot := RestOf(s.snd.calls, k, c), Slot(s.out[k]);
            var b, pc := Wire(s.snd.calls[d].message), s.snd.calls[d].pc;
            && Inv(s) && Sendable(s.snd.calls[d].message) && rest.Valid() && slot.0.Some? && slot.1 == rest.before
            && StillMixing(slot, rest, b, pc, NextID(s, k))
            && rest.j <= NextID(s, k) < SegmentCount(rest.a) && NextID(s, k) < SegmentCount(b)
            && (pc.ids == [] ==> pc.after.ToQuery?)
  {
    RunLeft(run, k, c, d);
    var s := Last(run);
    hide IsRun, Inv, Slot, Stage, FullySent, StillMixing, Rest.Valid, SegmentCount;
    MixingFacts(Slot(s.out[k]), RestOf(s.snd.calls, k, c), s.snd.calls[d].message, s.snd.calls[d].pc);
  }

  lemma WriteDrives(s: Sys, s': Sys, k: nat, c: nat, d: nat)
    requires Drives(s, k, c, d) && Shaped(s') && s.snd.calls[d].pc.ids != []
    requires var call := s.snd.calls[d]; var pc := Writing(call.pc.ids[1..], call.pc.after);
             s'.snd.calls == s.snd.calls[d := call.(pc := pc, sent := call.sent + 1)]
    ensures Drives(s', k, c, d) && SameStory(s, s', k, c, d) && s'.snd.calls[..c] == s.snd.calls[..c]
  {
    assert s'.snd.calls[..c] == s.snd.calls[..c];
    hide Shaped, Clean, FullySent, Wire;
  }

  lemma WriteMovesNext(run: seq<Sys>, s': Sys, k: nat, c: nat, d: nat)
    requires IsRun(run) && |Last(run).snd.askers| < U32_SIZE
    requires Drives(Last(run), k, c, d) && NothingOut(Last(run), k, c) && Drives(s', k, c, d) && NothingOut(s', k, c)
    requires s'.snd.calls[..c] == Last(run).snd.calls[..c] && Last(run).snd.calls[d].pc.ids != []
    requires CanWrite(Last(run).snd.calls[d].pc)
    requires var call := Last(run).snd.calls[d];
             s'.out[k] == Last(run).out[k] + [Entry(d, call.message, call.pc.ids[0])]
    ensures var s := Last(run); var x, j := s.snd.calls[d].pc.ids[0], s.snd.calls[c].sent;
            && NextID(s', k) == (if x < j then NextID(s, k) else x + 1)
            && (x >= j ==> NextID(s, k) == x)
  {
    var s := Last(run);
    var call := s.snd.calls[d];
    var e := Entry(d, call.message, call.pc.ids[0]);
    DrivenFacts(run, k, c, d);
    SlotSnoc(s.out[k], e);
    hide Slot, Put, Take, Inv, StillMixing, SegmentCount, Wire, FullySent, Abandoned, IsRun, Shaped;
    NextAfterWrite(Slot(s.out[k]), RestOf(s.snd.calls, k, c), call.message, call.pc, e);
  }

  lemma DrivenCanWrite(run: seq<Sys>, k: nat, c: nat, d: nat)
    requires IsRun(run) && |Last(run).snd.askers| < U32_SIZE
    requires Drives(Last(run), k, c, d) && NothingOut(Last(run), k, c) && Last(run).snd.calls[d].pc.ids != []
    ensures CanWrite(Last(run).snd.calls[d].pc) && Last(run).snd.calls[d].slot == k
  {
    DrivenFacts(run, k, c, d);
    hide Inv, Slot, FullySent, Wire, IsRun, Shaped;
  }

  /** Call d writes one more segment. */
  lemma WriteStep(run: seq<Sys>, k: nat, c: nat, d: nat) returns (run': seq<Sys>)
    requires IsRun(run) && |Last(run).snd.askers| < U32_SIZE
    requires Drives(Last(run), k, c, d) && NothingOut(Last(run), k, c)
    requires Last(run).snd.calls[d].pc.ids != []
    ensures Continues(run, run') && Drives(Last(run'), k, c, d) && SameStory(Last(run), Last(run'), k, c, d)
    ensures Last(run').snd.askers == Last(run).snd.askers && (Open(Last(run)) ==> Open(Last(run')))
    ensures Last(run').snd.calls[d].pc.after == Last(run).snd.calls[d].pc.after
    ensures var s, s' := Last(run), Last(run'); var ids, j := s.snd.calls[d].pc.ids, s.snd.calls[c].sent;
            && s'.snd.calls[d].pc.ids == ids[1..]
            && (NothingOut(s', k, c) ==>
                  && NextID(s', k) == (if ids[0] < j then NextID(s, k) else ids[0] + 1)
                  && (ids[0] >= j ==> NextID(s, k) == ids[0]))
  {
    var s := Last(run);
    DrivenCanWrite(run, k, c, d);
    hide Slot, FullySent, Wire, IsRun, Abandoned, Open;
    run' := WriteOneMore(run, d);
    var s' := Last(run');
    WriteDrives(s, s', k, c, d);
    if NothingOut(s', k, c) {
      WriteMovesNext(run, s', k, c, d);
    }
    hide SameStory, NothingOut, NextID;
  }

  lemma FirstOfPass(i: u16, n: nat)
    requires 1 <= i < n < U16_SIZE
    ensures var pass := PassAfter(NotCompleted(i - 1, []), n); pass.ids != [] && pass.ids[0] == i
  {
    hide ToU16, ResendRound;
    NoneMissing(i - 1, n);
    SmallIsU16(i);
  }

  /** Call d, its pass cut short, queries and is told to go on where the mixture ends. */
  lemma QueryStep(run: seq<Sys>, k: nat, c: nat, d: nat) returns (run': seq<Sys>)
    requires IsRun(run) && |Last(run).snd.askers| + 1 < U32_SIZE && Drives(Last(run), k, c, d)
    requires NothingOut(Last(run), k, c) && Last(run).snd.calls[d].pc.ids == [] && Open(Last(run))
    ensures Continues(run, run') && Drives(Last(run'), k, c, d) && SameStory(Last(run), Last(run'), k, c, d)
    ensures Open(Last(run'))
    ensures |Last(run').snd.askers| == |Last(run).snd.askers| + 1
    ensures NothingOut(Last(run'), k, c) && NextID(Last(run'), k) == NextID(Last(run), k)
    ensures var ids := Last(run').snd.calls[d].pc.ids; ids != [] && ids[0] == NextID(Last(run), k)
  {
    var s, call := Last(run), Last(run).snd.calls[d];
    DrivenFacts(run, k, c, d);
    var b, i, rest := Wire(call.message), NextID(s, k), RestOf(s.snd.calls, k, c);
    AheadStatus(Slot(s.out[k]).0, rest, call.message, i);
    FirstOfPass(i, SegmentCount(b));
    hide Inv, Slot, StillMixing, SegmentCount, Wire, StatusOf, PassAfter, Rest.Valid, NoneJams;
    var run1 := EndsPass(run, d);
    run' := AskAndTake(run1, d);
    var s' := Last(run');
    RunIsFinal(run, run');
    hide ReturnedIsFinal;
    AbandonedStays(s, s', k, c, d);
    StoryStays(s, s', k, c, d);
    hide FullySent, Abandoned, RestOf;
  }

  lemma AheadStatus(recving: Option<Recv>, rest: Rest, message: bytes, i: nat)
    requires Sendable(message) && recving.Some? && rest.Valid()
    requires Ahead(recving.value, rest.a, Wire(message), rest.j, i)
    ensures 1 <= i < U16_SIZE && StatusOf(recving, SEND_WINDOW) == NotCompleted(i - 1, [])
    ensures SegmentCount(Wire(message)) < U16_SIZE
  {
    MixingStatus(recving.value, rest.a, Wire(message), rest.j, i);
  }

  lemma StoryStays(s: Sys, s': Sys, k: nat, c: nat, d: nat)
    requires Inv(s) && c < d < |s.snd.calls| == |s'.snd.calls| && s.snd.calls[d].Active() && s.snd.calls[d].slot == k
    requires s.snd.calls[c].slot == k && ReturnedIsFinal(s.snd, s'.snd)
    requires forall x :: 0 <= x < |s.snd.calls| ==> SameCall(s.snd.calls[x], s'.snd.calls[x])
    ensures SameStory(s, s', k, c, d)
  {
    LatestIsActive(s.snd.calls, k, d);
    hide Inv;
    RestStays(s.snd.calls, s'.snd.calls, k, c);
  }

  /** How far the mixture is from complete. */
  ghost function Missing(s: Sys, k: nat, c: nat): nat
    requires Shaped(s) && k < SLOTS && c < |s.snd.calls|
  {
    var n := SegmentCount(Wire(s.snd.calls[c].message));
    if NextID(s, k) < n then n - NextID(s, k) else 0
  }

  /** A pass that still repeats, one that is over, one that goes on. */
  ghost function Rank(ids: seq<int>, j: nat): nat {
    if ids == [] then 1 else if ids[0] < j then 2 else 0
  }

  lemma StoriesJoin(a: Sys, b: Sys, c': Sys, k: nat, c: nat, d: nat)
    requires SameStory(a, b, k, c, d) && SameStory(b, c', k, c, d)
    ensures SameStory(a, c', k, c, d)
  {
    hide RestOf;
  }

  /** What is left to do, most important first: to complete the mixture, to get past the repetitions or to
      a query, to write. */
  ghost predicate Nearer(s: Sys, s': Sys, k: nat, c: nat, d: nat)
    requires Drives(s, k, c, d) && Drives(s', k, c, d)
  {
    var m, m' := Missing(s, k, c), Missing(s', k, c);
    var ids, ids' := s.snd.calls[d].pc.ids, s'.snd.calls[d].pc.ids;
    var rank, rank' := Rank(ids, s.snd.calls[c].sent), Rank(ids', s'.snd.calls[c].sent);
    && (m' < m || (m' == m && (rank' < rank || (rank' == rank && |ids'| < |ids|))))
    && |s'.snd.askers| + 2 * m' + rank' <= |s.snd.askers| + 2 * m + rank
  }

  lemma RankAtMost(ids: seq<int>, j: nat)
    ensures Rank(ids, j) <= 2 && (ids == [] ==> Rank(ids, j) == 1)
  {
  }

  lemma DriveOneStep(run: seq<Sys>, k: nat, c: nat, d: nat) returns (run': seq<Sys>)
    requires IsRun(run) && Drives(Last(run), k, c, d) && NothingOut(Last(run), k, c) && Open(Last(run))
    requires var s := Last(run);
             |s.snd.askers| + 2 * Missing(s, k, c) + Rank(s.snd.calls[d].pc.ids, s.snd.calls[c].sent) < U32_SIZE
    ensures Continues(run, run') && Drives(Last(run'), k, c, d) && SameStory(Last(run), Last(run'), k, c, d)
    ensures Open(Last(run'))
    ensures NothingOut(Last(run'), k, c) ==> Nearer(Last(run), Last(run'), k, c, d)
  {
    var s := Last(run);
    DrivenFacts(run, k, c, d);
    PassIsRange(s, k, c, d);
    DrivesFacts(s, k, c, d);
    hide IsRun, Slot, Inv, StillMixing, SegmentCount, Wire, NothingOut, Abandoned, FullySent, LogOf, Missing, Nearer;
    hide Open;
    if s.snd.calls[d].pc.ids == [] {
      RankAtMost(s.snd.calls[d].pc.ids, s.snd.calls[c].sent);
      run' := QueryStep(run, k, c, d);
      QueryIsNearer(s, Last(run'), k, c, d);
    } else {
      run' := WriteStep(run, k, c, d);
      if NothingOut(Last(run'), k, c) { WriteIsNearer(s, Last(run'), k, c, d); }
    }
  }

  lemma QueryIsNearer(s: Sys, s': Sys, k: nat, c: nat, d: nat)
    requires Drives(s, k, c, d) && Drives(s', k, c, d) && SameStory(s, s', k, c, d)
    requires |s'.snd.askers| == |s.snd.askers| + 1 && NextID(s', k) == NextID(s, k) && s.snd.calls[d].pc.ids == []
    requires var ids := s'.snd.calls[d].pc.ids; ids != [] && ids[0] == NextID(s, k) >= s.snd.calls[c].sent
    ensures Nearer(s, s', k, c, d)
  {
    hide NextID, Abandoned, RestOf, SegmentCount, Wire;
  }

  lemma WriteIsNearer(s: Sys, s': Sys, k: nat, c: nat, d: nat)
    requires Drives(s, k, c, d) && Drives(s', k, c, d) && SameStory(s, s', k, c, d)
    requires |s'.snd.askers| == |s.snd.askers| && NextID(s, k) < SegmentCount(Wire(s.snd.calls[c].message))
    requires var ids, ids', j := s.snd.calls[d].pc.ids, s'.snd.calls[d].pc.ids, s.snd.calls[c].sent;
             && ids != [] && ids' == ids[1..] && (|ids| > 1 ==> ids[1] == ids[0] + 1)
             && NextID(s', k) == (if ids[0] < j then NextID(s, k) else ids[0] + 1)
             && (ids[0] >= j ==> NextID(s, k) == ids[0])
    ensures Nearer(s, s', k, c, d)
  {
    hide NextID, Abandoned, RestOf, SegmentCount, Wire;
  }

  /** Driven on, the call completes the mixture, and it is handed out. */
  lemma Drive(run: seq<Sys>, k: nat, c: nat, d: nat) returns (run': seq<Sys>)
    requires IsRun(run) && Drives(Last(run), k, c, d) && Open(Last(run))
    requires var s := Last(run);
             |s.snd.askers| + 2 * Missing(s, k, c) + Rank(s.snd.calls[d].pc.ids, s.snd.calls[c].sent) < U32_SIZE
    ensures Continues(run, run') && SameStory(Last(run), Last(run'), k, c, d)
    ensures Abandoned(Last(run').snd.calls, k, c, d)
    ensures |LogOf(Last(run').log, k)| > |FullySent(Last(run').snd.calls[..c], k)|
    decreases Missing(Last(run), k, c), Rank(Last(run).snd.calls[d].pc.ids, Last(run).snd.calls[c].sent),
              |Last(run).snd.calls[d].pc.ids|
  {
    assert run != [];
    DrivesFacts(Last(run), k, c, d);
    hide IsRun, Slot, NothingOut, FullySent, LogOf, Missing, Rank, Abandoned, Open;
    if !NothingOut(Last(run), k, c) {
      run' := HandOut(run, k, c, d);
    } else {
      var run1 := DriveOneStep(run, k, c, d);
      if NothingOut(Last(run1), k, c) {
        run' := Drive(run1, k, c, d);
      } else {
        run' := HandOut(run1, k, c, d);
      }
      StoriesJoin(Last(run), Last(run1), Last(run'), k, c, d);
    }
  }

  lemma PassIsRange(s: Sys, k: nat, c: nat, d: nat)
    requires Shaped(s) && k < SLOTS && c < |s.snd.calls| && d < |s.snd.calls| && s.snd.calls[d].pc.Writing?
    requires StillMixing(Slot(s.out[k]), RestOf(s.snd.calls, k, c), Wire(s.snd.calls[d].message), s.snd.calls[d].pc,
                         NextID(s, k))
    ensures var ids := s.snd.calls[d].pc.ids; |ids| > 1 ==> ids[1] == ids[0] + 1
  {
    hide Slot;
    var ids := s.snd.calls[d].pc.ids;
    if ids != [] { RangeTail(ids); }
  }

  /** Call d is in its first pass. */
  ghost predicate Begins(s: Sys, k: nat, c: nat, d: nat)
    requires Drives(s, k, c, d)
  {
    var call := s.snd.calls[d];
    var ids, end := call.pc.ids, Min(call.Count(), SEND_WINDOW);
    if ids == [] then NothingOut(s, k, c) ==> NextID(s, k) >= end else ids[0] + |ids| == end
  }

  lemma FirstPassGoesOn(s: Sys, s': Sys, k: nat, c: nat, d: nat)
    requires Drives(s, k, c, d) && Drives(s', k, c, d) && Begins(s, k, c, d) && SameStory(s, s', k, c, d)
    requires NextID(s, k) >= s.snd.calls[c].sent
    requires var ids, ids', j := s.snd.calls[d].pc.ids, s'.snd.calls[d].pc.ids, s.snd.calls[c].sent;
             && ids != [] && ids' == ids[1..] && (|ids| > 1 ==> ids[1] == ids[0] + 1)
             && (NothingOut(s', k, c) ==> NextID(s', k) == if ids[0] < j then NextID(s, k) else ids[0] + 1)
    ensures Begins(s', k, c, d)
  {
    hide NextID, NothingOut, Abandoned, RestOf, SegmentCount, Wire;
  }

  /** A message whose first pass is long enough is driven without a query until the mixture is complete. */
  lemma DriveFirst(run: seq<Sys>, k: nat, c: nat, d: nat) returns (run': seq<Sys>)
    requires IsRun(run) && |Last(run).snd.askers| < U32_SIZE && Drives(Last(run), k, c, d) && Begins(Last(run), k, c, d)
    requires Last(run).snd.calls[c].Count() <= SEND_WINDOW
    ensures Continues(run, run') && SameStory(Last(run), Last(run'), k, c, d)
    ensures Abandoned(Last(run').snd.calls, k, c, d)
    ensures |LogOf(Last(run').log, k)| > |FullySent(Last(run').snd.calls[..c], k)|
    decreases |Last(run).snd.calls[d].pc.ids|
  {
    var s := Last(run);
    DrivesFacts(s, k, c, d);
    if !NothingOut(s, k, c) {
      hide IsRun, Drives, NothingOut, SameStory, LogOf, FullySent, Begins;
      run' := HandOut(run, k, c, d);
    } else {
      DrivenFacts(run, k, c, d);
      PassIsRange(s, k, c, d);
      hide IsRun, Slot, Inv, StillMixing, SegmentCount, Wire, Abandoned, FullySent, LogOf, NextID, NothingOut;
      assert s.snd.calls[d].pc.ids != [];
      var run1 := WriteStep(run, k, c, d);
      FirstPassGoesOn(s, Last(run1), k, c, d);
      SameCount(s, Last(run1), k, c, d);
      hide Drives, Begins;
      run' := DriveFirst(run1, k, c, d);
      StoriesJoin(s, Last(run1), Last(run'), k, c, d);
    }
  }

  lemma SameCount(s: Sys, s': Sys, k: nat, c: nat, d: nat)
    requires SameStory(s, s', k, c, d)
    ensures c < |s.snd.calls| && c < |s'.snd.calls| && s'.snd.calls[c].Count() == s.snd.calls[c].Count()
  {
    hide SegmentCount, Wire, RestOf;
  }

  /* ---- without an answer ---- */

  /** A slot that is free after call c was abandoned on it. */
  ghost predicate IsAbandonedSlot(s: Sys, k: nat, c: nat) {
    Shaped(s) && k < SLOTS && s.snd.sl[k].None? && Abandoned(s.snd.calls, k, c, |s.snd.calls|)
  }

  /** What a call's first pass writes does not complete a mixture that needs more. */
  lemma BelowNeed(slot: Held, rest: Rest, message: bytes, pc: Pc, e: Entry)
    requires Sendable(message) && Stage(slot, rest, Wire(message), pc) && slot.1 == rest.before
    requires pc.Writing? && pc.ids != [] && e.message == message && e.id == pc.ids[0] < SEND_WINDOW
    requires SegmentCount(rest.a) > SEND_WINDOW
    ensures Put(slot, e).1 == slot.1
  {
    var b := Wire(message);
    StageIsMixing(slot, rest, b, pc);
    var i: nat :| StillMixing(slot, rest, b, pc, i);
    if e.id < rest.j {
      assert i == rest.j;
      TakesForRepeat(slot.0.value, rest.a, b, rest.j, e);
    } else {
      TakesNext(slot.0.value, rest.a, message, rest.j, e);
    }
    hide Take, Wire, SegmentCount, Mixed, Stage;
  }

  lemma StepHoldsBack(calls: seq<Call>, calls': seq<Call>, out: seq<Entry>, out': seq<Entry>, k: nat, c: nat, d: nat)
    requires LeftInv(calls, out, k, c, d) && Abandoned(calls, k, c, d) && Abandoned(calls', k, c, d)
    requires SlotStep(calls, calls', out, out', k) && calls[c].Count() > SEND_WINDOW
    requires d < |calls| ==> InFirstPass(calls[d])
    requires Slot(out).1 == FullySent(calls[..c], k)
    ensures Slot(out').1 == FullySent(calls'[..c], k)
  {
    hide CallMoves, Clean, Stage, StillMixing, SegmentCount, Slot, Wire, InFirstPass;
    if BeginsAt(calls, calls', k) && out' == out {
      assert calls'[..c] == calls[..c] by { assert calls'[..|calls|][..c] == calls[..c]; }
    } else if RestsAt(calls, calls', k) && out' == out {
      RestStays(calls, calls', k, c);
    } else {
      var m: nat :| MovesAt(calls, calls', out, out', k, m);
      RestStays(calls, calls', k, c);
      hide FullySent;
      if out' != out {
        WritesBelow(calls, calls', out, out', k, c, d, m);
      }
    }
  }

  lemma WritesBelow(calls: seq<Call>, calls': seq<Call>, out: seq<Entry>, out': seq<Entry>,
                    k: nat, c: nat, d: nat, m: nat)
    requires LeftInv(calls, out, k, c, d) && Abandoned(calls', k, c, d) && calls[c].Count() > SEND_WINDOW
    requires MovesAt(calls, calls', out, out', k, m) && out' != out
    requires d < |calls| ==> InFirstPass(calls[d])
    requires Slot(out).1 == FullySent(calls[..c], k)
    ensures Slot(out').1 == Slot(out).1
  {
    assert m == d;
    var call := calls[d];
    var e := Entry(d, call.message, call.pc.ids[0]);
    SlotSnoc(out, e);
    assert Slot(out') == Put(Slot(out), e);
    hide Slot, Put, PcMoves, Stage, SegmentCount, Wire, FullySent, Clean;
    BelowNeed(Slot(out), RestOf(calls, k, c), call.message, call.pc, e);
  }

  /** Call c had already failed before the step. */
  lemma AbandonedBefore(calls: seq<Call>, calls': seq<Call>, out: seq<Entry>, out': seq<Entry>, k: nat, c: nat, d: nat)
    requires SlotStep(calls, calls', out, out', k) && Abandoned(calls', k, c, d) && c < |calls| && !calls[c].Active()
    ensures Abandoned(calls, k, c, d)
  {
    hide SegmentCount, CallMoves, Wire;
    if BeginsAt(calls, calls', k) && out' == out {
      assert forall x :: 0 <= x < |calls| ==> calls'[x] == calls'[..|calls|][x];
      assert calls'[..c] == calls[..c];
    } else if RestsAt(calls, calls', k) && out' == out {
      assert forall x :: 0 <= x < c ==> calls[..c][x] == calls[x] && calls'[..c][x] == calls'[x];
    } else {
      var m: nat :| MovesAt(calls, calls', out, out', k, m);
      SentGrows(calls[m], calls'[m], m, out, out');
      assert c < m && calls[..c] == calls'[..c];
    }
  }

  /** While no answer gets through, a slot on which a message of more than one pass was abandoned hands out
      nothing of the next one that is as long. */
  lemma {:induction false} RunHoldsBack(run: seq<Sys>, m: nat, k: nat, c: nat, d: nat)
    requires IsRun(run) && m < |run| && |Last(run).snd.askers| < U32_SIZE && k < SLOTS
    requires Shaped(run[m]) && IsAbandonedSlot(run[m], k, c) && HeldUp(run[m], |run[m].snd.askers|, None)
    requires Abandoned(Last(run).snd.calls, k, c, d) && |run[m].snd.calls| <= d
    requires run[m].snd.calls[c].Count() > SEND_WINDOW
    requires d < |Last(run).snd.calls| ==> Last(run).snd.calls[d].Count() > SEND_WINDOW
    ensures Shaped(Last(run)) && NothingOut(Last(run), k, c)
  {
    RunInv(run);
    InvFacts(Last(run));
    if m + 1 == |run| {
      NothingOutYet(run, k, c, d);
    } else {
      var before := run[..|run| - 1];
      var s, s' := Last(before), Last(run);
      assert Next(s, s') && before[m] == run[m];
      hide Next, Inv, Shaped, NothingOut, HeldUp, Abandoned, IsAbandonedSlot;
      StepIsFinal(s, s');
      RunInv(before);
      InvFacts(s);
      StepIsSlotStep(s, s', k);
      StillAbandoned(before, m, k, c);
      hide SlotStep;
      AbandonedBefore(s.snd.calls, s'.snd.calls, s.out[k], s'.out[k], k, c, d);
      MessageWas(s.snd.calls, s'.snd.calls, s.out[k], s'.out[k], k, d);
      RunHoldsBack(before, m, k, c, d);
      RunLeft(before, k, c, d);
      RunHeld(before, m, |run[m].snd.askers|, None);
      hide LeftInv, AllUnheard;
      NextIsInFirstPass(s, |run[m].snd.calls|, d, |run[m].snd.askers|);
      hide InFirstPass;
      NothingOutStays(s, s', k, c, d);
    }
  }

  lemma NothingOutStays(s: Sys, s': Sys, k: nat, c: nat, d: nat)
    requires Shaped(s) && Shaped(s') && k < SLOTS && LeftInv(s.snd.calls, s.out[k], k, c, d)
    requires Abandoned(s.snd.calls, k, c, d) && Abandoned(s'.snd.calls, k, c, d) && NothingOut(s, k, c)
    requires SlotStep(s.snd.calls, s'.snd.calls, s.out[k], s'.out[k], k)
    requires s.snd.calls[c].Count() > SEND_WINDOW && (d < |s.snd.calls| ==> InFirstPass(s.snd.calls[d]))
    ensures NothingOut(s', k, c)
  {
    hide SlotStep, LeftInv, InFirstPass, SegmentCount, Wire, Slot, FullySent;
    StepHoldsBack(s.snd.calls, s'.snd.calls, s.out[k], s'.out[k], k, c, d);
  }

  lemma NextIsInFirstPass(s: Sys, from: nat, d: nat, n: nat)
    requires AllUnheard(s, from, n, None) && from <= d
    requires d < |s.snd.calls| ==> s.snd.calls[d].Count() > SEND_WINDOW
    ensures d < |s.snd.calls| ==> InFirstPass(s.snd.calls[d])
  {
    if d < |s.snd.calls| { assert Unheard(s.snd.calls[d], n, None); }
  }

  lemma MessageWas(calls: seq<Call>, calls': seq<Call>, out: seq<Entry>, out': seq<Entry>, k: nat, d: nat)
    requires SlotStep(calls, calls', out, out', k)
    requires d < |calls| ==> calls[d].slot == k
    requires d < |calls'| ==> calls'[d].Count() > SEND_WINDOW
    ensures d < |calls| ==> calls[d].Count() > SEND_WINDOW
  {
    hide SegmentCount, Wire, SlotStep;
    if d < |calls| {
      OneCallStep(calls, calls', out, out', k, d);
      MovesKeepMessage(calls[d], calls'[d], d, out, out');
    }
  }

  lemma NothingOutYet(run: seq<Sys>, k: nat, c: nat, d: nat)
    requires IsRun(run) && |Last(run).snd.askers| < U32_SIZE && IsAbandonedSlot(Last(run), k, c)
    ensures NothingOut(Last(run), k, c)
  {
    RunLeft(run, k, c, |Last(run).snd.calls|);
    hide IsRun, Inv, FullySent, Slot, Abandoned;
  }

  /** Call c had failed, and its message is what it was. */
  lemma StillAbandoned(run: seq<Sys>, m: nat, k: nat, c: nat)
    requires IsRun(run) && m < |run| && IsAbandonedSlot(run[m], k, c)
    ensures c < |Last(run).snd.calls| && !Last(run).snd.calls[c].Active()
    ensures Last(run).snd.calls[c].message == run[m].snd.calls[c].message
  {
    var first := run[..m + 1];
    assert first <= run && Last(first) == run[m];
    hide IsRun;
    RunIsFinal(first, run);
  }

  /* ---- result ---- */

  /** Call d, begun since, is the next to write on slot k after the abandoned call c, and sends message. */
  ghost predicate IsNext(s: Sys, s': Sys, k: nat, c: nat, d: nat, message: bytes) {
    && |s.snd.calls| <= d < |s'.snd.calls| && Abandoned(s'.snd.calls, k, c, d) && s'.snd.calls[d].message == message
  }

  ghost predicate KeepsOrderOf(s: Sys, k: nat, c: nat, message: bytes) {
    c < |s.snd.calls| && LogOf(s.log, k) <= FullySent(s.snd.calls[..c], k) + [message]
  }

  /** However the run continues, when a call with this message is the next to write on slot k, what the
      slot hands out is in order, each message once. */
  ghost predicate KeepsOrder(run: seq<Sys>, k: nat, c: nat, message: bytes)
    requires run != []
  {
    forall run', d ::
      Continues(run, run') && IsNext(Last(run), Last(run'), k, c, d, message) ==>
        KeepsOrderOf(Last(run'), k, c, message)
  }

  lemma InOrderOrNothing(log: seq<bytes>, before: seq<bytes>, abandoned: bytes, message: bytes, j: nat)
    requires Sendable(abandoned) && Sendable(message) && 1 <= j < SegmentCount(Wire(abandoned))
    requires HandsOut(log, before, abandoned, message, j)
    requires |abandoned| > |message| || Compatible(abandoned, message, j)
    ensures log <= before + [message]
  {
    hide Mixed, Wire, SegmentCount, Compatible;
    if |abandoned| <= |message| && |log| <= |before| {
      var m := Mixed(Wire(abandoned), Wire(message), j);
      assert before <= before + [m, message];
    }
  }

  lemma AbandonedIsFinal(run: seq<Sys>, run': seq<Sys>, k: nat, c: nat)
    requires Continues(run, run') && Abandoned(Last(run).snd.calls, k, c, |Last(run).snd.calls|)
    ensures c < |Last(run').snd.calls| && Last(run').snd.calls[c].message == Last(run).snd.calls[c].message
    ensures Last(run').snd.calls[c].sent == Last(run).snd.calls[c].sent
  {
    hide IsRun;
    RunIsFinal(run, run');
  }

  lemma CompatibleKeepsOrder(run: seq<Sys>, k: nat, c: nat, message: bytes)
    requires IsRun(run) && IsAbandonedSlot(Last(run), k, c) && Sendable(message)
    requires var call := Last(run).snd.calls[c];
             |call.message| > |message| || Compatible(call.message, message, call.sent)
    ensures KeepsOrder(run, k, c, message)
  {
    forall run', d | Continues(run, run') && IsNext(Last(run), Last(run'), k, c, d, message)
      ensures KeepsOrderOf(Last(run'), k, c, message)
    {
      AbandonedIsFinal(run, run', k, c);
      var s' := Last(run');
      hide Compatible;
      AfterAbandoned(run', k, c, d);
      hide IsRun, HandsOut, LogOf, FullySent, SegmentCount, Wire;
      InOrderOrNothing(LogOf(s'.log, k), FullySent(s'.snd.calls[..c], k), s'.snd.calls[c].message, message,
                       s'.snd.calls[c].sent);
    }
  }

  /** The next call on the slot has begun to send a message that is not shorter. */
  lemma NextCallBegins(run: seq<Sys>, k: nat, c: nat, message: bytes) returns (run': seq<Sys>, d: nat)
    requires IsRun(run) && |Last(run).snd.askers| < U32_SIZE && IsAbandonedSlot(Last(run), k, c) && Sendable(message)
    requires |Last(run).snd.calls[c].message| <= |message|
    ensures Continues(run, run') && Drives(Last(run'), k, c, d) && |Last(run).snd.calls| <= d
    ensures Last(run').snd.askers == Last(run).snd.askers && Last(run').snd.calls[d].message == message
    ensures Last(run').snd.calls[c].Count() == Last(run).snd.calls[c].Count()
    ensures Begins(Last(run'), k, c, d) && (Open(Last(run)) ==> Open(Last(run')))
  {
    var s := Last(run);
    FirstPassIs(message);
    hide IsRun, SegmentCount, FullRound, Open, Wire;
    var run1 := FillLower(run, k);
    d := |Last(run1).snd.calls|;
    assert Open(s) ==> Open(Last(run1)) by {
      MoreCallsGiveUpNothing(s.snd, Last(run1).snd);
      hide SameGivenUp;
      SameOpen(s, Last(run1));
    }
    run' := BeginCall(run1, message);
    var calls, calls' := s.snd.calls, Last(run').snd.calls;
    assert forall x :: 0 <= x < |calls| ==> calls'[x] == calls[x];
    assert calls'[..c] == calls[..c];
    hide Clean;
    assert Abandoned(calls', k, c, d);
  }

  lemma FirstPassIs(message: bytes)
    requires Sendable(message)
    ensures var n := SegmentCount(Wire(message)); var ids := FullRound(n, SEND_WINDOW).ids;
            ids != [] && ids[0] == 0 && |ids| == Min(n, SEND_WINDOW)
  {
    SendableIsWire(message);
    CountIsExact(Wire(message));
  }

  lemma MissingAtMost(s: Sys, k: nat, c: nat)
    requires Shaped(s) && k < SLOTS && c < |s.snd.calls|
    ensures Missing(s, k, c) < U16_SIZE
  {
    hide Slot;
  }

  /** A message that is not shorter can be driven until something comes out, if answers get through or
      the mixture needs none. */
  lemma MixtureComesOut(run: seq<Sys>, k: nat, c: nat, message: bytes) returns (run': seq<Sys>, d: nat)
    requires IsRun(run) && |Last(run).snd.askers| + 2 * U16_SIZE < U32_SIZE
    requires IsAbandonedSlot(Last(run), k, c) && Sendable(message) && |Last(run).snd.calls[c].message| <= |message|
    requires Open(Last(run)) || Last(run).snd.calls[c].Count() <= SEND_WINDOW
    ensures Continues(run, run') && IsNext(Last(run), Last(run'), k, c, d, message)
    ensures |LogOf(Last(run').log, k)| > |FullySent(Last(run').snd.calls[..c], k)|
  {
    var run1;
    hide IsRun, Drives, Abandoned, IsAbandonedSlot, Begins, Open, SegmentCount, Wire;
    run1, d := NextCallBegins(run, k, c, message);
    var s1 := Last(run1);
    DrivesFacts(s1, k, c, d);
    MissingAtMost(s1, k, c);
    RankAtMost(s1.snd.calls[d].pc.ids, s1.snd.calls[c].sent);
    hide Missing, Rank, LogOf, FullySent;
    if Open(Last(run)) { run' := Drive(run1, k, c, d); } else { run' := DriveFirst(run1, k, c, d); }
    StoryFacts(s1, Last(run'), k, c, d);
  }

  lemma DrivesFacts(s: Sys, k: nat, c: nat, d: nat)
    requires Drives(s, k, c, d)
    ensures Shaped(s) && k < SLOTS && c < d < |s.snd.calls| && s.snd.calls[d].pc.Writing?
  {
  }

  lemma StoryFacts(s: Sys, s': Sys, k: nat, c: nat, d: nat)
    requires SameStory(s, s', k, c, d)
    ensures d < |s.snd.calls| && d < |s'.snd.calls| && s'.snd.calls[d].message == s.snd.calls[d].message
  {
  }

  /** When no answer gets through, a message as long as one that took more than one pass never completes
      the mixture. */
  lemma HeldKeepsOrder(run: seq<Sys>, k: nat, c: nat, message: bytes)
    requires IsRun(run) && |Last(run).snd.askers| < U32_SIZE && IsAbandonedSlot(Last(run), k, c) && Sendable(message)
    requires !Open(Last(run)) && Last(run).snd.calls[c].Count() > SEND_WINDOW
    requires |Last(run).snd.calls[c].message| <= |message|
    ensures KeepsOrder(run, k, c, message)
  {
    NotOpenIsHeld(run);
    RunLeft(run, k, c, |Last(run).snd.calls|);
    CountGrows(Last(run).snd.calls[c].message, message);
    hide Open, HeldUp, Inv, LeftInv, SegmentCount, Wire, IsRun, IsAbandonedSlot, NothingOut;
    forall run', d | Continues(run, run') && IsNext(Last(run), Last(run'), k, c, d, message)
      ensures KeepsOrderOf(Last(run'), k, c, message)
    {
      assert run'[|run| - 1] == Last(run);
      RunHoldsBack(run', |run| - 1, k, c, d);
      RunInv(run');
      NothingOutIsInOrder(Last(run'), k, c, message);
    }
  }

  lemma CountGrows(a: bytes, b: bytes)
    requires 0 < |a| <= |b| && Sendable(b)
    ensures SegmentCount(Wire(a)) <= SegmentCount(Wire(b))
  {
    SendableIsWire(a);
    SendableIsWire(b);
    CountIsExact(Wire(a));
    assert |Wire(a)| == |a| + 4 && |Wire(b)| == |b| + 4;
    hide SegmentCount, Wire, EndOf, IsWire;
    CountOrder(Wire(a), Wire(b), 0);
  }

  lemma NothingOutIsInOrder(s: Sys, k: nat, c: nat, message: bytes)
    requires Inv(s) && Shaped(s) && k < SLOTS && c < |s.snd.calls| && NothingOut(s, k, c)
    ensures KeepsOrderOf(s, k, c, message)
  {
    assert ArrivedOk(s, k);
    hide Inv, LogOf, Slot, FullySent;
    SlotPrefix(s.out[k], s.eaten[k]);
  }

  /** Take any reachable state in which slot k is free, call c has failed on it in the middle of its
      message, the first to do so, and nothing has been written on it since. However the run goes on, the
      next message on the slot leaves its deliveries in order, each message once, if and only if it is
      shorter than the abandoned one, and then it is never delivered, or the two are compatible, or the
      abandoned one needs a query and no query can be answered any more. */
  lemma AbandonedTransferIff(run: seq<Sys>, k: nat, c: nat, message: bytes)
    requires IsRun(run) && |Last(run).snd.askers| + 2 * U16_SIZE < U32_SIZE
    requires IsAbandonedSlot(Last(run), k, c) && Sendable(message)
    ensures var call := Last(run).snd.calls[c];
            KeepsOrder(run, k, c, message)
            <==> || |call.message| > |message| || Compatible(call.message, message, call.sent)
                 || (call.Count() > SEND_WINDOW && !Open(Last(run)))
  {
    var call := Last(run).snd.calls[c];
    if |call.message| > |message| || Compatible(call.message, message, call.sent) {
      CompatibleKeepsOrder(run, k, c, message);
    } else if call.Count() > SEND_WINDOW && !Open(Last(run)) {
      hide Compatible, SegmentCount, Wire, Open;
      HeldKeepsOrder(run, k, c, message);
    } else {
      hide Open, KeepsOrder, Compatible;
      LosesOrder(run, k, c, message);
    }
  }

  lemma LosesOrder(run: seq<Sys>, k: nat, c: nat, message: bytes)
    requires IsRun(run) && |Last(run).snd.askers| + 2 * U16_SIZE < U32_SIZE
    requires IsAbandonedSlot(Last(run), k, c) && Sendable(message)
    requires Open(Last(run)) || Last(run).snd.calls[c].Count() <= SEND_WINDOW
    requires var call := Last(run).snd.calls[c];
             |call.message| <= |message| && !Compatible(call.message, message, call.sent)
    ensures !KeepsOrder(run, k, c, message)
  {
    hide Open;
    var run', d := MixtureComesOut(run, k, c, message);
    AbandonedIsFinal(run, run', k, c);
    hide Compatible;
    AfterAbandoned(run', k, c, d);
    hide IsRun, LogOf, FullySent, SegmentCount, Wire, Mixed;
    var log, before := LogOf(Last(run').log, k), FullySent(Last(run').snd.calls[..c], k);
    assert log <= before + [message] ==> log == before + [message];
    assert !KeepsOrderOf(Last(run'), k, c, message);
  }

  /* ---- an instance ---- */

  lemma TwoSegments(message: bytes)
    requires |message| == 1383
    ensures Sendable(message) && SegmentCount(Wire(message)) == 2
    ensures FullRound(SegmentCount(Wire(message)), 64) == Round([0, 1], ToWait)
  {
    assert Range(0, 2) == [0, 1];
  }

  /** A call writes the first of two segments and fails. */
  lemma CallIsAbandoned(message: bytes) returns (run: seq<Sys>)
    requires |message| == 1383
    ensures IsRun(run) && |Last(run).snd.askers| == 0 && IsAbandonedSlot(Last(run), 0, 0)
    ensures Last(run).snd.calls[..0] == []
    ensures Last(run).snd.calls[0].message == message && Last(run).snd.calls[0].sent == 1
  {
    run := [INIT];
    InitSlots();
    TwoSegments(message);
    hide IsRun;
    run := BeginCall(run, message);
    var begun := Call(message, 0, true, 0, Writing([0, 1], ToWait), false);
    assert Last(run).snd.calls == [begun];
    run := WriteOneMore(run, 0);
    assert [0, 1][1..] == [1];
    assert Last(run).snd.calls == [begun.(pc := Writing([1], ToWait), sent := 1)];
    FailMove(Last(run).snd, 0, false);
    run := ExtendAct(run, Fail(0, false));
    hide SegmentCount, FullRound;
  }

  lemma OnesAndTwos() returns (ones: bytes, twos: bytes)
    ensures |ones| == |twos| == 1383
    ensures IsWire(Wire(ones)) && 1 < SegmentCount(Wire(ones))
    ensures Mixed(Wire(ones), Wire(twos), 1) != ones && Mixed(Wire(ones), Wire(twos), 1) != twos
  {
    ones, twos := seq(1383, i => 1), seq(1383, i => 2);
    TwoSegments(ones);
    TwoSegments(twos);
    SendableIsWire(ones);
    var a, b := Wire(ones), Wire(twos);
    var mixed := Mixed(a, b, 1);
    assert mixed == a[4..EndOf(a, 1)] + b[EndOf(b, 1)..EndOf(b, 2)];
    assert mixed[0] == ones[0] == 1 && twos[0] == 2;
    assert mixed[1382] == b[1386] == twos[1382] == 2 && ones[1382] == 1;
  }

  /** A run: one segment of a message of 1383 ones is written, the call fails, and a message of 1383 twos
      is sent on the same slot. The first thing the slot hands out is neither. */
  lemma AbandonedTransferCorrupts() returns (run: seq<Sys>, ones: bytes, twos: bytes, c: nat, d: nat)
    ensures IsRun(run) && c < d < |Last(run).snd.calls|
    ensures Last(run).snd.calls[c].message == ones && Last(run).snd.calls[d].message == twos
    ensures var log := LogOf(Last(run).log, 0); log != [] && log[0] != ones && log[0] != twos
  {
    ones, twos := OnesAndTwos();
    c := 0;
    run := CallIsAbandoned(ones);
    var run0 := run;
    TwoSegments(twos);
    hide IsAbandonedSlot, IsRun, SegmentCount;
    assert IsAbandonedSlot(Last(run0), 0, 0) && Abandoned(Last(run0).snd.calls, 0, 0, |Last(run0).snd.calls|)
      by { AbandonedSlotFacts(Last(run0), 0, 0); }
    run, d := MixtureComesOut(run0, 0, 0, twos);
    AbandonedIsFinal(run0, run, 0, 0);
    AfterAbandoned(run, 0, 0, d);
    FirstHandedOut(LogOf(Last(run).log, 0), ones, twos, Last(run).snd.calls);
  }

  lemma AbandonedSlotFacts(s: Sys, k: nat, c: nat)
    requires IsAbandonedSlot(s, k, c)
    ensures Abandoned(s.snd.calls, k, c, |s.snd.calls|)
  {
  }

  lemma FirstHandedOut(log: seq<bytes>, ones: bytes, twos: bytes, calls: seq<Call>)
    requires Sendable(ones) && Sendable(twos) && 1 < SegmentCount(Wire(ones)) && |ones| <= |twos| && calls != []
    requires |log| > |FullySent(calls[..0], 0)| && HandsOut(log, FullySent(calls[..0], 0), ones, twos, 1)
    ensures log != [] && log[0] == Mixed(Wire(ones), Wire(twos), 1)
  {
    hide Mixed, SegmentCount, Wire, Compatible;
    assert calls[..0] == [] && FullySent([], 0) == [];
  }

  const LONG: nat := 88704

  lemma LongTakesTwoPasses(message: bytes)
    requires |message| == LONG
    ensures Sendable(message) && SegmentCount(Wire(message)) == 65
    ensures FullRound(SegmentCount(Wire(message)), SEND_WINDOW) == Round(Range(0, 64), ToQuery)
  {
  }

  /** A query has been given up and is under way; then a call writes the first of 65 segments and fails. */
  lemma LongIsAbandoned(m: bytes, message: bytes) returns (run: seq<Sys>)
    requires IsShort(m) && |message| == LONG
    ensures IsRun(run) && |Last(run).snd.askers| == 1 && IsAbandonedSlot(Last(run), 0, 1) && !Open(Last(run))
    ensures Last(run).snd.calls[1].message == message && Last(run).snd.calls[1].sent == 1
  {
    run := QueryIsGivenUp(m);
    LongTakesTwoPasses(message);
    ShortIsOneSegment(m);
    hide IsRun, SegmentCount, FullRound, Wire, IsShort;
    var failed := Last(run).snd.calls[0];
    assert FreeSlot(Last(run).snd.sl) == 0;
    run := BeginCall(run, message);
    assert Last(run).snd.calls[0] == failed;
    run := WriteOneMore(run, 1);
    var s := Last(run);
    FailMove(s.snd, 1, false);
    run := ExtendAct(run, Fail(1, false));
    var s' := Last(run);
    assert s'.snd.calls[..1] == [failed] && failed.sent == failed.Count();
    assert s'.toR[1] == Query(0, 1) && Jams(s'.snd, s'.toR[1]);
  }

  /** A message of 65 segments has been abandoned after the first, another of that length that begins
      differently follows, and the slot still never hands out anything out of order: to complete the
      mixture takes an answer, and none gets through. */
  lemma SilenceKeepsOrder(m: bytes, abandoned: bytes, message: bytes) returns (run: seq<Sys>)
    requires IsShort(m) && |abandoned| == |message| == LONG && abandoned[0] != message[0]
    ensures IsRun(run) && IsAbandonedSlot(Last(run), 0, 1) && Last(run).snd.calls[1].message == abandoned
    ensures !Compatible(abandoned, message, Last(run).snd.calls[1].sent) && KeepsOrder(run, 0, 1, message)
  {
    run := LongIsAbandoned(m, abandoned);
    LongTakesTwoPasses(abandoned);
    LongTakesTwoPasses(message);
    hide IsRun, SegmentCount, FullRound, Wire, IsShort, IsAbandonedSlot, Open, KeepsOrder;
    AbandonedTransferIff(run, 0, 1, message);
  }
}
