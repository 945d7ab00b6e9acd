/** How many rounds a message takes on the network that only delays, over the steps of `SendMsg`, the
    receiver and the queues. */
module FifoRounds {
  import opened Bytes
  import opened Sending
  import opened Recving
  import opened Rounds
  import opened Status
  import opened Endpoint
  import opened FifoNetwork
  import opened FifoOrder

  /** Call c starts to write: at first, or after a reply. */
  ghost predicate StartsPass(s: Sys, s': Sys, c: nat) {
    && c < |s.snd.calls| && c < |s'.snd.calls|
    && !s.snd.calls[c].pc.Writing? && s'.snd.calls[c].pc.Writing? && s'.snd.calls[c].pc.ids != []
  }

  /** In how many rounds call c has written. */
  ghost function Passes(run: seq<Sys>, c: nat): nat {
    if |run| < 2 then 0
    else Passes(run[..|run| - 1], c) + if StartsPass(run[|run| - 2], run[|run| - 1], c) then 1 else 0
  }

  /** The segments written, and those still to write in this round. */
  ghost function Planned(call: Call): nat {
    call.sent + if call.pc.Writing? then |call.pc.ids| else 0
  }

  /** Every round has taken on the next 64 segments, or what was left, and none was started in vain. */
  ghost predicate InFullRounds(call: Call, passes: nat) {
    && (call.pc != Returned(false) ==> Planned(call) == Min(call.Count(), SEND_WINDOW * passes))
    && (passes > 0 ==> SEND_WINDOW * (passes - 1) < call.Count())
  }

  lemma RangePass(lo: nat, n: nat)
    requires lo <= n
    ensures |Cut(Range(lo, n), SEND_WINDOW).ids| == Min(SEND_WINDOW, n - lo)
  {
  }

  lemma NextPass(call: Call)
    requires SendsInOrder(call) && call.pc.Querying? && call.sent < call.Count()
    ensures |PassAfter(Expected(call), call.Count()).ids| == Min(SEND_WINDOW, call.Count() - call.sent)
  {
    RestRound(call.sent, call.Count());
    RangePass(call.sent, call.Count());
    hide Cut, ResendRound, SegmentCount, Range;
  }

  lemma PcKeepsRounds(call: Call, pc: Pc, recving: Option<Recv>, passes: nat)
    requires SendsInOrder(call) && PcMoves(call, pc, recving) && InFullRounds(call, passes)
    requires call.pc.Querying? ==> StatusOf(recving, SEND_WINDOW) == Expected(call)
    ensures InFullRounds(call.(pc := pc), passes + if !call.pc.Writing? && pc.Writing? && pc.ids != [] then 1 else 0)
  {
    if call.pc.Begun? {
      RangePass(0, call.Count());
    } else if call.pc.Querying? && call.sent < call.Count() {
      NextPass(call);
    }
    hide StatusOf, PassAfter, SegmentCount, Range, Cut;
  }

  lemma WriteKeepsRounds(call: Call, passes: nat)
    requires call.pc.Writing? && call.pc.ids != [] && InFullRounds(call, passes)
    ensures InFullRounds(call.(pc := Writing(call.pc.ids[1..], call.pc.after), sent := call.sent + 1), passes)
  {
    hide SegmentCount;
  }

  lemma StepKeepsRounds(s: Sys, s': Sys, k: nat, c: nat, passes: nat)
    requires Shaped(s) && Shaped(s') && k < SLOTS && InOrder(s.snd.calls, s.out[k], k)
    requires SlotStep(s.snd.calls, s'.snd.calls, s.out[k], s'.out[k], k)
    requires c < |s.snd.calls| && s.snd.calls[c].slot == k && InFullRounds(s.snd.calls[c], passes)
    ensures c < |s'.snd.calls|
    ensures InFullRounds(s'.snd.calls[c], passes + if StartsPass(s, s', c) then 1 else 0)
  {
    var calls, calls', out, out' := s.snd.calls, s'.snd.calls, s.out[k], s'.out[k];
    hide MovesAt;
    if BeginsAt(calls, calls', k) && out' == out {
      assert calls'[c] == calls'[..|calls|][c];
    } else if RestsAt(calls, calls', k) && out' == out {
      assert Rests(calls[c], calls'[c]);
    } else {
      var m: nat :| MovesAt(calls, calls', out, out', k, m);
      MoveKeepsRounds(calls, calls', out, out', k, m, c, passes);
    }
    hide InOrder, SegmentCount;
  }

  lemma MoveKeepsRounds(calls: seq<Call>, calls': seq<Call>, out: seq<Entry>, out': seq<Entry>, k: nat, m: nat, c: nat,
                        passes: nat)
    requires InOrder(calls, out, k) && MovesAt(calls, calls', out, out', k, m)
    requires c < |calls| && calls[c].slot == k && InFullRounds(calls[c], passes)
    ensures c < |calls'|
    ensures var pc, pc' := calls[c].pc, calls'[c].pc;
            InFullRounds(calls'[c], passes + if !pc.Writing? && pc'.Writing? && pc'.ids != [] then 1 else 0)
  {
    if m == c {
      if calls'[c] == calls[c].(pc := calls'[c].pc) && out' == out && PcMoves(calls[c], calls'[c].pc, Slot(out).0) {
        if calls[c].pc.Querying? {
          StatusIsExpected(calls, out, k, c);
        }
        hide Slot;
        assert SendsInOrder(calls[c]);
        PcKeepsRounds(calls[c], calls'[c].pc, Slot(out).0, passes);
      } else {
        hide InOrder, Slot;
        WriteKeepsRounds(calls[c], passes);
      }
    }
    hide InFullRounds, InOrder;
  }

  lemma {:induction false} NoPassesYet(run: seq<Sys>, c: nat)
    requires IsRun(run) && c >= |Last(run).snd.calls|
    ensures Passes(run, c) == 0
  {
    if |run| >= 2 {
      var before := run[..|run| - 1];
      assert Next(Last(before), Last(run));
      StepIsFinal(Last(before), Last(run));
      hide Next;
      NoPassesYet(before, c);
    }
  }

  /** The last step of a run, on a slot that is clean after it. */
  lemma LastStep(run: seq<Sys>, k: nat) returns (before: seq<Sys>)
    requires IsRun(run) && |run| > 1 && |Last(run).snd.askers| < U32_SIZE && k < SLOTS && Clean(Last(run).snd.calls, k)
    ensures before == run[..|run| - 1] && IsRun(before) && Clean(Last(before).snd.calls, k)
    ensures |Last(before).snd.askers| < U32_SIZE && Shaped(Last(before)) && Shaped(Last(run))
    ensures InOrder(Last(before).snd.calls, Last(before).out[k], k)
    ensures SlotStep(Last(before).snd.calls, Last(run).snd.calls, Last(before).out[k], Last(run).out[k], k)
  {
    before := run[..|run| - 1];
    var s, s' := Last(before), Last(run);
    assert Next(s, s');
    hide Next, Inv, InOrder, SlotStep, Clean;
    StepIsFinal(s, s');
    CleanWas(s, s', k);
    RunInOrder(before, k);
    RunInv(run);
    ShapedIs(s);
    ShapedIs(s');
    StepIsSlotStep(s, s', k);
  }

  lemma OneMoreStep(run: seq<Sys>, before: seq<Sys>, c: nat)
    requires |run| > 1 && before == run[..|run| - 1]
    ensures Passes(run, c) == Passes(before, c) + if StartsPass(Last(before), Last(run), c) then 1 else 0
  {
    hide StartsPass;
  }

  lemma {:induction false} RunInRounds(run: seq<Sys>, k: nat, c: nat)
    requires IsRun(run) && |Last(run).snd.askers| < U32_SIZE && k < SLOTS && Clean(Last(run).snd.calls, k)
    requires c < |Last(run).snd.calls| && Last(run).snd.calls[c].slot == k
    ensures InFullRounds(Last(run).snd.calls[c], Passes(run, c))
  {
    hide IsRun, InOrder, Clean, InFullRounds, Passes, SlotStep, StartsPass;
    if |run| <= 1 {
      NoCallsAtFirst(run);
    } else {
      var before := LastStep(run, k);
      var s, s' := Last(before), Last(run);
      OneMoreStep(run, before, c);
      StepKeepsCallSlots(s.snd.calls, s'.snd.calls, s.out[k], s'.out[k], k);
      if c < |s.snd.calls| {
        RunInRounds(before, k, c);
        StepKeepsRounds(s, s', k, c, Passes(before, c));
      } else {
        NoPassesYet(before, c);
        FirstRound(s, s', c);
      }
    }
  }

  lemma NoCallsAtFirst(run: seq<Sys>)
    requires IsRun(run) && |run| <= 1
    ensures |Last(run).snd.calls| == 0
  {
  }

  lemma FirstRound(s: Sys, s': Sys, c: nat)
    requires |s.snd.calls| <= c < |s'.snd.calls| && s'.snd.calls[c].sent == 0 && s'.snd.calls[c].pc.Begun?
    ensures !StartsPass(s, s', c) && InFullRounds(s'.snd.calls[c], 0)
  {
  }

  lemma StepKeepsCallSlots(calls: seq<Call>, calls': seq<Call>, out: seq<Entry>, out': seq<Entry>, k: nat)
    requires SlotStep(calls, calls', out, out', k)
    ensures |calls| <= |calls'| <= |calls| + 1
    ensures forall x :: 0 <= x < |calls| ==> calls'[x].slot == calls[x].slot
    ensures |calls'| > |calls| ==> calls'[|calls|].sent == 0 && calls'[|calls|].pc.Begun?
  {
    if BeginsAt(calls, calls', k) && out' == out {
      assert forall x :: 0 <= x < |calls| ==> calls'[x] == calls'[..|calls|][x];
    }
  }

  /* ---- result ---- */

  /** In every run, whatever timeouts fire and however late replies come, a message of n segments takes
      at most ceil(n / 64) rounds: each round takes on the next 64 segments or all that are left, so a
      call that waits, or has returned nil, has written everything in exactly that many. */
  lemma RoundsAreFull(run: seq<Sys>, k: nat, c: nat)
    requires IsRun(run) && |Last(run).snd.askers| < U32_SIZE && k < SLOTS && Clean(Last(run).snd.calls, k)
    requires c < |Last(run).snd.calls| && Last(run).snd.calls[c].slot == k
    ensures var call, passes := Last(run).snd.calls[c], Passes(run, c);
            var rounds := (call.Count() + SEND_WINDOW - 1) / SEND_WINDOW;
            && passes <= rounds
            && (call.pc.Asking? || call.pc.Querying? ==> call.sent == Min(call.Count(), SEND_WINDOW * passes))
            && (call.pc.Waiting? || call.pc == Returned(true) ==> call.sent == call.Count() && passes == rounds)
  {
    RunInOrder(run, k);
    RunInRounds(run, k, c);
    var call := Last(run).snd.calls[c];
    assert SendsInOrder(call);
    hide IsRun, Inv, InOrder, SegmentCount, Clean;
  }
}
