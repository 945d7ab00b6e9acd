/** What a call that failed in the middle of its message does to the next message on its slot, exactly,
    on the network that only delays. The receiver keeps the partial `msgRecving`, so the next message's
    first segments are taken for repetitions and the rest is appended to what is there. */
module Leftover {
  import opened Bytes
  import opened Segments
  import opened Sending
  import opened Recving
  import opened Reassembly
  import opened Rounds
  import opened Progress
  import opened Status
  import opened Endpoint
  import opened SenderInvariant
  import opened FifoNetwork
  import opened FifoOrder

  /** What a slot holds, and all it has handed out. */
  type Held = (Option<Recv>, seq<bytes>)

  /* ---- the receiver ---- */

  /** k segments have been appended, none is saved out of order, and `need` bytes are waited for. */
  ghost predicate Midway(r: Recv, buf: bytes, need: nat, have: nat, k: nat) {
    && r.readBuf == buf && r.needLength == need && r.readLength == have
    && r.saved == map[] && r.nextID == k && !r.completed && r.largestOrderID == k - 1
  }

  /** The next segment in order is appended; it completes the message if the bytes suffice. */
  lemma AppendNext(r: Recv, w: bytes, buf: bytes, need: nat, m: nat)
    requires IsWire(w) && 1 <= m < SegmentCount(w) && 0 < need
    requires Midway(r, buf, need, EndOf(w, m), m)
    ensures r.CanSave(m, Fragment(w, m))
    ensures var (r', msg) := r.Save(m, Fragment(w, m)); var buf' := buf + Fragment(w, m);
            && buf' != []
            && if need <= EndOf(w, m + 1) then msg == Some(buf') && r'.completed
               else msg == None && Midway(r', buf', need, EndOf(w, m + 1), m + 1)
  {
    FragmentShape(w, m);
    CountIsExact(w);
    NoSavedBodies(map[], 0);
    assert r.saved - {m as u16} == map[];
    var buf' := buf + Fragment(w, m);
    assert Drain(buf', m, map[]) == (buf', m + 1, map[]);
    assert buf' + [] == buf';
  }

  lemma PrefixIsShort(w: bytes, j: nat)
    requires IsWire(w) && 1 <= j < SegmentCount(w)
    ensures 4 <= EndOf(w, j) == j * BODY_MAX_SIZE < |w|
  {
    CountIsExact(w);
  }

  /** A receiver with the first j segments of w is midway. */
  lemma TrackedIsMidway(r: Recv, w: bytes, j: nat)
    requires IsWire(w) && Tracks(r, w, Reassembly.Below(j)) && 1 <= j < SegmentCount(w)
    ensures 4 <= EndOf(w, j) == j * BODY_MAX_SIZE < |w|
    ensures Midway(r, w[4..EndOf(w, j)], |w|, EndOf(w, j), j)
  {
    PrefixIsShort(w, j);
    hide SegmentCount, Tracks, IsFull, Carried, Reassembly.Below;
    PrefixShape(r, w, j);
    CarriedPrefix(w, j, SegmentCount(w));
    CompletedIsFull(r, w, Reassembly.Below(j));
    BelowIsFull(w, j);
    hide EndOf, IsWire;
    TrackedFields(r, w, j);
  }

  lemma TrackedFields(r: Recv, w: bytes, j: nat)
    requires Tracks(r, w, Reassembly.Below(j)) && r.nextID == j && 1 <= j
    ensures r.saved == map[] && r.readBuf == w[4..EndOf(w, j)] && r.needLength == |w|
    ensures r.readLength == Carried(w, Reassembly.Below(j), SegmentCount(w))
  {
    hide SegmentCount, IsFull;
  }

  lemma {:induction false} CarriedPrefix(w: bytes, j: nat, k: nat)
    requires IsWire(w) && j <= k <= SegmentCount(w)
    ensures Carried(w, Reassembly.Below(j), k) == EndOf(w, j)
  {
    if j < k {
      CarriedPrefix(w, j, k - 1);
    } else {
      CarriedBound(w, Reassembly.Below(j), k);
    }
  }

  function Max(a: nat, b: nat): nat { if a < b then b else a }

  /** j segments of a were appended, then those of b numbered from j to below i, without completing a. */
  ghost predicate Ahead(r: Recv, a: bytes, b: bytes, j: nat, i: nat)
    requires 4 <= j * BODY_MAX_SIZE <= |a|
  {
    var reach := j * BODY_MAX_SIZE;
    && j <= i
    && (i > j ==> reach < |b| && EndOf(b, i) < |a|)
    && Midway(r, a[4..reach] + if i > j then b[reach..EndOf(b, i)] else [], |a|,
              if i > j then EndOf(b, i) else reach, i)
  }

  lemma StartsAhead(r: Recv, a: bytes, b: bytes, j: nat)
    requires IsWire(a) && Tracks(r, a, Reassembly.Below(j)) && 1 <= j < SegmentCount(a)
    ensures 4 <= j * BODY_MAX_SIZE < |a| && Ahead(r, a, b, j, j)
  {
    TrackedIsMidway(r, a, j);
    hide Tracks, SegmentCount, EndOf;
    assert a[4..EndOf(a, j)] + [] == a[4..EndOf(a, j)];
  }

  /** A segment of b that is taken for one of a's. */
  lemma TakesForRepeat(r: Recv, a: bytes, b: bytes, j: nat, e: Entry)
    requires 4 <= j * BODY_MAX_SIZE <= |a| && Ahead(r, a, b, j, j) && e.id < j
    ensures Take(Some(r), e) == (Some(r), None)
  {
  }

  /** What a's first k segments carry, continued with b's up to a's segment count. */
  ghost function Mixed(a: bytes, b: bytes, k: nat): bytes
    requires 1 <= k < SegmentCount(a) && 4 <= |a|
  {
    a[4..EndOf(a, k)] + b[EndOf(b, k)..EndOf(b, SegmentCount(a))]
  }

  lemma LiesBetween(x: nat, n: nat, i: nat)
    requires (n - 1) * BODY_MAX_SIZE < x <= n * BODY_MAX_SIZE && i * BODY_MAX_SIZE < x <= (i + 1) * BODY_MAX_SIZE
    ensures n == i + 1
  {
  }

  /** The first segment with which a's length is reached ends the mixture. */
  lemma ReachesNeed(a: bytes, b: bytes, j: nat, i: nat)
    requires IsWire(a) && IsWire(b) && 1 <= j < SegmentCount(a) && j <= i < SegmentCount(b)
    requires i * BODY_MAX_SIZE < |a| <= EndOf(b, i + 1)
    ensures SegmentCount(a) == i + 1 && |a| <= |b|
    ensures EndOf(a, j) == EndOf(b, j) == j * BODY_MAX_SIZE
  {
    CountIsExact(a);
    CountIsExact(b);
    hide SegmentCount, IsWire;
    assert j * BODY_MAX_SIZE <= i * BODY_MAX_SIZE;
    LiesBetween(|a|, SegmentCount(a), i);
  }

  lemma TakesInOrder(r: Recv, message: bytes, buf: bytes, need: nat, e: Entry)
    requires Sendable(message) && e.message == message && 1 <= e.id < SegmentCount(Wire(message)) && 0 < need
    requires Midway(r, buf, need, EndOf(Wire(message), e.id), e.id)
    ensures var b, i := Wire(message), e.id; var (recving, msg) := Take(Some(r), e); var buf' := buf + Fragment(b, i);
            && recving.Some?
            && if need <= EndOf(b, i + 1) then msg == Some(buf') && recving.value.completed
               else msg == None && Midway(recving.value, buf', need, EndOf(b, i + 1), i + 1)
  {
    SendableIsWire(message);
    AppendNext(r, Wire(message), buf, need, e.id);
    assert Current(Some(r)) == r;
    hide Recv.Save, Recv.CanSave, Fragment, Wire, EndOf, SegmentCount;
  }

  /** The next segment of b is appended. */
  lemma TakesAhead(r: Recv, a: bytes, message: bytes, j: nat, e: Entry)
    requires Sendable(message) && e.message == message
    requires var b := Wire(message);
             && IsWire(a) && 4 <= j * BODY_MAX_SIZE < |a| && 1 <= j <= e.id < SegmentCount(b) && Ahead(r, a, b, j, e.id)
    ensures var b := Wire(message); var (recving, msg) := Take(Some(r), e);
            var reach, have := j * BODY_MAX_SIZE, EndOf(b, e.id + 1);
            && recving.Some? && reach <= have <= |b| && reach < |b|
            && var buf := a[4..reach] + b[reach..have];
               if |a| <= have then msg == Some(buf) && recving.value.completed
               else msg == None && Midway(recving.value, buf, |a|, have, e.id + 1)
  {
    var b, i, reach := Wire(message), e.id, j * BODY_MAX_SIZE;
    var buf := a[4..reach] + if i > j then b[reach..EndOf(b, i)] else [];
    hide Wire, Fragment, Midway, Take;
    SendableIsWire(message);
    BufferGrows(a, b, j, i);
    assert Midway(r, buf, |a|, EndOf(b, i), i);
    hide EndOf, Ahead, IsWire;
    TakesInOrder(r, message, buf, |a|, e);
  }

  /** It completes the mixture if a's length is reached. */
  lemma TakesNext(r: Recv, a: bytes, message: bytes, j: nat, e: Entry)
    requires Sendable(message) && e.message == message
    requires var b := Wire(message);
             && IsWire(a) && 1 <= j < SegmentCount(a) && 4 <= j * BODY_MAX_SIZE < |a|
             && j <= e.id < SegmentCount(b) && Ahead(r, a, b, j, e.id)
    ensures var b := Wire(message); var (recving, msg) := Take(Some(r), e);
            && recving.Some?
            && if |a| <= EndOf(b, e.id + 1)
               then |a| <= |b| && SegmentCount(a) == e.id + 1 && recving.value.completed && msg == Some(Mixed(a, b, j))
               else msg == None && Ahead(recving.value, a, b, j, e.id + 1)
  {
    var b, i := Wire(message), e.id;
    hide Wire, Midway, Take;
    SendableIsWire(message);
    TakesAhead(r, a, message, j, e);
    if |a| <= EndOf(b, i + 1) {
      assert i * BODY_MAX_SIZE < |a| by { BufferGrows(a, b, j, i); }
      ReachesNeed(a, b, j, i);
    }
    hide IsWire;
  }

  lemma BufferGrows(a: bytes, b: bytes, j: nat, i: nat)
    requires IsWire(a) && IsWire(b) && 4 <= j * BODY_MAX_SIZE < |a| && j <= i < SegmentCount(b)
    ensures var reach := j * BODY_MAX_SIZE;
            && reach <= EndOf(b, i) == i * BODY_MAX_SIZE <= EndOf(b, i + 1) <= |b| && reach < |b|
            && (a[4..reach] + if i > j then b[reach..EndOf(b, i)] else []) + Fragment(b, i)
               == a[4..reach] + b[reach..EndOf(b, i + 1)]
  {
    CountIsExact(b);
  }

  /* ---- the next call ---- */

  /** j segments of a were left over; `before` is what the slot had handed out by then. */
  datatype Rest = Rest(a: bytes, j: nat, before: seq<bytes>) {
    ghost predicate Valid() { IsWire(a) && 1 <= j < SegmentCount(a) && 4 <= j * BODY_MAX_SIZE < |a| }
  }

  /** The mixture is not complete: i segments are in the buffer. The call writes on in order, from the
      start in its first pass and from i on after a reply. */
  ghost predicate StillMixing(slot: Held, rest: Rest, b: bytes, pc: Pc, i: nat) {
    && rest.Valid() && slot.1 == rest.before && slot.0.Some? && Ahead(slot.0.value, rest.a, b, rest.j, i)
    && (pc.Begun? ==> i == rest.j)
    && (pc.Waiting? ==> i >= SegmentCount(b))
    && (pc.Writing? ==> WritesOn(pc.ids, pc.after, SegmentCount(b), rest.j, i))
  }

  ghost predicate WritesOn(ids: seq<int>, after: After, n: nat, j: nat, i: nat) {
    && !after.ToError?
    && if ids == [] then after.ToWait? ==> i >= n
       else
         && 0 <= ids[0] && ids == Range(ids[0], ids[0] + |ids|) && ids[0] + |ids| <= n
         && i == Max(j, ids[0]) && (after.ToWait? ==> ids[0] + |ids| == n)
  }

  /** The mixture has been handed out, and the segments of b in `accepted` have come in since. The call
      writes only others. If b is as long as a in segments it writes nothing more. */
  ghost predicate Refills(slot: Held, rest: Rest, b: bytes, pc: Pc, accepted: set<nat>) {
    && rest.Valid() && |rest.a| <= |b| && slot.1 == rest.before + [Mixed(rest.a, b, rest.j)]
    && slot.0.Some? && Tracks(Current(slot.0), b, accepted) && !IsFull(b, accepted)
    && (slot.0.value.completed <==> accepted == {})
    && !pc.Begun?
    && (pc.Writing? ==> !pc.after.ToError? && Ascending(pc.ids) && AreLacking(pc.ids, SegmentCount(b), accepted))
    && (SegmentCount(b) == SegmentCount(rest.a) ==> accepted == {} && (pc.Writing? ==> pc.ids == []))
  }

  ghost predicate AreLacking(ids: seq<int>, n: nat, accepted: set<nat>) {
    forall k :: 0 <= k < |ids| ==> 0 <= ids[k] < n && ids[k] !in accepted
  }

  /** The mixture and then b's message have been handed out, and nothing is left to write. */
  ghost predicate Repaired(slot: Held, rest: Rest, b: bytes, pc: Pc) {
    && rest.Valid() && |rest.a| <= |b| && 4 <= |b| && SegmentCount(rest.a) != SegmentCount(b)
    && slot.1 == rest.before + [Mixed(rest.a, b, rest.j), b[4..]]
    && slot.0.Some? && slot.0.value.completed
    && !pc.Begun? && (pc.Writing? ==> pc.ids == [] && !pc.after.ToError?)
  }

  ghost predicate Stage(slot: Held, rest: Rest, b: bytes, pc: Pc) {
    || (exists i :: StillMixing(slot, rest, b, pc, i))
    || (exists accepted :: Refills(slot, rest, b, pc, accepted))
    || Repaired(slot, rest, b, pc)
  }

  /** A reply while the mixture grows: nothing is missing up to i. */
  lemma MixingStatus(r: Recv, a: bytes, b: bytes, j: nat, i: nat)
    requires 4 <= j * BODY_MAX_SIZE <= |a| && Ahead(r, a, b, j, i) && 1 <= i
    ensures i < U16_SIZE && StatusOf(Some(r), SEND_WINDOW) == NotCompleted(i - 1, [])
  {
    assert r.MissingFrom(r.nextID) == [];
  }

  /** The pass after it is everything from i on. */
  lemma MixingPass(i: u16, n: nat, j: nat)
    requires 1 <= i && j <= i && n < U16_SIZE
    ensures var pass := PassAfter(NotCompleted(i - 1, []), n); WritesOn(pass.ids, pass.after, n, j, i)
  {
    hide ToU16, ResendRound, Cut, Range;
    NoneMissing(i - 1, n);
    SmallIsU16(i);
    RestWritesOn(i, n, j);
  }

  lemma RestWritesOn(i: nat, n: nat, j: nat)
    requires j <= i
    ensures var pass := Cut(Range(i, n), SEND_WINDOW); WritesOn(pass.ids, pass.after, n, j, i)
  {
    if i < n {
      CutRange(i, n);
    }
  }

  lemma FirstPassWritesOn(n: nat, j: nat)
    requires 1 <= n
    ensures var pass := FullRound(n, SEND_WINDOW); WritesOn(pass.ids, pass.after, n, j, j)
  {
    CutRange(0, n);
  }

  lemma MixingMoves(slot: Held, rest: Rest, call: Call, pc: Pc, i: nat)
    requires Sendable(call.message) && StillMixing(slot, rest, Wire(call.message), call.pc, i)
    requires PcMoves(call, pc, slot.0)
    ensures StillMixing(slot, rest, Wire(call.message), pc, i)
  {
    var b := Wire(call.message);
    SendableIsWire(call.message);
    CountIsExact(b);
    if call.pc.Begun? {
      FirstPassWritesOn(SegmentCount(b), rest.j);
    } else if call.pc.Querying? {
      MixingStatus(slot.0.value, rest.a, b, rest.j, i);
      MixingPass(i, SegmentCount(b), rest.j);
    }
    hide FullRound, PassAfter, StatusOf, SegmentCount, Ahead, WritesOn, Wire;
    if call.pc.Writing? && call.pc.ids == [] && call.pc.after.ToWait? {
      EmptyPass(call.pc.after, SegmentCount(b), rest.j, i);
    }
  }

  lemma EmptyPass(after: After, n: nat, j: nat, i: nat)
    requires WritesOn([], after, n, j, i) && after.ToWait?
    ensures i >= n
  {
  }

  /** A slot after one more segment. */
  ghost function Put(slot: Held, e: Entry): Held {
    var (recving, msg) := Take(slot.0, e);
    (recving, if msg.Some? then slot.1 + [msg.value] else slot.1)
  }

  lemma RangeTail(ids: seq<int>)
    requires ids != [] && ids == Range(ids[0], ids[0] + |ids|)
    ensures ids[1..] == Range(ids[0] + 1, ids[0] + |ids|) && (|ids| > 1 ==> ids[1] == ids[0] + 1)
  {
  }

  /** The pass goes on past a segment that was taken for a repetition, or appended. */
  lemma PassGoesOn(ids: seq<int>, after: After, n: nat, j: nat, i: nat)
    requires ids != [] && WritesOn(ids, after, n, j, i)
    ensures WritesOn(ids[1..], after, n, j, if ids[0] < j then i else ids[0] + 1)
  {
    RangeTail(ids);
  }

  /** What is left of a pass when the mixture has come out. */
  lemma PassAfterMixture(ids: seq<int>, after: After, n: nat, j: nat, i: nat)
    requires ids != [] && WritesOn(ids, after, n, j, i)
    ensures Ascending(ids[1..]) && AreLacking(ids[1..], n, {}) && (ids[0] + 1 == n ==> ids[1..] == [])
  {
    RangeTail(ids);
  }

  lemma MixtureIsOut(slot: Held, rest: Rest, message: bytes, pc: Pc)
    requires Sendable(message) && rest.Valid() && |rest.a| <= |Wire(message)|
    requires slot.0.Some? && slot.0.value.completed && slot.1 == rest.before + [Mixed(rest.a, Wire(message), rest.j)]
    requires pc.Writing? && !pc.after.ToError?
    requires Ascending(pc.ids) && AreLacking(pc.ids, SegmentCount(Wire(message)), {})
    requires SegmentCount(Wire(message)) == SegmentCount(rest.a) ==> pc.ids == []
    ensures Refills(slot, rest, Wire(message), pc, {})
  {
    SendableIsWire(message);
    CountIsExact(Wire(message));
    FreshTracks(Wire(message));
    hide Tracks, SegmentCount, Wire, Mixed;
    assert (0 as nat) !in {};
  }

  lemma MixingGoesOn(slot: Held, rest: Rest, b: bytes, ids: seq<int>, after: After, i: nat)
    requires rest.Valid() && slot.1 == rest.before && slot.0.Some? && Ahead(slot.0.value, rest.a, b, rest.j, i)
    requires WritesOn(ids, after, SegmentCount(b), rest.j, i)
    ensures Stage(slot, rest, b, Writing(ids, after))
  {
    hide Ahead, WritesOn, SegmentCount, Rest.Valid, Refills, Repaired;
    assert StillMixing(slot, rest, b, Writing(ids, after), i);
  }

  lemma MixingRepeats(slot: Held, rest: Rest, b: bytes, ids: seq<int>, after: After, i: nat, e: Entry)
    requires rest.Valid() && slot.1 == rest.before && slot.0.Some? && Ahead(slot.0.value, rest.a, b, rest.j, i)
    requires i == rest.j && e.id < rest.j && WritesOn(ids, after, SegmentCount(b), rest.j, i)
    ensures Stage(Put(slot, e), rest, b, Writing(ids, after))
  {
    TakesForRepeat(slot.0.value, rest.a, b, rest.j, e);
    hide Take, Ahead, WritesOn, SegmentCount, Stage, Rest.Valid;
    MixingGoesOn(Put(slot, e), rest, b, ids, after, i);
  }

  lemma MixingAppends(slot: Held, rest: Rest, message: bytes, ids: seq<int>, after: After, e: Entry)
    requires Sendable(message) && e.message == message && rest.j <= e.id < SegmentCount(Wire(message))
    requires rest.Valid() && slot.1 == rest.before && slot.0.Some?
    requires Ahead(slot.0.value, rest.a, Wire(message), rest.j, e.id)
    requires WritesOn(ids, after, SegmentCount(Wire(message)), rest.j, e.id + 1) && !after.ToError?
    requires Ascending(ids) && AreLacking(ids, SegmentCount(Wire(message)), {})
    requires e.id + 1 == SegmentCount(Wire(message)) ==> ids == []
    ensures Stage(Put(slot, e), rest, Wire(message), Writing(ids, after))
  {
    TakesNext(slot.0.value, rest.a, message, rest.j, e);
    var slot' := Put(slot, e);
    hide Take, Ahead, WritesOn, Stage, AreLacking, Ascending, Mixed;
    if |rest.a| <= EndOf(Wire(message), e.id + 1) {
      hide SegmentCount, Wire;
      MixtureIsOut(slot', rest, message, Writing(ids, after));
      RefillIsStage(slot', rest, Wire(message), Writing(ids, after));
    } else {
      hide SegmentCount, Wire;
      MixingGoesOn(slot', rest, Wire(message), ids, after, e.id + 1);
    }
  }

  lemma MixingWrites(slot: Held, rest: Rest, message: bytes, pc: Pc, i: nat, e: Entry)
    requires Sendable(message) && StillMixing(slot, rest, Wire(message), pc, i)
    requires pc.Writing? && pc.ids != [] && e.message == message && e.id == pc.ids[0]
    ensures Stage(Put(slot, e), rest, Wire(message), Writing(pc.ids[1..], pc.after))
  {
    var b := Wire(message);
    assert e.id < SegmentCount(b) && i == Max(rest.j, e.id) && !pc.after.ToError?;
    PassGoesOn(pc.ids, pc.after, SegmentCount(b), rest.j, i);
    PassAfterMixture(pc.ids, pc.after, SegmentCount(b), rest.j, i);
    hide WritesOn, SegmentCount, Wire, Ahead, Put, Ascending, AreLacking, Stage, Rest.Valid;
    if e.id < rest.j {
      MixingRepeats(slot, rest, b, pc.ids[1..], pc.after, i, e);
    } else {
      MixingAppends(slot, rest, message, pc.ids[1..], pc.after, e);
    }
  }

  lemma RefillIsStage(slot: Held, rest: Rest, b: bytes, pc: Pc)
    requires Refills(slot, rest, b, pc, {})
    ensures Stage(slot, rest, b, pc)
  {
    hide Refills;
  }

  /* ---- after the mixture ---- */

  lemma RefillsMove(slot: Held, rest: Rest, call: Call, pc: Pc, accepted: set<nat>)
    requires Sendable(call.message) && Refills(slot, rest, Wire(call.message), call.pc, accepted)
    requires PcMoves(call, pc, slot.0)
    ensures Refills(slot, rest, Wire(call.message), pc, accepted)
  {
    var b := Wire(call.message);
    SendableIsWire(call.message);
    if call.pc.Querying? && accepted != {} {
      assert Current(slot.0) == slot.0.value;
      RoundSendsWhatIsMissing(slot.0, b, accepted);
      var pass := AnsweredRound(slot.0, SegmentCount(b));
      assert pass == PassAfter(StatusOf(slot.0, SEND_WINDOW), SegmentCount(b));
      assert Ascending(pass.ids) && AreLacking(pass.ids, SegmentCount(b), accepted);
    }
    hide FullRound, SegmentCount, Tracks, Wire, Mixed, IsFull, ResendRound, Recv.GetMissing, AreLacking, Ascending;
    hide Rest.Valid, AnsweredRound;
  }

  lemma RepairedMoves(slot: Held, rest: Rest, call: Call, pc: Pc)
    requires Repaired(slot, rest, Wire(call.message), call.pc) && PcMoves(call, pc, slot.0)
    ensures Repaired(slot, rest, Wire(call.message), pc)
  {
    hide FullRound, SegmentCount, Wire, Mixed, PassAfter, Rest.Valid;
  }

  lemma RestOfLacking(ids: seq<int>, n: nat, accepted: set<nat>)
    requires ids != [] && Ascending(ids) && AreLacking(ids, n, accepted)
    ensures Ascending(ids[1..]) && AreLacking(ids[1..], n, accepted + {ids[0] as nat})
  {
  }

  lemma LackingIsNotFull(ids: seq<int>, w: bytes, accepted: set<nat>)
    requires ids != [] && AreLacking(ids, SegmentCount(w), accepted)
    ensures !IsFull(w, accepted)
  {
    var i: nat := ids[0];
    hide SegmentCount;
    assert i !in accepted;
  }

  /** Another segment of b that the receiver lacks. */
  lemma TakesLacking(recving: Option<Recv>, message: bytes, accepted: set<nat>, e: Entry)
    requires Sendable(message) && Tracks(Current(recving), Wire(message), accepted) && e.message == message
    requires e.id < SegmentCount(Wire(message)) && (e.id as nat) !in accepted
    ensures var b, accepted' := Wire(message), accepted + {e.id as nat}; var (recving', msg) := Take(recving, e);
            && recving'.Some? && Tracks(recving'.value, b, accepted')
            && msg == if IsFull(b, accepted') then Some(b[4..]) else None
  {
    SendableIsWire(message);
    SaveInserts(Current(recving), Wire(message), accepted, e.id);
    hide Wire, SegmentCount, Fragment, Tracks, Recv.Save, Recv.CanSave, IsFull;
  }

  lemma PutsLacking(slot: Held, message: bytes, accepted: set<nat>, e: Entry)
    requires Sendable(message) && Tracks(Current(slot.0), Wire(message), accepted) && e.message == message
    requires e.id < SegmentCount(Wire(message)) && (e.id as nat) !in accepted
    ensures var b, accepted' := Wire(message), accepted + {e.id as nat}; var slot' := Put(slot, e);
            && slot'.0.Some? && (slot'.0.value.completed <==> IsFull(b, accepted'))
            && (!IsFull(b, accepted') ==> Tracks(Current(slot'.0), b, accepted'))
            && slot'.1 == if IsFull(b, accepted') then slot.1 + [b[4..]] else slot.1
  {
    hide Wire, SegmentCount, Tracks, Take, IsFull;
    TakesLacking(slot.0, message, accepted, e);
    CompletedIsFull(Put(slot, e).0.value, Wire(message), accepted + {e.id as nat});
  }

  /** The last segment that the receiver lacked. */
  lemma RefillsLast(slot: Held, rest: Rest, message: bytes, pc: Pc, accepted: set<nat>, e: Entry)
    requires Sendable(message) && Refills(slot, rest, Wire(message), pc, accepted)
    requires pc.Writing? && pc.ids != [] && e.message == message && e.id == pc.ids[0]
    requires IsFull(Wire(message), accepted + {e.id as nat})
    ensures Repaired(Put(slot, e), rest, Wire(message), Writing(pc.ids[1..], pc.after))
  {
    var b, x := Wire(message), e.id;
    var mixed := Mixed(rest.a, b, rest.j);
    assert x < SegmentCount(b) && (x as nat) !in accepted;
    RestOfLacking(pc.ids, SegmentCount(b), accepted);
    if pc.ids[1..] != [] { LackingIsNotFull(pc.ids[1..], b, accepted + {x as nat}); }
    hide Wire, SegmentCount, Tracks, Current, Take, Put, Mixed, AreLacking, Ascending, Rest.Valid, IsFull;
    PutsLacking(slot, message, accepted, e);
    assert (rest.before + [mixed]) + [b[4..]] == rest.before + [mixed, b[4..]];
  }

  lemma RefillsWrite(slot: Held, rest: Rest, message: bytes, pc: Pc, accepted: set<nat>, e: Entry)
    requires Sendable(message) && Refills(slot, rest, Wire(message), pc, accepted)
    requires pc.Writing? && pc.ids != [] && e.message == message && e.id == pc.ids[0]
    ensures Stage(Put(slot, e), rest, Wire(message), Writing(pc.ids[1..], pc.after))
  {
    var b, x, pc', slot' := Wire(message), e.id, Writing(pc.ids[1..], pc.after), Put(slot, e);
    var accepted' := accepted + {x as nat};
    hide Wire, Tracks, Current, Take, Put, Mixed, Rest.Valid, IsFull, StillMixing, Repaired;
    if IsFull(b, accepted') {
      RefillsLast(slot, rest, message, pc, accepted, e);
    } else {
      assert x < SegmentCount(b) && (x as nat) !in accepted;
      RestOfLacking(pc.ids, SegmentCount(b), accepted);
      hide AreLacking, Ascending, SegmentCount;
      PutsLacking(slot, message, accepted, e);
      assert x as nat in accepted';
      assert Refills(slot', rest, b, pc', accepted');
    }
  }

  lemma AnyNext(slot: Held, rest: Rest, b: bytes, b': bytes)
    requires StillMixing(slot, rest, b, Begun, rest.j)
    ensures StillMixing(slot, rest, b', Begun, rest.j)
  {
  }

  lemma MixingIsStage(slot: Held, rest: Rest, b: bytes, pc: Pc, i: nat)
    requires StillMixing(slot, rest, b, pc, i)
    ensures Stage(slot, rest, b, pc)
  {
    hide StillMixing;
  }

  /** A step of the next call. */
  lemma StageStays(slot: Held, rest: Rest, call: Call, call': Call, c: nat, out: seq<Entry>, out': seq<Entry>)
    requires Sendable(call.message) && Stage(slot, rest, Wire(call.message), call.pc)
    requires CallMoves(call, call', c, out, out') && slot == Slot(out)
    ensures Stage(Slot(out'), rest, Wire(call.message), call'.pc)
  {
    if call' == call.(pc := call'.pc) && out' == out && PcMoves(call, call'.pc, Slot(out).0) {
      hide Slot, StillMixing, Refills, Repaired, PcMoves, Wire;
      if i :| StillMixing(slot, rest, Wire(call.message), call.pc, i) {
        MixingMoves(slot, rest, call, call'.pc, i);
      } else if accepted :| Refills(slot, rest, Wire(call.message), call.pc, accepted) {
        RefillsMove(slot, rest, call, call'.pc, accepted);
      } else {
        RepairedMoves(slot, rest, call, call'.pc);
      }
    } else {
      var e := Entry(c, call.message, call.pc.ids[0]);
      SlotSnoc(out, e);
      assert Slot(out') == Put(slot, e);
      hide Slot, Put, StillMixing, Refills, PcMoves, Wire;
      if i :| StillMixing(slot, rest, Wire(call.message), call.pc, i) {
        MixingWrites(slot, rest, call.message, call.pc, i, e);
      } else {
        var accepted :| Refills(slot, rest, Wire(call.message), call.pc, accepted);
        RefillsWrite(slot, rest, call.message, call.pc, accepted, e);
      }
    }
  }

  /* ---- the slot ---- */

  /** Call c failed on slot k in the middle of its message, the first to do so, and of the later calls on
      the slot only d has written anything. */
  ghost predicate Abandoned(calls: seq<Call>, k: nat, c: nat, d: nat) {
    && c < |calls| && c < d && calls[c].slot == k
    && calls[c].pc == Returned(false) && 0 < calls[c].sent < calls[c].Count()
    && Clean(calls[..c], k)
    && (d < |calls| ==> calls[d].slot == k)
    && forall x :: c < x < |calls| && calls[x].slot == k && x != d ==> calls[x].sent == 0
  }

  ghost function RestOf(calls: seq<Call>, k: nat, c: nat): Rest
    requires c < |calls|
  {
    Rest(Wire(calls[c].message), calls[c].sent, FullySent(calls[..c], k))
  }

  ghost predicate LeftInv(calls: seq<Call>, out: seq<Entry>, k: nat, c: nat, d: nat) {
    && c < |calls| && (forall x :: 0 <= x <= c && calls[x].slot == k ==> !calls[x].Active())
    && var rest := RestOf(calls, k, c);
       && rest.Valid()
       && if d < |calls| then Sendable(calls[d].message) && Stage(Slot(out), rest, Wire(calls[d].message), calls[d].pc)
          else StillMixing(Slot(out), rest, rest.a, Begun, rest.j)
  }

  lemma LeftMixing(calls: seq<Call>, out: seq<Entry>, k: nat, c: nat)
    requires InOrder(calls, out, k) && c < |calls| && calls[c].slot == k && 0 < calls[c].sent < calls[c].Count()
    requires forall x :: c < x < |calls| ==> calls[x].slot != k
    requires Sendable(calls[c].message)
    ensures var rest := RestOf(calls, k, c); rest.Valid() && StillMixing(Slot(out), rest, rest.a, Begun, rest.j)
  {
    var call := calls[c];
    var a := Wire(call.message);
    SendableIsWire(call.message);
    LeftSlot(calls, out, k, c);
    hide Slot, InOrder, Wire, Tracks, SegmentCount, FullySent, Reassembly.Below;
    StartsAhead(Slot(out).0.value, a, a, call.sent);
    hide Ahead, IsWire;
  }

  /** The rest of an abandoned message, when it has just been abandoned. */
  lemma LeftStarts(calls: seq<Call>, out: seq<Entry>, k: nat, c: nat, d: nat)
    requires InOrder(calls, out, k) && Abandoned(calls, k, c, d)
    requires forall x :: 0 <= x < |calls| && x != c && calls[x].slot == k ==> x < c && !calls[x].Active()
    ensures LeftInv(calls, out, k, c, d)
  {
    assert SendsInOrder(calls[c]) && d >= |calls|;
    LeftMixing(calls, out, k, c);
    hide Slot, InOrder, Wire, SegmentCount, FullySent, StillMixing, Rest.Valid, Clean;
  }

  /** The latest call on a slot in order, not fully written: what the slot holds and has handed out. */
  lemma LeftSlot(calls: seq<Call>, out: seq<Entry>, k: nat, c: nat)
    requires InOrder(calls, out, k) && c < |calls| && calls[c].slot == k && 0 < calls[c].sent < calls[c].Count()
    requires forall x :: c < x < |calls| ==> calls[x].slot != k
    ensures Slot(out).0.Some? && Tracks(Slot(out).0.value, Wire(calls[c].message), Reassembly.Below(calls[c].sent))
    ensures Slot(out).1 == FullySent(calls[..c], k)
  {
    hide Slot, Chain, Tip, Owned, Wire, Tracks, SegmentCount, MessagesIn, SendsInOrder, FullySent, Reassembly.Below;
    WriterIsTip(calls, out, k, c);
    ChainIsReceived(out);
    FullySentBefore(calls, k, c);
  }

  lemma FullySentBefore(calls: seq<Call>, k: nat, c: nat)
    requires c < |calls| && calls[c].slot == k && calls[c].sent < calls[c].Count()
    requires forall x :: c < x < |calls| ==> calls[x].slot != k
    ensures FullySent(calls, k) == FullySent(calls[..c], k)
  {
    FullySentUpTo(calls, k, c);
    assert calls[..c + 1][..c] == calls[..c] && FullySent(calls[..c], k) + [] == FullySent(calls[..c], k);
  }

  /** The calls up to c do not move any more, so neither does what they left. */
  lemma RestStays(calls: seq<Call>, calls': seq<Call>, k: nat, c: nat)
    requires c < |calls| <= |calls'| && calls'[c].message == calls[c].message && calls'[c].sent == calls[c].sent
    requires forall x :: 0 <= x < c ==>
               calls'[x].slot == calls[x].slot && (calls[x].slot == k ==> SameProgress(calls[x], calls'[x]))
    ensures RestOf(calls', k, c) == RestOf(calls, k, c)
  {
    FullySentAlike(calls[..c], calls'[..c], k);
  }

  /** A step before which call c had already failed. */
  lemma LeftStays(calls: seq<Call>, calls': seq<Call>, out: seq<Entry>, out': seq<Entry>, k: nat, c: nat, d: nat)
    requires LeftInv(calls, out, k, c, d) && Abandoned(calls, k, c, d) && Abandoned(calls', k, c, d)
    requires SlotStep(calls, calls', out, out', k)
    ensures LeftInv(calls', out', k, c, d)
  {
    hide MovesAt, Clean, Stage, StillMixing, FullySent, SegmentCount, Slot, Wire;
    if BeginsAt(calls, calls', k) && out' == out {
      LeftBegins(calls, calls', out, k, c, d);
    } else if RestsAt(calls, calls', k) && out' == out {
      RestStays(calls, calls', k, c);
    } else {
      var m :| MovesAt(calls, calls', out, out', k, m);
      LeftMoves(calls, calls', out, out', k, c, d, m);
    }
  }

  lemma LeftBegins(calls: seq<Call>, calls': seq<Call>, out: seq<Entry>, k: nat, c: nat, d: nat)
    requires LeftInv(calls, out, k, c, d) && BeginsAt(calls, calls', k) && (d < |calls'| ==> calls'[d].slot == k)
    ensures LeftInv(calls', out, k, c, d)
  {
    var rest := RestOf(calls, k, c);
    assert forall x :: 0 <= x < |calls| ==> calls'[x] == calls'[..|calls|][x];
    assert calls'[..c] == calls[..c];
    hide FullySent, SegmentCount, Slot, Wire, StillMixing, Rest.Valid;
    assert RestOf(calls', k, c) == rest;
    hide RestOf;
    if d == |calls| {
      AnyNext(Slot(out), rest, rest.a, Wire(calls'[d].message));
      MixingIsStage(Slot(out), rest, Wire(calls'[d].message), Begun, rest.j);
    }
    hide Stage;
  }

  lemma LeftMoves(calls: seq<Call>, calls': seq<Call>, out: seq<Entry>, out': seq<Entry>,
                  k: nat, c: nat, d: nat, m: nat)
    requires LeftInv(calls, out, k, c, d) && MovesAt(calls, calls', out, out', k, m)
    requires calls[c].slot == k && c < d
    requires forall x :: c < x < |calls'| && calls'[x].slot == k && x != d ==> calls'[x].sent == 0
    ensures LeftInv(calls', out', k, c, d)
  {
    assert m > c;
    RestStays(calls, calls', k, c);
    hide Stage, StillMixing, FullySent, SegmentCount, Slot, Wire;
    if m == d {
      StageStays(Slot(out), RestOf(calls, k, c), calls[d], calls'[d], d, out, out');
    } else {
      assert out' == out;
    }
  }

  /* ---- every run ---- */

  /** Before the step, call c had failed already, or it fails now and the slot was clean. */
  lemma AbandonedWas(calls: seq<Call>, calls': seq<Call>, out: seq<Entry>, out': seq<Entry>, k: nat, c: nat, d: nat)
    requires SlotStep(calls, calls', out, out', k) && Abandoned(calls', k, c, d)
    requires forall x :: 0 <= x < |calls| && x < |calls'| && calls[x].pc.Returned? ==>
               calls'[x].pc == calls[x].pc && calls'[x].sent == calls[x].sent && SameCall(calls[x], calls'[x])
    ensures Abandoned(calls, k, c, d) || JustAbandons(calls, calls', k, c)
  {
    hide SegmentCount, CallMoves;
    if BeginsAt(calls, calls', k) && out' == out {
      assert calls'[..c] == calls[..c];
      assert forall x :: 0 <= x < |calls| ==> calls'[x] == calls'[..|calls|][x];
    } else if RestsAt(calls, calls', k) && out' == out {
      assert forall x :: 0 <= x < c ==> calls[..c][x] == calls[x] && calls'[..c][x] == calls'[x];
    } else {
      var m: nat :| MovesAt(calls, calls', out, out', k, m);
      AbandonedWasMove(calls, calls', out, out', k, c, d, m);
    }
  }

  lemma AbandonedWasMove(calls: seq<Call>, calls': seq<Call>, out: seq<Entry>, out': seq<Entry>,
                         k: nat, c: nat, d: nat, m: nat)
    requires MovesAt(calls, calls', out, out', k, m) && Abandoned(calls', k, c, d)
    ensures Abandoned(calls, k, c, d) || JustAbandons(calls, calls', k, c)
  {
    SentGrows(calls[m], calls'[m], m, out, out');
    hide SegmentCount, CallMoves;
    assert forall x :: 0 <= x < c ==> calls[..c][x] == calls[x] && calls'[..c][x] == calls'[x];
    assert c <= m;
    if m == c {
      CleanBelow(calls, k, c);
    } else {
      assert calls[..c] == calls'[..c];
    }
  }

  lemma CleanBelow(calls: seq<Call>, k: nat, c: nat)
    requires c < |calls| && Clean(calls[..c], k) && calls[c].Active()
    requires forall x :: c < x < |calls| ==> calls[x].slot != k
    ensures Clean(calls, k)
  {
    hide SegmentCount;
    assert forall x :: 0 <= x < c ==> calls[..c][x] == calls[x];
  }

  lemma SentGrows(call: Call, call': Call, c: nat, out: seq<Entry>, out': seq<Entry>)
    requires CallMoves(call, call', c, out, out')
    ensures call'.sent >= call.sent && call'.slot == call.slot
  {
    hide PcMoves;
  }

  ghost predicate JustAbandons(calls: seq<Call>, calls': seq<Call>, k: nat, c: nat) {
    && c < |calls| == |calls'| && Clean(calls, k)
    && forall x :: 0 <= x < |calls'| && x != c && calls'[x].slot == k ==> x < c && !calls'[x].Active()
  }

  lemma {:induction false} RunLeft(run: seq<Sys>, k: nat, c: nat, d: nat)
    requires IsRun(run) && |Last(run).snd.askers| < U32_SIZE && k < SLOTS && Abandoned(Last(run).snd.calls, k, c, d)
    ensures Inv(Last(run)) && Shaped(Last(run)) && LeftInv(Last(run).snd.calls, Last(run).out[k], k, c, d)
  {
    RunInv(run);
    hide Next, Inv, Abandoned, LeftInv, InOrder, Clean;
    if |run| == 1 {
      NoneAbandoned(k, c, d);
    } else {
      var before := run[..|run| - 1];
      var s, s' := Last(before), Last(run);
      assert Next(s, s');
      StepIsFinal(s, s');
      RunInv(before);
      ShapedIs(s);
      ShapedIs(s');
      StepIsSlotStep(s, s', k);
      hide SlotStep;
      AbandonedWas(s.snd.calls, s'.snd.calls, s.out[k], s'.out[k], k, c, d);
      if Abandoned(s.snd.calls, k, c, d) {
        RunLeft(before, k, c, d);
        LeftStays(s.snd.calls, s'.snd.calls, s.out[k], s'.out[k], k, c, d);
      } else {
        RunInOrder(before, k);
        SlotStaysInOrder(s.snd.calls, s'.snd.calls, s.out[k], s'.out[k], k);
        LeftStarts(s'.snd.calls, s'.out[k], k, c, d);
      }
    }
  }

  lemma NoneAbandoned(k: nat, c: nat, d: nat)
    ensures !Abandoned(INIT.snd.calls, k, c, d)
  {
  }

  /* ---- what comes out ---- */

  ghost predicate AgreeUpTo(a: bytes, b: bytes, n: int) {
    forall i :: 0 <= i < n ==> i < |a| && i < |b| && a[i] == b[i]
  }

  /** Both messages need equally many segments, the abandoned one is not longer, and they begin with the
      same bytes as far as its k written segments reach. */
  ghost predicate Compatible(abandoned: bytes, message: bytes, k: nat) {
    && SegmentCount(Wire(abandoned)) == SegmentCount(Wire(message)) && |abandoned| <= |message|
    && AgreeUpTo(abandoned, message, k * BODY_MAX_SIZE - 4)
  }

  lemma CountOrder(a: bytes, b: bytes, k: nat)
    requires IsWire(a) && IsWire(b) && k < SegmentCount(a)
    ensures EndOf(a, k) == k * BODY_MAX_SIZE < |a|
    ensures k < SegmentCount(b) ==> EndOf(b, k) == EndOf(a, k)
    ensures |a| <= |b| ==> SegmentCount(a) <= SegmentCount(b) && EndOf(b, SegmentCount(a)) >= |a|
    ensures EndOf(b, SegmentCount(a)) == |b| <==> SegmentCount(b) <= SegmentCount(a)
  {
    CountIsExact(a);
    CountIsExact(b);
    hide SegmentCount, IsWire;
    MultiplesOrder(|a|, |b|, SegmentCount(a), SegmentCount(b), k);
  }

  lemma MultiplesOrder(x: nat, y: nat, n: nat, m: nat, k: nat)
    requires (n - 1) * BODY_MAX_SIZE < x <= n * BODY_MAX_SIZE && (m - 1) * BODY_MAX_SIZE < y <= m * BODY_MAX_SIZE
    ensures k < n ==> k * BODY_MAX_SIZE < x
    ensures k < m ==> k * BODY_MAX_SIZE < y
    ensures x <= y ==> n <= m
    ensures n * BODY_MAX_SIZE >= y <==> m <= n
  {
    if k < n { assert k * BODY_MAX_SIZE <= (n - 1) * BODY_MAX_SIZE; }
    if k < m { assert k * BODY_MAX_SIZE <= (m - 1) * BODY_MAX_SIZE; }
    if m <= n {
      assert m * BODY_MAX_SIZE <= n * BODY_MAX_SIZE;
    } else {
      assert n * BODY_MAX_SIZE <= (m - 1) * BODY_MAX_SIZE;
    }
  }

  /** The mixture equals b's message exactly under the stated condition. */
  lemma PrefixDecides(a: bytes, b: bytes, k: nat)
    requires IsWire(a) && IsWire(b) && 1 <= k < SegmentCount(a) && |a| <= |b|
    ensures var reach := EndOf(a, k);
            && 4 <= reach <= |a|
            && (Mixed(a, b, k) == b[4..] <==> SegmentCount(a) == SegmentCount(b) && a[4..reach] <= b[4..])
  {
    CountOrder(a, b, k);
    CountOrder(b, a, SegmentCount(b) - 1);
    var reach, n := EndOf(a, k), SegmentCount(a);
    hide SegmentCount, IsWire;
    var mixed := Mixed(a, b, k);
    assert mixed == a[4..reach] + b[reach..EndOf(b, n)] && |mixed| == EndOf(b, n) - 4;
    if mixed == b[4..] {
      assert a[4..reach] == mixed[..reach - 4];
    }
    if n == SegmentCount(b) && a[4..reach] <= b[4..] {
      assert b[4..] == a[4..reach] + b[4..][reach - 4..];
    }
  }

  lemma StartOfPayload(abandoned: bytes, message: bytes, k: nat)
    requires 1 <= k && k * BODY_MAX_SIZE <= 4 + |abandoned|
    ensures 4 <= EndOf(Wire(abandoned), k) <= 4 + |abandoned|
    ensures Wire(abandoned)[4..EndOf(Wire(abandoned), k)] <= message
            <==> AgreeUpTo(abandoned, message, k * BODY_MAX_SIZE - 4)
  {
    var n := k * BODY_MAX_SIZE - 4;
    var start := abandoned[..n];
    assert Wire(abandoned)[4..EndOf(Wire(abandoned), k)] == Wire(abandoned)[4..][..n] == start;
    assert forall i :: 0 <= i < n ==> start[i] == abandoned[i];
    if AgreeUpTo(abandoned, message, n) {
      var last := abandoned[n - 1];
      assert n - 1 < |message| && message[n - 1] == last;
      assert message[..n] == start;
    }
  }

  /** The mixture is the message if and only if the two are compatible. */
  lemma MixtureIff(abandoned: bytes, message: bytes, k: nat)
    requires Sendable(abandoned) && Sendable(message) && 1 <= k < SegmentCount(Wire(abandoned))
    requires |abandoned| <= |message|
    ensures Mixed(Wire(abandoned), Wire(message), k) == message <==> Compatible(abandoned, message, k)
  {
    SendableIsWire(abandoned);
    SendableIsWire(message);
    CountOrder(Wire(abandoned), Wire(message), k);
    PrefixDecides(Wire(abandoned), Wire(message), k);
    StartOfPayload(abandoned, message, k);
    hide Mixed, SegmentCount, EndOf, Wire, IsWire, AgreeUpTo;
  }

  /** What a slot has handed out in each stage. */
  lemma StageHandsOut(slot: Held, rest: Rest, message: bytes, pc: Pc)
    requires Sendable(message) && Stage(slot, rest, Wire(message), pc)
    ensures rest.Valid()
    ensures var b := Wire(message);
            || slot.1 == rest.before
            || (|rest.a| <= |b| && slot.1 == rest.before + [Mixed(rest.a, b, rest.j)])
            || (|rest.a| <= |b| && SegmentCount(rest.a) != SegmentCount(b)
                && slot.1 == rest.before + [Mixed(rest.a, b, rest.j), message])
    ensures pc.Waiting? && slot.1 == rest.before ==> |Wire(message)| < |rest.a|
  {
    var b := Wire(message);
    SendableIsWire(message);
    hide Wire, SegmentCount, Tracks, AreLacking, Mixed, IsFull, Current;
    if i :| StillMixing(slot, rest, b, pc, i) {
      if pc.Waiting? { MixedToTheEnd(slot.0.value, rest, b, i); }
      hide Refills, Repaired, Ahead, WritesOn;
    } else {
      hide StillMixing, Rest.Valid;
      if Repaired(slot, rest, b, pc) {
        hide Refills;
      } else {
        var accepted :| Refills(slot, rest, b, pc, accepted);
        LongerByOne(rest.before, Mixed(rest.a, b, rest.j));
      }
    }
  }

  lemma LongerByOne(before: seq<bytes>, m: bytes)
    ensures before + [m] != before
  {
    assert |before + [m]| == |before| + 1;
  }

  /** All of b has been taken in and a is not complete: b is the shorter. */
  lemma MixedToTheEnd(r: Recv, rest: Rest, b: bytes, i: nat)
    requires IsWire(b) && rest.Valid() && Ahead(r, rest.a, b, rest.j, i) && i >= SegmentCount(b)
    ensures |b| < |rest.a|
  {
    CountIsExact(b);
    hide SegmentCount, Midway;
  }

  lemma {:induction false} SlotPrefix(out: seq<Entry>, m: nat)
    requires m <= |out|
    ensures Slot(out[..m]).1 <= Slot(out).1
  {
    if m == |out| {
      assert out[..m] == out;
    } else {
      var init := out[..|out| - 1];
      SlotPrefix(init, m);
      assert init[..m] == out[..m];
      hide Take;
    }
  }

  /* ---- results ---- */

  /** What is left over when call d with this message takes the slot. */
  ghost predicate HandsOut(log: seq<bytes>, before: seq<bytes>, abandoned: bytes, message: bytes, k: nat)
    requires Sendable(abandoned) && Sendable(message) && 1 <= k < SegmentCount(Wire(abandoned))
  {
    && (|abandoned| > |message| ==> log <= before)
    && (|abandoned| <= |message| ==> log <= before + [Mixed(Wire(abandoned), Wire(message), k), message])
    && (|log| > |before| ==> (log == before + [message] <==> Compatible(abandoned, message, k)))
  }

  lemma PartHandsOut(log: seq<bytes>, all: seq<bytes>, before: seq<bytes>, abandoned: bytes, message: bytes, k: nat)
    requires Sendable(abandoned) && Sendable(message) && 1 <= k < SegmentCount(Wire(abandoned)) && log <= all
    requires var m, fits := Mixed(Wire(abandoned), Wire(message), k), |abandoned| <= |message|;
             || all == before
             || (fits && all == before + [m])
             || (fits && SegmentCount(Wire(abandoned)) != SegmentCount(Wire(message)) && all == before + [m, message])
    ensures HandsOut(log, before, abandoned, message, k)
  {
    var m := Mixed(Wire(abandoned), Wire(message), k);
    if |abandoned| <= |message| {
      MixtureIff(abandoned, message, k);
      assert before + [m] <= before + [m, message];
      if |log| > |before| {
        assert log[|before|] == m;
        assert |log| == |before| + 1 ==> log == before + [m];
      }
    }
    hide Mixed, SegmentCount, Wire, AgreeUpTo;
  }

  /** After call c failed in the middle of its message, with any earlier history on the slot in which no
      call did, in every run: what the slot hands out when call d follows. Once something of d has come
      out it is d's message, once, if and only if the two messages are compatible; and the same holds as
      soon as d has nothing left to write and nothing of it is under way, when a longer abandoned message
      has swallowed it. */
  lemma AfterAbandoned(run: seq<Sys>, k: nat, c: nat, d: nat)
    requires IsRun(run) && |Last(run).snd.askers| < U32_SIZE && k < SLOTS && Abandoned(Last(run).snd.calls, k, c, d)
    requires d < |Last(run).snd.calls|
    ensures var s := Last(run);
            var calls, log, before := s.snd.calls, LogOf(s.log, k), FullySent(s.snd.calls[..c], k);
            var abandoned, message, j := calls[c].message, calls[d].message, calls[c].sent;
            && Sendable(abandoned) && Sendable(message)
            && HandsOut(log, before, abandoned, message, j)
            && (calls[d].pc.Waiting? && TransOf(s.toR, k) == [] ==>
                  (log == before + [message] <==> Compatible(abandoned, message, j)))
  {
    RunLeft(run, k, c, d);
    var s := Last(run);
    var calls, out, rest := s.snd.calls, s.out[k], RestOf(s.snd.calls, k, c);
    var abandoned, message := calls[c].message, calls[d].message;
    assert ArrivedOk(s, k);
    hide IsRun, Inv, Slot, Stage, StillMixing, FullySent, SegmentCount, LogOf;
    assert rest.Valid() && Sendable(abandoned);
    StageHandsOut(Slot(out), rest, message, calls[d].pc);
    SlotPrefix(out, s.eaten[k]);
    var log := LogOf(s.log, k);
    hide Mixed, Rest.Valid;
    PartHandsOut(log, Slot(out).1, rest.before, abandoned, message, rest.j);
    if TransOf(s.toR, k) == [] {
      assert out[..s.eaten[k]] == out && log == Slot(out).1;
      if log == rest.before { SwallowedIsIncompatible(abandoned, message, rest.before); }
    }
    hide Wire;
  }

  lemma SwallowedIsIncompatible(abandoned: bytes, message: bytes, before: seq<bytes>)
    ensures |message| < |abandoned| ==> forall j: nat :: !Compatible(abandoned, message, j)
    ensures before != before + [message]
  {
    assert |before + [message]| == |before| + 1;
  }
}
