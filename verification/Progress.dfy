/** Every answered query round makes full-window progress, although the missing list is truncated. */
module Progress {
  import opened Bytes
  import opened Sending
  import opened Recving
  import opened Reassembly
  import opened Rounds
  import opened Status
  import opened Endpoint

  /** The pass that follows the status that a slot's receiver, if any, reports. */
  function AnsweredRound(recving: Option<Recv>, count: nat): Round {
    var status := StatusOf(recving, SEND_WINDOW);
    if status.Completed? then Round([], ToWait) else PassAfter(status, count)
  }

  ghost function Elements(s: seq<int>): set<int> {
    set k | 0 <= k < |s| :: s[k]
  }

  lemma {:induction false} AscendingIsDistinct(s: seq<int>)
    requires Ascending(s)
    ensures |Elements(s)| == |s|
  {
    if s != [] {
      var init, last := s[..|s| - 1], s[|s| - 1];
      AscendingIsDistinct(init);
      assert s == init + [last];
      assert Elements(s) == Elements(init) + {last};
    }
  }

  /** A strictly ascending list of the complement of A in [0, n) has n - |A| entries. */
  lemma ComplementSize(n: nat, accepted: set<int>, todo: seq<int>)
    requires forall i :: i in accepted ==> 0 <= i < n
    requires Ascending(todo)
    requires forall k :: 0 <= k < |todo| ==> todo[k] >= 0
    requires forall i: nat :: i in todo <==> i < n && i !in accepted
    ensures |todo| == n - |accepted|
  {
    AscendingIsDistinct(todo);
    assert accepted <= Below(n);
    assert forall k :: 0 <= k < |todo| ==> todo[k] in todo;
    assert Elements(todo) == Below(n) - accepted;
  }

  /** Truncating the list at the window does not change the pass: it is the first `window` of all the
      outstanding IDs. */
  lemma TruncationIsHarmless(largest: u16, missing: seq<u16>, count: nat)
    requires largest < count < U16_SIZE
    requires forall k :: 0 <= k < |missing| ==> missing[k] < count
    ensures var round := ResendRound(largest, missing[..ReplyLimit(|missing|, SEND_WINDOW)], count, SEND_WINDOW);
            var all := Outstanding(largest, missing, count);
            && round.ids == all[..Min(SEND_WINDOW, |all|)]
            && !round.after.ToError?
  {
    var cut := missing[..ReplyLimit(|missing|, SEND_WINDOW)];
    var all := Outstanding(largest, missing, count);
    assert FirstTooLarge(cut, count) == |cut|;
    var round := ResendRound(largest, cut, count, SEND_WINDOW);
    if |missing| <= SEND_WINDOW {
      assert cut == missing;
      assert round.ids == all[..Min(SEND_WINDOW, |all|)];
    } else {
      assert |cut| == SEND_WINDOW;
      assert (cut + Range(largest + 1, count))[..SEND_WINDOW] == cut == all[..SEND_WINDOW];
    }
  }

  /** The first entries of the ascending list of what A lacks. */
  ghost predicate PrefixOfLacking(ids: seq<int>, n: nat, accepted: set<nat>) {
    && |accepted| < n
    && |ids| == Min(SEND_WINDOW, n - |accepted|)
    && Ascending(ids)
    && forall k :: 0 <= k < |ids| ==> 0 <= ids[k] < n && ids[k] !in accepted
  }

  lemma PrefixLacks(all: seq<int>, n: nat, accepted: set<nat>)
    requires Ascending(all)
    requires forall k :: 0 <= k < |all| ==> all[k] >= 0
    requires forall i: nat :: i in all <==> i < n && i !in accepted
    requires forall i :: i in accepted ==> i < n
    requires exists i: nat :: i < n && i !in accepted
    ensures PrefixOfLacking(all[..Min(SEND_WINDOW, |all|)], n, accepted)
  {
    ComplementSize(n, accepted, all);
    var i: nat :| i < n && i !in accepted;
    assert i in all;
    forall k | 0 <= k < |all| ensures all[k] < n && all[k] !in accepted {
      assert all[k] in all;
    }
  }

  lemma IncompleteIsNotFull(r: Recv, w: bytes, accepted: set<nat>)
    requires Tracks(r, w, accepted) && !r.completed
    ensures exists i: nat :: i < SegmentCount(w) && i !in accepted
    ensures forall i :: i in accepted ==> 0 <= i < SegmentCount(w)
  {
  }

  lemma ResendsWhatIsMissing(r: Recv, w: bytes, accepted: set<nat>)
    requires IsWire(w) && Tracks(r, w, accepted) && accepted != {} && !r.completed
    ensures var round := AnsweredRound(Some(r), SegmentCount(w));
            !round.after.ToError? && PrefixOfLacking(round.ids, SegmentCount(w), accepted)
  {
    CountIsExact(w);
    hide SegmentCount;
    IncompleteIsNotFull(r, w, accepted);
    SummaryIsExact(r, w, accepted);
    hide Tracks, IsWire;
    var (largest, ml) := r.GetMissing();
    var todo := Outstanding(largest, ml, SegmentCount(w));
    assert AnsweredRound(Some(r), SegmentCount(w))
        == ResendRound(largest, ml[..ReplyLimit(|ml|, SEND_WINDOW)], SegmentCount(w), SEND_WINDOW);
    TruncationIsHarmless(largest, ml, SegmentCount(w));
    hide AnsweredRound, Recv.GetMissing, ResendRound, Outstanding;
    PrefixLacks(todo, SegmentCount(w), accepted);
  }

  /** Each answered query round sends exactly min(64, number of unaccepted) distinct unaccepted
      segments, also when the receiver knows of none yet, and never runs into an ID the message does not
      have. */
  lemma RoundSendsWhatIsMissing(recving: Option<Recv>, w: bytes, accepted: set<nat>)
    requires IsWire(w)
    requires match recving
             case None => accepted == {}
             case Some(r) => Tracks(r, w, accepted) && accepted != {} && !r.completed
    ensures var round := AnsweredRound(recving, SegmentCount(w));
            && !round.after.ToError?
            && PrefixOfLacking(round.ids, SegmentCount(w), accepted)
  {
    CountIsExact(w);
    if recving.Some? {
      ResendsWhatIsMissing(recving.value, w, accepted);
    }
    hide SegmentCount, Tracks, StatusOf, ResendRound;
  }

  ghost function Flat(rounds: seq<seq<u16>>): seq<u16> {
    if rounds == [] then [] else Flat(rounds[..|rounds| - 1]) + rounds[|rounds| - 1]
  }

  ghost predicate AllBelow(ids: seq<u16>, n: nat) {
    forall k :: 0 <= k < |ids| ==> ids[k] < n
  }

  ghost predicate IsArrangement(got: seq<int>, ids: seq<int>) {
    multiset(got) == multiset(ids)
  }

  /** The IDs of the pass the sender makes after these rounds: the first pass is blind, the others
      follow the receiver's status. */
  ghost function NextPass(w: bytes, rounds: seq<seq<u16>>): seq<int>
    requires IsWire(w) && AllBelow(Flat(rounds), SegmentCount(w))
  {
    if rounds == [] then FullRound(SegmentCount(w), SEND_WINDOW).ids
    else AnsweredRound(Some(SaveAll(w, Flat(rounds)).0), SegmentCount(w)).ids
  }

  /** Rounds made while the message was incomplete, each arriving whole but in any order. */
  ghost predicate Lossless(w: bytes, rounds: seq<seq<u16>>)
    requires IsWire(w)
  {
    && AllBelow(Flat(rounds), SegmentCount(w))
    && (rounds == []
        || var before := rounds[..|rounds| - 1];
           && Lossless(w, before)
           && !SaveAll(w, Flat(before)).0.completed
           && IsArrangement(rounds[|rounds| - 1], NextPass(w, before)))
  }

  lemma ArrangementMembers(got: seq<int>, ids: seq<int>)
    requires IsArrangement(got, ids)
    ensures |got| == |ids| && forall x :: x in got <==> x in ids
  {
    assert |multiset(got)| == |multiset(ids)|;
    assert forall x :: x in got <==> x in multiset(got);
  }

  lemma ArrangementAdds(before: seq<u16>, got: seq<u16>, ids: seq<int>)
    requires Ascending(ids) && IsArrangement(got, ids)
    requires forall k :: 0 <= k < |ids| ==> ids[k] >= 0 && ids[k] !in IdSet(before)
    ensures |IdSet(before + got)| == |IdSet(before)| + |ids|
    ensures |got| == |ids|
  {
    ArrangementMembers(got, ids);
    AscendingIsDistinct(ids);
    var all := before + got;
    var a: set<int> := IdSet(before);
    forall x: int ensures x in IdSet(all) <==> x in a || x in Elements(ids) {
      if x in a { var k :| 0 <= k < |before| && before[k] == x; assert all[k] == x; }
      if x in ids { var k :| 0 <= k < |got| && got[k] == x; assert all[|before| + k] == x; }
    }
    assert IdSet(all) == a + Elements(ids);
    assert a !! Elements(ids);
  }

  lemma FullIsAll(w: bytes, accepted: set<int>)
    requires forall i :: i in accepted ==> 0 <= i < SegmentCount(w)
    ensures IsFull(w, accepted) <==> |accepted| == SegmentCount(w)
    ensures |accepted| <= SegmentCount(w)
  {
    var all := Below(SegmentCount(w));
    assert accepted <= all;
    assert |all - accepted| == |all| - |accepted|;
    if IsFull(w, accepted) { assert accepted == all; }
    if |accepted| == SegmentCount(w) {
      assert all - accepted == {};
      assert forall i :: i in all ==> i in accepted || i in all - accepted;
    }
  }

  /** After k lossless rounds exactly min(n, 64k) segments are accepted, none of them sent twice. */
  lemma {:induction false} RoundsAccept(w: bytes, rounds: seq<seq<u16>>)
    requires IsWire(w) && Lossless(w, rounds)
    ensures |IdSet(Flat(rounds))| == |Flat(rounds)| == Min(SegmentCount(w), SEND_WINDOW * |rounds|)
  {
    if rounds != [] {
      var before, got := rounds[..|rounds| - 1], rounds[|rounds| - 1];
      RoundsAccept(w, before);
      NextPassIsNew(w, before);
      ArrangementAdds(Flat(before), got, NextPass(w, before));
    }
  }

  lemma NextPassIsNew(w: bytes, rounds: seq<seq<u16>>)
    requires IsWire(w) && Lossless(w, rounds)
    requires |IdSet(Flat(rounds))| == |Flat(rounds)| == Min(SegmentCount(w), SEND_WINDOW * |rounds|)
    requires !SaveAll(w, Flat(rounds)).0.completed
    ensures PrefixOfLacking(NextPass(w, rounds), SegmentCount(w), IdSet(Flat(rounds)))
  {
    CountIsExact(w);
    AnyOrderReassembles(w, Flat(rounds));
    if rounds != [] {
      RoundSendsWhatIsMissing(Some(SaveAll(w, Flat(rounds)).0), w, IdSet(Flat(rounds)));
    } else {
      IdSetNil();
    }
  }

  /** Without repeats, the n-th save returns the message and no other save returns anything. */
  lemma LastReturns(w: bytes, ids: seq<u16>)
    requires IsWire(w) && AllBelow(ids, SegmentCount(w)) && |IdSet(ids)| == |ids|
    ensures SaveAll(w, ids).0.completed <==> |ids| == SegmentCount(w)
    ensures |SaveAll(w, ids).1| == |ids| <= SegmentCount(w)
    ensures forall k :: 0 <= k < |ids| ==>
              SaveAll(w, ids).1[k] == if k + 1 == SegmentCount(w) then Some(w[4..]) else None
  {
    AnyOrderReassembles(w, ids);
    TrackedIsFull(SaveAll(w, ids).0, w, IdSet(ids));
    hide Tracks, SaveAll, Reassembly.Completed;
    forall k | 0 <= k < |ids|
      ensures SaveAll(w, ids).1[k] == if k + 1 == SegmentCount(w) then Some(w[4..]) else None
    {
      FullAtLast(w, ids, k);
    }
  }

  /** The set of IDs becomes full with the last one. */
  lemma FullAtLast(w: bytes, ids: seq<u16>, k: nat)
    requires IsWire(w) && AllBelow(ids, SegmentCount(w)) && |IdSet(ids)| == |ids| && k < |ids|
    ensures Reassembly.Completed(w, ids[..k + 1]) == if k + 1 == SegmentCount(w) then Some(w[4..]) else None
  {
    var upTo := ids[..k + 1];
    assert upTo[..k] == ids[..k];
    PrefixSize(ids, k);
    PrefixSize(ids, k + 1);
    FullIsAll(w, IdSet(ids[..k]));
    FullIsAll(w, IdSet(upTo));
    hide IsFull, SegmentCount;
  }

  lemma TrackedIsFull(r: Recv, w: bytes, accepted: set<nat>)
    requires Tracks(r, w, accepted)
    ensures r.completed <==> |accepted| == SegmentCount(w)
    ensures |accepted| <= SegmentCount(w)
  {
    FullIsAll(w, accepted);
  }

  /** A message of n segments is complete after exactly ceil(n / 64) lossless rounds: not before, and
      then `Save` has returned the message at the very last segment and nothing before it. */
  lemma LosslessRoundsFinish(w: bytes, rounds: seq<seq<u16>>)
    requires IsWire(w) && Lossless(w, rounds)
    ensures |rounds| <= (SegmentCount(w) + SEND_WINDOW - 1) / SEND_WINDOW
    ensures SaveAll(w, Flat(rounds)).0.completed
            <==> |rounds| == (SegmentCount(w) + SEND_WINDOW - 1) / SEND_WINDOW
    ensures SaveAll(w, Flat(rounds)).0.completed ==>
              var outs := SaveAll(w, Flat(rounds)).1;
              && outs != [] && outs[|outs| - 1] == Some(w[4..])
              && forall k :: 0 <= k < |outs| - 1 ==> outs[k] == None
  {
    CountIsExact(w);
    RoundsAccept(w, rounds);
    LastReturns(w, Flat(rounds));
    if rounds != [] {
      RoundsAccept(w, rounds[..|rounds| - 1]);
    }
  }

  /** A list without repeats has no repeats in a prefix. */
  lemma PrefixSize(ids: seq<u16>, k: nat)
    requires |IdSet(ids)| == |ids| && k <= |ids|
    ensures |IdSet(ids[..k])| == k
  {
    SizeAtMost(ids[..k]);
    SizeAtMost(ids[k..]);
    assert ids == ids[..k] + ids[k..];
    forall x: nat | x in IdSet(ids) ensures x in IdSet(ids[..k]) + IdSet(ids[k..]) {
      var j :| 0 <= j < |ids| && ids[j] == x;
      if j < k { assert ids[..k][j] == x; } else { assert ids[k..][j - k] == x; }
    }
    assert IdSet(ids) <= IdSet(ids[..k]) + IdSet(ids[k..]);
    SubsetSize(IdSet(ids), IdSet(ids[..k]) + IdSet(ids[k..]));
  }

  lemma SubsetSize(a: set<nat>, b: set<nat>)
    requires a <= b
    ensures |a| <= |b|
  {
    assert b == a + (b - a);
  }

  lemma {:induction false} SizeAtMost(ids: seq<u16>)
    ensures |IdSet(ids)| <= |ids|
  {
    if ids == [] {
      IdSetNil();
    } else {
      SizeAtMost(ids[..|ids| - 1]);
      IdSetSnoc(ids[..|ids| - 1], ids[|ids| - 1]);
      assert ids == ids[..|ids| - 1] + [ids[|ids| - 1]];
    }
  }
}
