/** What `msgRecving.Save` maintains over the segments of one message. */
module Reassembly {
  import opened Bytes
  import opened Sending
  import opened Recving

  /** Every order ID of w has been accepted. */
  ghost predicate IsFull(w: bytes, accepted: set<nat>) {
    forall i: nat :: i < SegmentCount(w) ==> i in accepted
  }

  /** The IDs below n. */
  ghost function Below(n: nat): (all: set<nat>)
    ensures |all| == n && forall i: int :: i in all <==> 0 <= i < n
  {
    if n == 0 then {} else Below(n - 1) + {n - 1}
  }

  /** How many bytes the accepted bodies below k carry. */
  ghost function Carried(w: bytes, accepted: set<nat>, k: nat): nat {
    if k == 0 then 0
    else Carried(w, accepted, k - 1) + if k - 1 in accepted then |Fragment(w, k - 1)| else 0
  }

  /** r is what `Save` makes of the segments of w with the given IDs, whatever order they came in:
      the accepted IDs are [0, nextID) and the keys of `saved`, which all exceed nextID; the buffer
      holds the payload the first nextID bodies carry; and the byte counter counts accepted bytes. */
  ghost predicate Tracks(r: Recv, w: bytes, accepted: set<nat>) {
    && |w| > 4 && r.nextID <= SegmentCount(w)
    && r.readBuf == (if r.nextID == 0 then [] else w[4..EndOf(w, r.nextID)])
    && (forall i :: i in accepted ==> i < SegmentCount(w))
    && (forall i: nat :: i < r.nextID ==> i in accepted) && r.nextID !in accepted
    && (forall k: u16 :: k in r.saved <==> k in accepted && r.nextID < k)
    && (forall k: u16 :: k in r.saved ==> r.saved[k] == Fragment(w, k))
    && r.needLength == (if r.nextID == 0 then 0 else |w|)
    && r.readLength == Carried(w, accepted, SegmentCount(w))
    && (forall i :: i in accepted ==> i <= r.largestOrderID)
    && (if accepted == {} then r.largestOrderID == 0 else r.largestOrderID in accepted)
    && (r.completed <==> IsFull(w, accepted))
  }

  lemma {:induction false} CarriedBound(w: bytes, accepted: set<nat>, k: nat)
    requires IsWire(w) && k <= SegmentCount(w)
    ensures Carried(w, accepted, k) <= EndOf(w, k)
    ensures Carried(w, accepted, k) == EndOf(w, k) <==> forall i: nat :: i < k ==> i in accepted
  {
    if k > 0 {
      CarriedBound(w, accepted, k - 1);
      FragmentShape(w, k - 1);
    }
  }

  lemma {:induction false} CarriedInsert(w: bytes, accepted: set<nat>, i: nat, k: nat)
    requires i !in accepted
    ensures Carried(w, accepted + {i}, k) == Carried(w, accepted, k) + if i < k then |Fragment(w, i)| else 0
  {
    if k > 0 {
      CarriedInsert(w, accepted, i, k - 1);
    }
  }

  lemma {:induction false} CarriedNothing(w: bytes, k: nat)
    ensures Carried(w, {}, k) == 0
  {
    if k > 0 {
      CarriedNothing(w, k - 1);
    }
  }

  lemma FreshTracks(w: bytes)
    requires IsWire(w)
    ensures Tracks(FRESH, w, {})
  {
    CountIsExact(w);
    CarriedNothing(w, SegmentCount(w));
    assert !IsFull(w, {}) by {
      assert 0 !in {};
    }
  }

  lemma CompletedIsFull(r: Recv, w: bytes, accepted: set<nat>)
    requires Tracks(r, w, accepted)
    ensures r.completed <==> IsFull(w, accepted)
  {
  }

  /** The byte counter decides completeness. */
  lemma BytesDecideCompleteness(w: bytes, accepted: set<nat>)
    requires IsWire(w)
    ensures Carried(w, accepted, SegmentCount(w)) >= |w| <==> IsFull(w, accepted)
    ensures Carried(w, accepted, SegmentCount(w)) <= |w|
  {
    CountIsExact(w);
    CarriedBound(w, accepted, SegmentCount(w));
  }

  lemma {:induction false} DrainTracks(w: bytes, buf: bytes, next: u16, saved: map<u16, bytes>)
    requires IsWire(w) && next < SegmentCount(w)
    requires buf == w[4..EndOf(w, next + 1)]
    requires forall k: u16 :: k in saved ==> next < k < SegmentCount(w) && saved[k] == Fragment(w, k)
    ensures var (buf', next', saved') := Drain(buf, next, saved);
            && next < next' <= SegmentCount(w) && next' !in saved
            && (forall k: u16 :: next < k < next' ==> k in saved)
            && (forall k: u16 :: k in saved' <==> k in saved && next' < k)
            && (forall k: u16 :: k in saved' ==> saved'[k] == saved[k])
            && buf' == w[4..EndOf(w, next')]
    decreases saved.Keys
  {
    CountIsExact(w);
    var n := ToU16(next + 1);
    assert n == next + 1;
    if n in saved {
      FragmentShape(w, n);
      assert buf + saved[n] == w[4..EndOf(w, n + 1)];
      DrainTracks(w, buf + saved[n], n, saved - {n});
    }
  }

  lemma AcceptCounts(r: Recv, w: bytes, accepted: set<nat>, i: u16)
    requires IsWire(w) && i < SegmentCount(w) && i !in accepted
    requires r.readLength == Carried(w, accepted, SegmentCount(w))
    requires r.CanSave(i, Fragment(w, i))
    ensures r.Accept(i, Fragment(w, i)).readLength == Carried(w, accepted + {i}, SegmentCount(w))
  {
    CarriedInsert(w, accepted, i, SegmentCount(w));
    BytesDecideCompleteness(w, accepted + {i});
  }

  lemma NextBodyExtends(w: bytes, i: nat, buf: bytes)
    requires IsWire(w) && i < SegmentCount(w)
    requires buf == if i == 0 then [] else w[4..EndOf(w, i)]
    ensures i == 0 ==> |Fragment(w, 0)| >= 4 && GetU32(Fragment(w, 0)[..4]) == |w|
    ensures EndOf(w, i + 1) >= 4
    ensures buf + (if i == 0 then Fragment(w, 0)[4..] else Fragment(w, i)) == w[4..EndOf(w, i + 1)]
  {
    FragmentShape(w, i);
  }

  lemma AcceptAppends(r: Recv, w: bytes, accepted: set<nat>, i: u16)
    requires IsWire(w) && Tracks(r, w, accepted) && i < SegmentCount(w) && i !in accepted && i == r.nextID
    requires r.CanSave(i, Fragment(w, i))
    ensures var r' := r.Accept(i, Fragment(w, i));
            Tracks(r'.(completed := IsFull(w, accepted + {i})), w, accepted + {i})
  {
    NextBodyExtends(w, i, r.readBuf);
    AcceptCounts(r, w, accepted, i);
    assert i !in r.saved;
    assert r.saved - {i} == r.saved;
    var text := if i == 0 then Fragment(w, i)[4..] else Fragment(w, i);
    var (buf, next, saved) := Drain(r.readBuf + text, i, r.saved);
    DrainTracks(w, r.readBuf + text, i, r.saved);
    DrainAccounts(w, accepted, i, r.saved, next, saved);
    var r' := r.Accept(i, Fragment(w, i));
    assert r'.readBuf == buf && r'.nextID == next && r'.saved == saved && r'.needLength == |w|;
  }

  /** The set side of `AcceptAppends`: which IDs are contiguous and which are still saved. */
  lemma DrainAccounts(w: bytes, accepted: set<nat>, i: u16, saved: map<u16, bytes>, next: u16, rest: map<u16, bytes>)
    requires forall i: nat :: i in accepted ==> i < SegmentCount(w)
    requires forall j: nat :: j < i ==> j in accepted
    requires forall k: u16 :: k in saved <==> k in accepted && i < k
    requires forall k: u16 :: k in saved ==> saved[k] == Fragment(w, k)
    requires i < next && next !in saved
    requires forall k: u16 :: i < k < next ==> k in saved
    requires forall k: u16 :: k in rest <==> k in saved && next < k
    requires forall k: u16 :: k in rest ==> rest[k] == saved[k]
    ensures forall j: nat :: j < next ==> j in accepted + {i}
    ensures next !in accepted + {i}
    ensures forall k: u16 :: k in rest <==> k in accepted + {i} && next < k
    ensures forall k: u16 :: k in rest ==> rest[k] == Fragment(w, k)
  {
    forall j: nat | j < next ensures j in accepted + {i} {
      if i < j { assert (j as u16) in saved; }
    }
  }

  lemma AcceptSaves(r: Recv, w: bytes, accepted: set<nat>, i: u16)
    requires IsWire(w) && Tracks(r, w, accepted) && i < SegmentCount(w) && i !in accepted && i != r.nextID
    requires r.CanSave(i, Fragment(w, i))
    ensures var r' := r.Accept(i, Fragment(w, i));
            Tracks(r'.(completed := IsFull(w, accepted + {i})), w, accepted + {i})
  {
    AcceptCounts(r, w, accepted, i);
    assert r.nextID < SegmentCount(w);
  }

  /** `Save` refines insertion into a set of IDs. It returns bytes exactly when the segment is the
      last one missing, and the bytes are then the message. */
  lemma SaveInserts(r: Recv, w: bytes, accepted: set<nat>, i: u16)
    requires IsWire(w) && Tracks(r, w, accepted) && i < SegmentCount(w)
    ensures r.CanSave(i, Fragment(w, i))
    ensures Tracks(r.Save(i, Fragment(w, i)).0, w, accepted + {i})
    ensures r.Save(i, Fragment(w, i)).1
            == if i !in accepted && IsFull(w, accepted + {i}) then Some(w[4..]) else None
  {
    FragmentShape(w, i);
    if i in accepted {
      assert accepted + {i} == accepted;
    } else {
      var r' := r.Accept(i, Fragment(w, i));
      if i == r.nextID { AcceptAppends(r, w, accepted, i); } else { AcceptSaves(r, w, accepted, i); }
      CompletedIsFull(r, w, accepted);
      assert !IsFull(w, accepted) && !(i < r.nextID || i in r.saved);
      hide Tracks, SegmentCount, Fragment, IsFull, Recv.Finish;
      assert r.Save(i, Fragment(w, i)) == r'.Finish();
      FinishDecides(r', w, accepted + {i});
    }
  }

  /** The completion check finds that every ID is accepted. */
  lemma FinishDecides(r: Recv, w: bytes, accepted: set<nat>)
    requires IsWire(w) && !r.completed && Tracks(r.(completed := IsFull(w, accepted)), w, accepted)
    ensures r.Finish() == if IsFull(w, accepted) then (r.(completed := true), Some(w[4..])) else (r, None)
  {
    BytesDecideCompleteness(w, accepted);
    if IsFull(w, accepted) {
      FullIsContiguous(r.(completed := true), w, accepted);
      assert r.readBuf + [] == r.readBuf;
    }
    hide SegmentCount, IsFull, Carried;
  }

  /** Once every ID is accepted, nextID is the segment count and nothing is left in `saved`, so the
      sorting branch has nothing to append and the buffer is the message. */
  lemma FullIsContiguous(r: Recv, w: bytes, accepted: set<nat>)
    requires IsWire(w) && Tracks(r, w, accepted) && IsFull(w, accepted)
    ensures r.nextID == SegmentCount(w) && r.saved == map[] && r.readBuf == w[4..] && r.readBuf != []
    ensures SavedBodies(r.saved, 0) == []
    ensures r.needLength == r.readLength == |w|
  {
    CountIsExact(w);
    BytesDecideCompleteness(w, accepted);
    assert r.nextID >= SegmentCount(w);
    NoSavedBodies(r.saved, 0);
  }

  ghost function IdSet(ids: seq<u16>): set<nat> {
    set k | 0 <= k < |ids| :: ids[k] as nat
  }

  /** Save the segments of w with the given IDs one after another; collect what is returned. */
  ghost function SaveAll(w: bytes, ids: seq<u16>): (res: (Recv, seq<Option<bytes>>))
    requires IsWire(w) && forall k :: 0 <= k < |ids| ==> ids[k] < SegmentCount(w)
  {
    if ids == [] then (FRESH, [])
    else
      var (r, out) := SaveAll(w, ids[..|ids| - 1]);
      var i := ids[|ids| - 1];
      FragmentShape(w, i);
      var (r', msg) := r.Save(i, Fragment(w, i));
      (r', out + [msg])
  }

  /** What the last of these saves should return: the message, if it is the one that completes it. */
  ghost function Completed(w: bytes, ids: seq<u16>): Option<bytes>
    requires ids != [] && |w| > 4
  {
    if !IsFull(w, IdSet(ids[..|ids| - 1])) && IsFull(w, IdSet(ids)) then Some(w[4..]) else None
  }

  lemma OneMoreSave(w: bytes, ids: seq<u16>, i: u16)
    requires IsWire(w) && i < SegmentCount(w) && forall k :: 0 <= k < |ids| ==> ids[k] < SegmentCount(w)
    requires Tracks(SaveAll(w, ids).0, w, IdSet(ids))
    ensures Tracks(SaveAll(w, ids + [i]).0, w, IdSet(ids + [i]))
    ensures SaveAll(w, ids + [i]).1 == SaveAll(w, ids).1 + [Completed(w, ids + [i])]
  {
    var all := ids + [i];
    SaveInserts(SaveAll(w, ids).0, w, IdSet(ids), i);
    IdSetSnoc(ids, i);
    assert all[..|all| - 1] == ids;
    if i in IdSet(ids) { assert IdSet(all) == IdSet(ids); }
  }

  /** Any order, any duplicates: the accepted set is the set of IDs seen, and the message comes out
      once, byte-identical, at the save that makes the set complete. */
  lemma {:induction false} AnyOrderReassembles(w: bytes, ids: seq<u16>)
    requires IsWire(w) && forall k :: 0 <= k < |ids| ==> ids[k] < SegmentCount(w)
    ensures Tracks(SaveAll(w, ids).0, w, IdSet(ids))
    ensures |SaveAll(w, ids).1| == |ids|
    ensures forall j :: 0 <= j < |ids| ==> SaveAll(w, ids).1[j] == Completed(w, ids[..j + 1])
  {
    hide IsFull, IdSet, SegmentCount, Fragment, Tracks, Completed, Recv.Save, Recv.CanSave;
    if ids == [] {
      FreshTracks(w);
      IdSetNil();
    } else {
      var before, i := ids[..|ids| - 1], ids[|ids| - 1];
      AnyOrderReassembles(w, before);
      OneMoreSave(w, before, i);
      assert before + [i] == ids;
      var outs, earlier := SaveAll(w, ids).1, SaveAll(w, before).1;
      forall j | 0 <= j < |ids| ensures outs[j] == Completed(w, ids[..j + 1]) {
        if j < |before| {
          assert before[..j + 1] == ids[..j + 1] && outs[j] == earlier[j];
        } else {
          assert ids[..j + 1] == ids;
        }
      }
    }
  }

  lemma IdSetNil()
    ensures IdSet([]) == {}
  {
  }

  lemma IdSetSnoc(ids: seq<u16>, i: u16)
    ensures IdSet(ids + [i]) == IdSet(ids) + {i}
  {
    forall x: nat ensures x in IdSet(ids + [i]) <==> x in IdSet(ids) + {i} {
      if x in IdSet(ids) {
        var k :| 0 <= k < |ids| && ids[k] == x;
        assert (ids + [i])[k] == x;
      }
      if x == i { assert (ids + [i])[|ids|] == x; }
    }
  }

  /** The order IDs a sender reads off a status summary: the list, then everything past the largest. */
  function Outstanding(largest: nat, missing: seq<u16>, count: nat): seq<int> {
    missing + Range(largest + 1, count)
  }

  ghost predicate Ascending(s: seq<int>) {
    forall a, b :: 0 <= a < b < |s| ==> s[a] < s[b]
  }

  lemma {:induction false} MissingIsExact(r: Recv, id: nat)
    ensures Ascending(r.MissingFrom(id))
    ensures forall k :: 0 <= k < |r.MissingFrom(id)| ==> id <= r.MissingFrom(id)[k] < r.largestOrderID
    ensures forall i: u16 :: i in r.MissingFrom(id) <==> id <= i < r.largestOrderID && i !in r.saved
    decreases r.largestOrderID - id
  {
    if id < r.largestOrderID {
      MissingIsExact(r, id + 1);
    }
  }

  lemma OutstandingIs(largest: nat, missing: seq<u16>, count: nat, accepted: set<nat>)
    requires Ascending(missing) && largest < count
    requires forall i: u16 :: i in missing <==> i < largest && i !in accepted
    requires forall i :: i in accepted ==> i <= largest
    requires largest in accepted && count < U16_SIZE
    ensures Ascending(Outstanding(largest, missing, count))
    ensures forall i: nat :: i in Outstanding(largest, missing, count) <==> i < count && i !in accepted
  {
    var todo := Outstanding(largest, missing, count);
    assert forall k :: 0 <= k < |missing| ==> missing[k] in missing;
    forall i: nat ensures i in todo <==> i < count && i !in accepted {
      if i < count && i > largest {
        assert todo[|missing| + i - largest - 1] == i;
      } else if i < largest {
        assert (i as u16) in missing <==> i !in accepted;
        if i in todo { assert i in missing; }
      }
    }
  }

  /** The status summary of an incomplete transfer with at least one accepted segment is exact: the
      missing list and the IDs past the largest are the unaccepted IDs, each once. */
  lemma SummaryIsExact(r: Recv, w: bytes, accepted: set<nat>)
    requires IsWire(w) && Tracks(r, w, accepted) && accepted != {} && !r.completed
    ensures r.GetMissing().0 < SegmentCount(w)
    ensures forall k :: 0 <= k < |r.GetMissing().1| ==> r.GetMissing().1[k] < SegmentCount(w)
    ensures var todo := Outstanding(r.GetMissing().0, r.GetMissing().1, SegmentCount(w));
            && Ascending(todo)
            && forall i: nat :: i in todo <==> i < SegmentCount(w) && i !in accepted
  {
    MissingIsExact(r, r.nextID);
    OutstandingIs(r.largestOrderID, r.MissingFrom(r.nextID), SegmentCount(w), accepted);
  }
}
