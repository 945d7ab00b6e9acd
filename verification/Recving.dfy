/** proto/udp/udp.go, `msgRecving`: reassembly of one transfer. */
module Recving {
  import opened Bytes
  import opened Segments

  /** The draining loop: move nextID past every saved segment that has become contiguous. */
  function Drain(buf: bytes, nextID: u16, saved: map<u16, bytes>): (bytes, u16, map<u16, bytes>)
    decreases saved.Keys
  {
    var n := ToU16(nextID + 1);
    if n !in saved then (buf, n, saved) else Drain(buf + saved[n], n, saved - {n})
  }

  /** The bodies still saved, in ascending order of ID from `id` on. */
  function SavedBodies(saved: map<u16, bytes>, id: nat): bytes
    decreases U16_SIZE - id
  {
    if id >= U16_SIZE then []
    else (if id in saved then saved[id] else []) + SavedBodies(saved, id + 1)
  }

  /** The value of a `msgRecving`. Of a saved segment only the body is ever read. */
  datatype Recv = Recv(
    readBuf: bytes, needLength: u32, readLength: u32,
    saved: map<u16, bytes>, nextID: u16, largestOrderID: u16, completed: bool) {

    /** The slice `seg.b[0:4]` is taken of the first segment only. */
    predicate CanSave(orderID: u16, body: bytes) {
      orderID == nextID == 0 ==> |body| >= 4
    }

    /** A segment that is not a duplicate is counted, then appended or saved. */
    function Accept(orderID: u16, body: bytes): Recv
      requires CanSave(orderID, body)
    {
      var counted := this.(
        readLength := ToU32(readLength + |body|),
        largestOrderID := if largestOrderID < orderID then orderID else largestOrderID);
      if orderID != nextID then counted.(saved := saved[orderID := body])
      else
        var need := if orderID == 0 then GetU32(body[..4]) else needLength;
        var text := if orderID == 0 then body[4..] else body;
        var (buf, next, rest) := Drain(readBuf + text, orderID, saved - {orderID});
        counted.(needLength := need, readBuf := buf, nextID := next, saved := rest)
    }

    /** The tail of `Save`: decide completion by counting bytes. `bytes.Buffer.Bytes` is nil when
        nothing was written, and a nil message is not delivered. */
    function Finish(): (Recv, Option<bytes>) {
      if 0 < needLength <= readLength then
        var buf := readBuf + SavedBodies(saved, 0);
        (this.(completed := true, readBuf := buf), if buf == [] then None else Some(buf))
      else (this, None)
    }

    function Save(orderID: u16, body: bytes): (Recv, Option<bytes>)
      requires CanSave(orderID, body)
    {
      if orderID < nextID || orderID in saved then (this, None)
      else Accept(orderID, body).Finish()
    }

    /** The IDs from `id` up to, not including, the largest that are not saved. */
    function MissingFrom(id: nat): seq<u16>
      decreases largestOrderID - id
    {
      if id >= largestOrderID then []
      else (if id in saved then [] else [id]) + MissingFrom(id + 1)
    }

    function GetMissing(): (u16, seq<u16>) {
      if completed then (0, []) else (largestOrderID, MissingFrom(nextID))
    }
  }

  const FRESH: Recv := Recv([], 0, 0, map[], 0, 0, false)

  class MsgRecving {
    var readBuf: bytes
    var needLength: u32
    var readLength: u32
    var saved: map<u16, bytes>
    var nextID: u16
    var largestOrderID: u16
    var completed: bool

    ghost function View(): Recv
      reads this
    {
      Recv(readBuf, needLength, readLength, saved, nextID, largestOrderID, completed)
    }

    constructor ()
      ensures View() == FRESH
    {
      readBuf, needLength, readLength, saved := [], 0, 0, map[];
      nextID, largestOrderID, completed := 0, 0, false;
    }

    method IsCompleted() returns (b: bool)
      ensures b == View().completed
    {
      b := completed;
    }

    method GetMissing() returns (largest: u16, ml: seq<u16>)
      ensures (largest, ml) == View().GetMissing()
    {
      if completed {
        return 0, [];
      }
      ml := [];
      var i: int := nextID;
      ghost var r := View();
      while i < largestOrderID
        invariant nextID <= i && r == View()
        invariant ml + r.MissingFrom(i) == r.MissingFrom(nextID)
      {
        if i !in saved {
          ml := ml + [i];
        }
        i := i + 1;
      }
      assert r.MissingFrom(i) == [];
      assert ml == r.MissingFrom(nextID);
      return largestOrderID, ml;
    }

    /** The loop of `Save` that advances nextID over contiguous saved segments. */
    method DrainSaved()
      modifies this`readBuf, this`nextID, this`saved
      ensures (readBuf, nextID, saved) == old(Drain(readBuf, nextID, saved))
    {
      ghost var drained := Drain(readBuf, nextID, saved);
      while true
        invariant Drain(readBuf, nextID, saved) == drained
        decreases saved.Keys
      {
        nextID := ToU16(nextID + 1);
        if nextID !in saved {
          break;
        }
        readBuf := readBuf + saved[nextID];
        saved := saved - {nextID};
      }
    }

    /** The sorted loop of `Save` over what is still saved when the message is complete. */
    method AppendSaved()
      modifies this`readBuf
      ensures readBuf == old(readBuf) + SavedBodies(saved, 0)
    {
      for id := 0 to U16_SIZE
        invariant readBuf + SavedBodies(saved, id) == old(readBuf) + SavedBodies(saved, 0)
      {
        if id in saved {
          readBuf := readBuf + saved[id];
        }
      }
      assert readBuf + SavedBodies(saved, U16_SIZE) == readBuf;
    }

    /** `Save` after the duplicate check, up to the completion check. */
    method AcceptSegment(oid: u16, body: bytes)
      requires View().CanSave(oid, body) && oid !in saved
      modifies this
      ensures View() == old(View()).Accept(oid, body)
    {
      readLength := ToU32(readLength + |body|);
      if largestOrderID < oid {
        largestOrderID := oid;
      }
      if oid == nextID {
        if oid == 0 {
          needLength := GetU32(body[..4]);
          readBuf := readBuf + body[4..];
        } else {
          readBuf := readBuf + body;
        }
        saved := saved - {oid};
        DrainSaved();
      } else {
        saved := saved[oid := body];
      }
    }

    /** The completion check that ends `Save`. */
    method FinishSave() returns (msg: Option<bytes>)
      modifies this
      ensures (View(), msg) == old(View()).Finish()
    {
      if needLength > 0 && needLength <= readLength {
        completed := true;
        if |saved| > 0 {
          AppendSaved();
        } else {
          NoSavedBodies(saved, 0);
          assert readBuf + SavedBodies(saved, 0) == readBuf;
        }
        return if readBuf == [] then None else Some(readBuf);
      }
      return None;
    }

    method Save(seg: Segment) returns (msg: Option<bytes>)
      requires seg.HasHeader() && View().CanSave(seg.OrderID(), seg.b)
      modifies this
      ensures (View(), msg) == old(View()).Save(seg.OrderID(), seg.b)
    {
      var oid := seg.OrderID();
      if oid < nextID || oid in saved {
        return None;
      }
      AcceptSegment(oid, seg.b);
      msg := FinishSave();
    }
  }

  lemma {:induction false} NoSavedBodies(saved: map<u16, bytes>, id: nat)
    requires saved == map[]
    ensures SavedBodies(saved, id) == []
    decreases U16_SIZE - id
  {
    if id < U16_SIZE {
      NoSavedBodies(saved, id + 1);
    }
  }
}
