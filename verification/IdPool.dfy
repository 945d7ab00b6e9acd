/** 32-bit identifiers handed out by stepping around the cycle: tunnel/tunnel_pool.go and
    session/pool.go step by two from an odd or an even start and skip zero, proto/udp/udp.go steps its
    request IDs by one. */
module IdPool {
  import opened Bytes

  /** `+=` of d steps on a 32-bit counter. */
  function StepID(current: u32, stride: nat, d: nat): u32 {
    ToU32(current + (if stride == 1 then d else 2 * d))
  }

  /** id is d steps ahead, is free, and every ID passed on the way is taken. */
  ghost predicate IsFreeAt(current: u32, stride: nat, taken: set<u32>, id: u32, d: nat) {
    && 1 <= d && id == StepID(current, stride, d) && id !in taken
    && forall e: nat :: 1 <= e < d ==> StepID(current, stride, e) in taken
  }

  ghost predicate IsNextID(current: u32, stride: nat, taken: set<u32>, id: u32) {
    exists d: nat :: IsFreeAt(current, stride, taken, id, d)
  }

  predicate SameParity(a: int, b: int) { a % 2 == b % 2 }

  ghost predicate HasFree(parity: int, taken: set<u32>) {
    exists id: u32 :: IsFree(id, parity, taken)
  }

  ghost predicate IsFree(id: u32, parity: int, taken: set<u32>) {
    SameParity(id, parity) && id !in taken
  }

  lemma StepsAdd(current: u32, stride: nat, d: nat, e: nat)
    ensures StepID(StepID(current, stride, d), stride, e) == StepID(current, stride, d + e)
  {
  }

  /** Stepping by two never changes parity, also where the counter wraps. */
  lemma StepKeepsParity(current: u32, d: nat)
    ensures SameParity(StepID(current, 2, d), current)
  {
  }

  /** Every ID of the counter's parity is at most half the 32-bit range of steps ahead. */
  lemma StepsToReach(current: u32, id: u32) returns (d: nat)
    requires SameParity(current, id)
    ensures 1 <= d <= U32_SIZE / 2 && StepID(current, 2, d) == id
  {
    d := if id > current then (id - current) / 2 else (id - current + U32_SIZE) / 2;
  }

  /** Two points of one walk carry the same ID exactly when full cycles lie between them. */
  lemma SameIDIffFullCycles(current: u32, d: nat)
    ensures StepID(current, 2, d) == current <==> d % (U32_SIZE / 2) == 0
  {
    var cycles, over := d / (U32_SIZE / 2), d % (U32_SIZE / 2);
    assert d == cycles * (U32_SIZE / 2) + over;
    CyclesCancel(current, cycles, over);
  }

  lemma CyclesCancel(current: u32, cycles: nat, over: nat)
    requires over < U32_SIZE / 2
    ensures StepID(current, 2, cycles * (U32_SIZE / 2) + over) == ToU32(current + 2 * over)
    ensures ToU32(current + 2 * over) == current <==> over == 0
  {
    assert current + 2 * (cycles * (U32_SIZE / 2) + over) == cycles * U32_SIZE + (current + 2 * over);
  }

  lemma FirstFree(current: u32, taken: set<u32>, d: nat) returns (first: nat)
    requires 1 <= d && StepID(current, 2, d) !in taken
    ensures first <= d && IsFreeAt(current, 2, taken, StepID(current, 2, first), first)
  {
    first := 1;
    while StepID(current, 2, first) in taken
      invariant 1 <= first <= d && forall e: nat :: 1 <= e < first ==> StepID(current, 2, e) in taken
      decreases d - first
    {
      first := first + 1;
    }
  }

  /** `newID` has an ID to return if and only if some ID of its parity is free. */
  lemma NextIDExists(current: u32, taken: set<u32>)
    ensures (exists id: u32 :: IsNextID(current, 2, taken, id)) <==> HasFree(current, taken)
  {
    if HasFree(current, taken) {
      var id :| IsFree(id, current, taken);
      var d := StepsToReach(current, id);
      var first := FirstFree(current, taken, d);
      assert IsNextID(current, 2, taken, StepID(current, 2, first));
    }
    if id: u32 :| IsNextID(current, 2, taken, id) {
      var d: nat :| IsFreeAt(current, 2, taken, id, d);
      StepKeepsParity(current, d);
      assert IsFree(id, current, taken);
    }
  }

  lemma NextIDIsFresh(current: u32, taken: set<u32>, id: u32)
    requires IsNextID(current, 2, taken, id)
    ensures id !in taken && SameParity(id, current)
  {
    var d: nat :| IsFreeAt(current, 2, taken, id, d);
    StepKeepsParity(current, d);
  }

  /** The IDs a pool hands out one after another, and how many steps each call took. Between a call
      and the insertion of its ID the pool may change in any way. */
  ghost predicate IsWalk(start: u32, ids: seq<u32>, steps: seq<nat>) {
    && |ids| == |steps|
    && forall k :: 0 <= k < |ids| ==>
         steps[k] >= 1 && ids[k] == StepID(if k == 0 then start else ids[k - 1], 2, steps[k])
  }

  /** The steps taken between handing out ID i and ID j. */
  ghost function StepsBetween(steps: seq<nat>, i: nat, j: nat): nat
    requires i <= j < |steps|
    decreases j - i
  {
    if i == j then 0 else StepsBetween(steps, i, j - 1) + steps[j]
  }

  lemma {:induction false} WalkPosition(start: u32, ids: seq<u32>, steps: seq<nat>, i: nat, j: nat)
    requires IsWalk(start, ids, steps) && i <= j < |ids|
    ensures ids[j] == StepID(ids[i], 2, StepsBetween(steps, i, j))
    decreases j - i
  {
    if i < j {
      WalkPosition(start, ids, steps, i, j - 1);
      StepsAdd(ids[i], 2, StepsBetween(steps, i, j - 1), steps[j]);
    }
  }

  /** Concurrent `New` calls: two of them are handed the same ID exactly when the counter has gone
      full circle, a whole number of times, between the two. */
  lemma ReservationsCollideIffFullCycle(start: u32, ids: seq<u32>, steps: seq<nat>, i: nat, j: nat)
    requires IsWalk(start, ids, steps) && i < j < |ids|
    ensures ids[i] == ids[j] <==> StepsBetween(steps, i, j) % (U32_SIZE / 2) == 0
    ensures StepsBetween(steps, i, j) >= 1
  {
    WalkPosition(start, ids, steps, i, j);
    SameIDIffFullCycles(ids[i], StepsBetween(steps, i, j));
  }

  class Pool<V> {
    var curID: u32
    var pool: map<u32, V>

    constructor (isServerSide: bool)
      ensures curID == (if isServerSide then 1 else 2) && pool == map[]
    {
      curID := if isServerSide then 1 else 2;
      pool := map[];
    }

    predicate Exist(id: u32)
      reads this
    {
      id in pool
    }

    /** Terminates because the cyclic distance to some free ID shrinks; without one it would not. */
    method NewID() returns (id: u32)
      requires HasFree(curID, pool.Keys + {0})
      modifies this`curID
      ensures IsNextID(old(curID), 2, pool.Keys + {0}, id)
      ensures curID == id && id != 0 && !Exist(id) && SameParity(id, old(curID))
    {
      ghost var start, taken := curID, pool.Keys + {0};
      ghost var free: u32 :| IsFree(free, start, taken);
      ghost var far := StepsToReach(start, free);
      ghost var d: nat := 0;
      while true
        invariant d < far && curID == StepID(start, 2, d)
        invariant forall e: nat :: 1 <= e <= d ==> StepID(start, 2, e) in taken
        decreases far - d
      {
        StepsAdd(start, 2, d, 1);
        curID := ToU32(curID + 2);
        d := d + 1;
        if curID <= 0 {
          continue;
        }
        if !Exist(curID) {
          break;
        }
      }
      id := curID;
      assert IsFreeAt(start, 2, taken, id, d);
      StepKeepsParity(start, d);
    }

    method Get(id: u32) returns (v: Option<V>)
      ensures v == if id in pool then Some(pool[id]) else None
    {
      v := if id in pool then Some(pool[id]) else None;
    }

    method Insert(id: u32, v: V)
      modifies this`pool
      ensures pool == old(pool)[id := v]
    {
      pool := pool[id := v];
    }

    /** Deleting an ID that is not there is reported and changes nothing. */
    method Delete(id: u32) returns (ok: bool)
      modifies this`pool
      ensures ok == (id in old(pool)) && pool == old(pool) - {id}
    {
      if id !in pool {
        return false;
      }
      pool := pool - {id};
      return true;
    }
  }
}
