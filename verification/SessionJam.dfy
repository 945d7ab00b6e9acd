/** When the two ends of a link can jam each other: with exactly as many callers as fit both ways. */
module SessionJam {
  import opened Bytes
  import opened Sessions
  import IdPool

  /** How many session IDs an end has: those of its parity, without 0. */
  function SessionIDs(isServerSide: bool): nat { if isServerSide then U32_SIZE / 2 else U32_SIZE / 2 - 1 }

  function Parity(isServerSide: bool): nat { if isServerSide then 1 else 0 }

  /* ---- counting IDs ---- */

  /** Of the numbers from 1 to n, at most (n + p) / 2 have parity p. */
  lemma {:induction false} AtMostHalf(ids: set<u32>, p: nat, n: nat)
    requires p < 2 && n < U32_SIZE && forall id :: id in ids ==> 1 <= id <= n && id % 2 == p
    ensures |ids| <= (n + p) / 2
  {
    if n == 0 {
      assert ids == {};
    } else {
      var last: u32 := n;
      if last in ids {
        AtMostHalf(ids - {last}, p, n - 1);
      } else {
        AtMostHalf(ids, p, n - 1);
      }
    }
  }

  /** And if fewer than that are taken, one is not. */
  lemma {:induction false} OneIsFree(taken: set<u32>, p: nat, n: nat) returns (id: u32)
    requires p < 2 && n < U32_SIZE && |taken| < (n + p) / 2
    ensures 1 <= id <= n && id % 2 == p && id !in taken
  {
    var last: u32 := n;
    if n % 2 == p && last !in taken {
      id := last;
    } else {
      id := OneIsFree(taken - {last}, p, n - 1);
    }
  }

  /* ---- no more callers than IDs ---- */

  /** Session IDs have the parity of the end's counter and are not 0, and only open sessions wait. */
  ghost predicate IDsOk(e: End, isServerSide: bool) {
    && e.curID % 2 == Parity(isServerSide) && e.waiting.Keys <= e.inbound.Keys
    && forall id :: id in e.inbound ==> id != 0 && id % 2 == Parity(isServerSide)
  }

  lemma StepKeepsIDs(w: World, e: Event, selfServer: bool, peerServer: bool)
    requires Enabled(w, e) && IDsOk(w.self, selfServer) && IDsOk(w.peer, peerServer)
    ensures IDsOk(Step(w, e).self, selfServer) && IDsOk(Step(w, e).peer, peerServer)
  {
    if e.NewSession? { IdPool.NextIDIsFresh(w.self.curID, w.self.inbound.Keys + {0}, e.id); }
    hide IdPool.IsNextID;
  }

  lemma {:induction false} RunIDs(run: seq<World>, start: World, selfServer: bool, peerServer: bool, i: nat)
    requires IsStart(start, selfServer, peerServer) && IsRun(run, start) && i < |run|
    ensures IDsOk(run[i].self, selfServer) && IDsOk(run[i].peer, peerServer)
  {
    if i > 0 {
      RunIDs(run, start, selfServer, peerServer, i - 1);
      var w := run[i - 1];
      assert Next(w, run[i]);
      var e :| (Enabled(w, e) && run[i] == Step(w, e)) || (Enabled(w.Swap(), e) && run[i] == Step(w.Swap(), e).Swap());
      hide Step, Enabled, IDsOk;
      if Enabled(w, e) && run[i] == Step(w, e) {
        StepKeepsIDs(w, e, selfServer, peerServer);
      } else {
        StepKeepsIDs(w.Swap(), e, peerServer, selfServer);
      }
    }
  }

  lemma {:induction false} RoomIsKept(run: seq<World>, start: World, i: nat)
    requires IsRun(run, start) && i < |run| && start.self.out == [] == start.peer.out
    ensures run[i].room == start.room && |run[i].self.out| <= start.room && |run[i].peer.out| <= start.room
  {
    if i > 0 {
      RoomIsKept(run, start, i - 1);
      var w := run[i - 1];
      assert Next(w, run[i]);
      var e :| (Enabled(w, e) && run[i] == Step(w, e)) || (Enabled(w.Swap(), e) && run[i] == Step(w.Swap(), e).Swap());
      hide Step, Enabled;
      if Enabled(w, e) && run[i] == Step(w, e) { StepKeepsRoom(w, e); } else { StepKeepsRoom(w.Swap(), e); }
    }
  }

  lemma StepKeepsRoom(w: World, e: Event)
    requires Enabled(w, e) && |w.self.out| <= w.room && |w.peer.out| <= w.room
    ensures var w' := Step(w, e); w'.room == w.room && |w'.self.out| <= w.room && |w'.peer.out| <= w.room
  {
    hide IdPool.IsNextID;
  }

  lemma FewWait(e: End, isServerSide: bool)
    requires IDsOk(e, isServerSide)
    ensures |e.waiting| <= SessionIDs(isServerSide)
  {
    AtMostHalf(e.waiting.Keys, Parity(isServerSide), U32_SIZE - 1);
    assert |e.waiting.Keys| == |e.waiting|;
  }

  /* ---- enough callers ---- */

  lemma ExtendRun(run: seq<World>, start: World, w: World) returns (run': seq<World>)
    requires IsRun(run, start) && Next(run[|run| - 1], w)
    ensures IsRun(run', start) && run' == run + [w]
  {
    hide Next;
    run' := run + [w];
    assert forall i :: 0 <= i < |run| ==> run'[i] == run[i];
  }

  ghost function Swapped(run: seq<World>): seq<World> { seq(|run|, i requires 0 <= i < |run| => run[i].Swap()) }

  /** The ends can be exchanged. */
  lemma SwapIsRun(run: seq<World>, start: World)
    requires IsRun(run, start)
    ensures IsRun(Swapped(run), start.Swap())
  {
    forall i | 0 < i < |run| ensures Next(run[i - 1].Swap(), run[i].Swap()) {
      assert Next(run[i - 1], run[i]);
      SwapIsNext(run[i - 1], run[i]);
    }
    hide Next;
  }

  lemma SwapIsNext(w: World, w': World)
    requires Next(w, w')
    ensures Next(w.Swap(), w'.Swap())
  {
    var e :| (Enabled(w, e) && w' == Step(w, e)) || (Enabled(w.Swap(), e) && w' == Step(w.Swap(), e).Swap());
    assert w.Swap().Swap() == w;
    hide Step, Enabled;
  }

  /** n callers wait, each with its request on the link. */
  ghost predicate Calls(e: End, n: nat, isServerSide: bool) {
    && IDsOk(e, isServerSide) && |e.out| == |e.waiting| == n && e.inbound.Keys == e.waiting.Keys
    && forall i :: 0 <= i < |e.out| ==> e.out[i].Request?
  }

  lemma FreeSession(e: End, n: nat, isServerSide: bool) returns (id: u32)
    requires Calls(e, n, isServerSide) && n < SessionIDs(isServerSide)
    ensures IdPool.IsNextID(e.curID, 2, e.inbound.Keys + {0}, id)
  {
    assert |e.inbound.Keys| == n;
    var free := OneIsFree(e.inbound.Keys, Parity(isServerSide), U32_SIZE - 1);
    assert IdPool.IsFree(free, e.curID, e.inbound.Keys + {0});
    IdPool.NextIDExists(e.curID, e.inbound.Keys + {0});
    id :| IdPool.IsNextID(e.curID, 2, e.inbound.Keys + {0}, id);
  }

  /** One more caller opens a session and sends its request. */
  lemma OneMoreCalls(run: seq<World>, start: World, n: nat, isServerSide: bool) returns (run': seq<World>)
    requires IsRun(run, start) && Calls(run[|run| - 1].self, n, isServerSide)
    requires n < run[|run| - 1].room && n < SessionIDs(isServerSide)
    ensures IsRun(run', start)
    ensures var w, w' := run[|run| - 1], run'[|run'| - 1];
            Calls(w'.self, n + 1, isServerSide) && w'.peer == w.peer && w'.room == w.room
  {
    var w := run[|run| - 1];
    var id := FreeSession(w.self, n, isServerSide);
    IdPool.NextIDIsFresh(w.self.curID, w.self.inbound.Keys + {0}, id);
    hide IdPool.IsNextID, IsRun;
    var w1 := Step(w, NewSession(id));
    assert Next(w, w1);
    var w2 := Step(w1, Send(id, []));
    assert Next(w1, w2);
    assert w2.self.inbound.Keys == w2.self.waiting.Keys;
    hide Next;
    var run1 := ExtendRun(run, start, w1);
    run' := ExtendRun(run1, start, w2);
  }

  lemma ManyCall(run: seq<World>, start: World, n: nat, isServerSide: bool) returns (run': seq<World>)
    requires IsRun(run, start) && Calls(run[|run| - 1].self, n, isServerSide)
    requires n <= run[|run| - 1].room <= SessionIDs(isServerSide)
    ensures IsRun(run', start)
    ensures var w, w' := run[|run| - 1], run'[|run'| - 1];
            Calls(w'.self, w.room, isServerSide) && w'.peer == w.peer && w'.room == w.room
    decreases run[|run| - 1].room - n
  {
    assert run != [];
    hide IsRun, Calls;
    if n == run[|run| - 1].room {
      run' := run;
    } else {
      var run1 := OneMoreCalls(run, start, n, isServerSide);
      run' := ManyCall(run1, start, n + 1, isServerSide);
    }
  }

  /* ---- results ---- */

  /** For every room for which the IDs suffice, as many callers as fit on the link both ways can jam it. */
  lemma CallersCanJam(start: World, selfServer: bool, peerServer: bool) returns (run: seq<World>)
    requires IsStart(start, selfServer, peerServer)
    requires 1 <= start.room <= Min(SessionIDs(selfServer), SessionIDs(peerServer))
    ensures IsRun(run, start)
    ensures var w := run[|run| - 1]; |w.self.waiting| + |w.peer.waiting| == 2 * start.room && Jammed(w)
  {
    assert Calls(start.self, 0, selfServer) && Calls(start.peer, 0, peerServer);
    var run1 := ManyCall([start], start, 0, selfServer);
    SwapIsRun(run1, start);
    hide Calls, IsRun;
    var run2 := ManyCall(Swapped(run1), start.Swap(), 0, peerServer);
    SwapIsRun(run2, start.Swap());
    run := Swapped(run2);
  }

  /** The ends of a link can jam each other if and only if there is room for a message each way, and not so
      much that the session IDs of one end do not fill it. */
  lemma JamIsReachableIff(start: World, selfServer: bool, peerServer: bool)
    requires IsStart(start, selfServer, peerServer)
    ensures (exists run :: IsRun(run, start) && Jammed(run[|run| - 1]))
            <==> 1 <= start.room <= Min(SessionIDs(selfServer), SessionIDs(peerServer))
  {
    if 1 <= start.room <= Min(SessionIDs(selfServer), SessionIDs(peerServer)) {
      var run := CallersCanJam(start, selfServer, peerServer);
    }
    if run: seq<World> :| IsRun(run, start) && Jammed(run[|run| - 1]) {
      var i: nat := |run| - 1;
      RunInv(run, start, selfServer, peerServer, i);
      RunIDs(run, start, selfServer, peerServer, i);
      MessagesAreFew(run[i]);
      FewWait(run[i].self, selfServer);
      FewWait(run[i].peer, peerServer);
      RoomIsKept(run, start, i);
    }
  }
}
