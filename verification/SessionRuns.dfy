/** What callers of sessions are told, over whole runs: the answer to exactly what they passed in. */
module SessionRuns {
  import opened Bytes
  import opened Sessions
  import IdPool

  /** A step of one of the ends. */
  datatype Move = Move(byPeer: bool, e: Event)

  ghost predicate Moves(w: World, m: Move, w': World) {
    if m.byPeer then Enabled(w.Swap(), m.e) && w' == Step(w.Swap(), m.e).Swap()
    else Enabled(w, m.e) && w' == Step(w, m.e)
  }

  ghost predicate IsRunOf(run: seq<World>, moves: seq<Move>, start: World) {
    |run| == |moves| + 1 && run[0] == start && forall i :: 0 <= i < |moves| ==> Moves(run[i], moves[i], run[i + 1])
  }

  /** Every run has its moves, and moves make a run. */
  lemma RunsHaveMoves(run: seq<World>, start: World)
    ensures IsRun(run, start) <==> exists moves :: IsRunOf(run, moves, start)
  {
    if IsRun(run, start) {
      var moves := MovesOf(run, start);
    }
    if moves :| IsRunOf(run, moves, start) {
      forall i | 0 < i < |run| ensures Next(run[i - 1], run[i]) {
        assert Moves(run[i - 1], moves[i - 1], run[i]);
      }
    }
  }

  lemma MoveOf(w: World, w': World) returns (m: Move)
    requires Next(w, w')
    ensures Moves(w, m, w')
  {
    var e :| (Enabled(w, e) && w' == Step(w, e)) || (Enabled(w.Swap(), e) && w' == Step(w.Swap(), e).Swap());
    m := Move(!(Enabled(w, e) && w' == Step(w, e)), e);
  }

  lemma {:induction false} MovesOf(run: seq<World>, start: World) returns (moves: seq<Move>)
    requires IsRun(run, start)
    ensures IsRunOf(run, moves, start)
  {
    if |run| == 1 {
      moves := [];
    } else {
      var n := |run| - 1;
      var before := MovesOf(run[..n], start);
      assert Next(run[n - 1], run[n]);
      hide Moves, Next, Step, Enabled;
      var m := MoveOf(run[n - 1], run[n]);
      moves := before + [m];
      forall i | 0 <= i < |moves| ensures Moves(run[i], moves[i], run[i + 1]) {
        if i < |before| { assert Moves(run[..n][i], before[i], run[..n][i + 1]); }
      }
    }
  }

  /** What the latest caller of session id at this end passed to `sendAndWait`. */
  ghost function LastSent(moves: seq<Move>, byPeer: bool, id: u32): Option<bytes> {
    if moves == [] then None
    else
      var m := moves[|moves| - 1];
      if m.byPeer == byPeer && m.e.Send? && m.e.id == id then Some(m.e.payload)
      else LastSent(moves[..|moves| - 1], byPeer, id)
  }

  /** One exchange for each return, in order: what was passed in, and the other end's answer to that. */
  ghost function Expected(moves: seq<Move>, byPeer: bool, handler: bytes -> bytes): seq<Exchange> {
    if moves == [] then []
    else
      var before, m := moves[..|moves| - 1], moves[|moves| - 1];
      var earlier := Expected(before, byPeer, handler);
      if m.byPeer == byPeer && m.e.Return? then
        match LastSent(before, byPeer, m.e.id)
        case Some(payload) => earlier + [Exchange(m.e.id, payload, handler(payload))]
        case None => earlier
      else earlier
  }

  /** Who waits at an end has sent what is on record there. */
  ghost predicate WaitersOk(waiting: map<u32, bytes>, moves: seq<Move>, byPeer: bool) {
    forall id :: id in waiting ==> LastSent(moves, byPeer, id) == Some(waiting[id])
  }

  /** A move of the end itself. */
  lemma OwnMove(w: World, moves: seq<Move>, m: Move, answers: bytes -> bytes)
    requires Inv(w) && Enabled(w, m.e) && WaitersOk(w.self.waiting, moves, m.byPeer) && answers == w.peer.handler
    requires w.self.results == Expected(moves, m.byPeer, answers)
    ensures var w' := Step(w, m.e);
            && WaitersOk(w'.self.waiting, moves + [m], m.byPeer)
            && w'.self.results == Expected(moves + [m], m.byPeer, answers)
  {
    assert (moves + [m])[..|moves|] == moves;
    assert m.e.Return? ==> IsAnswer(w, m.e.id, w.self.inbound[m.e.id][0]);
    hide IdPool.IsNextID;
  }

  /** A move of the other end changes neither. */
  lemma OtherMove(w: World, moves: seq<Move>, m: Move, byPeer: bool, answers: bytes -> bytes)
    requires Enabled(w, m.e) && m.byPeer != byPeer && WaitersOk(w.peer.waiting, moves, byPeer)
    requires w.peer.results == Expected(moves, byPeer, answers)
    ensures var w' := Step(w, m.e);
            && WaitersOk(w'.peer.waiting, moves + [m], byPeer)
            && w'.peer.results == Expected(moves + [m], byPeer, answers)
  {
    assert Step(w, m.e).peer == w.peer.(out := Step(w, m.e).peer.out);
    hide Step, Enabled;
    assert (moves + [m])[..|moves|] == moves;
  }

  lemma {:induction false} RunExchanges(run: seq<World>, moves: seq<Move>, start: World, selfServer: bool,
                                        peerServer: bool)
    requires IsStart(start, selfServer, peerServer) && IsRunOf(run, moves, start)
    ensures var w := run[|moves|];
            && WaitersOk(w.self.waiting, moves, false) && WaitersOk(w.peer.waiting, moves, true)
            && w.self.results == Expected(moves, false, start.peer.handler)
            && w.peer.results == Expected(moves, true, start.self.handler)
  {
    if moves != [] {
      var n := |moves| - 1;
      var before, m := moves[..n], moves[n];
      assert IsRunOf(run[..n + 1], before, start);
      RunExchanges(run[..n + 1], before, start, selfServer, peerServer);
      RunsHaveMoves(run, start);
      RunInv(run, start, selfServer, peerServer, n);
      var w := run[n];
      assert Moves(w, m, run[n + 1]) && before + [m] == moves;
      hide Step, Enabled, IsRunOf, LastSent, Expected, WaitersOk, HalfInv;
      var v := if m.byPeer then w.Swap() else w;
      OwnMove(v, before, m, v.peer.handler);
      OtherMove(v, before, m, !m.byPeer, v.self.handler);
    }
  }

  /* ---- results ---- */

  /** Over every run, from the moves alone: the exchanges that the callers at one end have been told are
      one for each return, in the order of the returns, with the payload last passed in for that session
      and the other end's answer to it; and so at the other end. */
  lemma CallersAreAnswered(run: seq<World>, moves: seq<Move>, start: World, selfServer: bool, peerServer: bool)
    requires IsStart(start, selfServer, peerServer) && IsRunOf(run, moves, start)
    ensures run[|moves|].self.results == Expected(moves, false, start.peer.handler)
    ensures run[|moves|].peer.results == Expected(moves, true, start.self.handler)
  {
    RunExchanges(run, moves, start, selfServer, peerServer);
  }

  /** Every return is of a session that was sent on, so none is left out. */
  lemma EachReturnIsOne(run: seq<World>, moves: seq<Move>, start: World, selfServer: bool, peerServer: bool, i: nat)
    requires IsStart(start, selfServer, peerServer) && IsRunOf(run, moves, start) && i < |moves|
    requires !moves[i].byPeer && moves[i].e.Return?
    ensures var sent := LastSent(moves[..i], false, moves[i].e.id);
            && sent.Some?
            && run[i + 1].self.results
               == run[i].self.results + [Exchange(moves[i].e.id, sent.value, start.peer.handler(sent.value))]
  {
    assert Moves(run[i], moves[i], run[i + 1]);
    assert IsRunOf(run[..i + 1], moves[..i], start) && IsRunOf(run[..i + 2], moves[..i + 1], start);
    RunExchanges(run[..i + 1], moves[..i], start, selfServer, peerServer);
    RunExchanges(run[..i + 2], moves[..i + 1], start, selfServer, peerServer);
    assert moves[..i + 1][..i] == moves[..i] && moves[..i + 1][i] == moves[i];
  }

  /** A session is opened and its request sent. */
  lemma Asks(w: World, id: u32, payload: bytes) returns (w1: World, w2: World)
    requires Enabled(w, NewSession(id)) && w.self.inbound == map[] && w.self.waiting == map[] && w.room >= 1
    requires w.self.out == []
    ensures Next(w, w1) && Next(w1, w2)
    ensures w2 == w.(self := w2.self) && w2.self.results == w.self.results && w2.self.out == [Request(id, payload)]
    ensures w2.self.inbound == map[id := []] && w2.self.waiting == map[id := payload]
  {
    w1 := Step(w, NewSession(id));
    w2 := Step(w1, Send(id, payload));
    assert Next(w, w1) && Next(w1, w2);
  }

  /** The request is handled, its answer comes back, and the caller returns. */
  lemma AnswerComes(w: World, id: u32, payload: bytes) returns (w1: World, w2: World, w': World)
    requires w.self.out == [Request(id, payload)] && w.peer.out == [] && w.room >= 1
    requires w.self.inbound == map[id := []] && w.self.waiting == map[id := payload]
    ensures Next(w, w1) && Next(w1, w2) && Next(w2, w')
    ensures w'.self.results == w.self.results + [Exchange(id, payload, w.peer.handler(payload))]
    ensures w'.self.waiting == map[] && w'.self.out == [] == w'.peer.out
  {
    var answer := w.peer.handler(payload);
    assert Enabled(w.Swap(), Receive);
    w1 := Step(w.Swap(), Receive).Swap();
    assert w1.peer.out == [Response(id, answer)] && w1.self.out == [];
    assert Enabled(w1, Receive);
    w2 := Step(w1, Receive);
    assert [] + [answer] == [answer];
    assert w2.self.inbound == map[id := [answer]] && w2.self.out == [] == w2.peer.out;
    w' := Step(w2, Return(id));
    assert w'.self.waiting == map[];
  }

  /** A run in which a caller is answered: for every payload and any room at all. */
  lemma ExchangeCompletes(start: World, selfServer: bool, peerServer: bool, payload: bytes)
    returns (run: seq<World>, id: u32)
    requires IsStart(start, selfServer, peerServer) && start.room >= 1
    ensures IsRun(run, start)
    ensures run[|run| - 1].self.results == [Exchange(id, payload, start.peer.handler(payload))]
    ensures run[|run| - 1].self.waiting == map[] && run[|run| - 1].self.out == [] == run[|run| - 1].peer.out
  {
    id := start.self.curID + 2;
    assert IdPool.IsFreeAt(start.self.curID, 2, start.self.inbound.Keys + {0}, id, 1);
    var w1, w2 := Asks(start, id, payload);
    hide IdPool.IsNextID, IdPool.IsFreeAt, Next, Step, Enabled;
    var w3, w4, w5 := AnswerComes(w2, id, payload);
    run := [start, w1, w2, w3, w4, w5];
    assert [Exchange(id, payload, start.peer.handler(payload))]
        == [] + [Exchange(id, payload, start.peer.handler(payload))];
  }
}
