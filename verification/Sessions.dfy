/** session/manager.go, session/session.go and session/pool.go: requests and responses matched over
    one link. */
module Sessions {
  import opened Bytes
  import IdPool

  datatype Msg =
    | Request(id: u32, payload: bytes)
    | Response(id: u32, payload: bytes)
    | Unknown(code: byte)

  datatype Outcome = Handled | NoSuchSession | UnknownType | Blocked

  /** The capacity of a session's inbound channel, and of a link's outbound channel. */
  const INBOUND: nat := 1
  const OUTBOUND: nat := 1

  type Inbound = map<u32, seq<bytes>>

  /** `HandleIn`, over what each session's channel buffers and whether the outbound channel has room:
      the new buffers, the messages sent back, and how it ends. A full channel blocks the receive loop. */
  function OnMessage(inbound: Inbound, room: bool, handler: bytes -> bytes, m: Msg): (Inbound, seq<Msg>, Outcome) {
    match m
    case Request(id, payload) =>
      if room then (inbound, [Response(id, handler(payload))], Handled) else (inbound, [], Blocked)
    case Response(id, payload) =>
      if id !in inbound then (inbound, [], NoSuchSession)
      else if |inbound[id]| >= INBOUND then (inbound, [], Blocked)
      else (inbound[id := inbound[id] + [payload]], [], Handled)
    case Unknown(_) => (inbound, [], UnknownType)
  }

  class Session {
    const id: u32
    var inbound: seq<bytes>

    constructor (id: u32)
      ensures this.id == id && inbound == []
    {
      this.id := id;
      inbound := [];
    }

    /** A send on the inbound channel: it does not complete while the channel is full. */
    method HandleResponse(payload: bytes) returns (done: bool)
      modifies this
      ensures done <==> old(|inbound|) < INBOUND
      ensures inbound == if done then old(inbound) + [payload] else old(inbound)
    {
      done := |inbound| < INBOUND;
      if done {
        inbound := inbound + [payload];
      }
    }

    /** The receive that ends `sendAndWait`; None while there is nothing to receive. */
    method Wait() returns (answer: Option<bytes>)
      modifies this
      ensures answer == if old(inbound) == [] then None else Some(old(inbound)[0])
      ensures inbound == if old(inbound) == [] then [] else old(inbound)[1..]
    {
      if inbound == [] {
        return None;
      }
      answer := Some(inbound[0]);
      inbound := inbound[1..];
    }
  }

  class Manager {
    const pool: IdPool.Pool<Session>
    const handler: bytes -> bytes
    var outbound: seq<Msg>

    ghost predicate Valid()
      reads this, pool
    {
      forall id :: id in pool.pool ==> pool.pool[id].id == id
    }

    ghost function View(): Inbound
      reads this, pool, pool.pool.Values
    {
      map id | id in pool.pool :: pool.pool[id].inbound
    }

    constructor (isServerSide: bool, handler: bytes -> bytes)
      ensures Valid() && fresh(pool) && View() == map[] && outbound == [] && this.handler == handler
    {
      pool := new IdPool.Pool(isServerSide);
      this.handler := handler;
      outbound := [];
    }

    method New() returns (s: Session)
      requires Valid() && IdPool.HasFree(pool.curID, pool.pool.Keys + {0})
      modifies pool
      ensures Valid() && fresh(s) && IdPool.IsNextID(old(pool.curID), 2, old(pool.pool).Keys + {0}, s.id)
      ensures pool.curID == s.id && pool.pool == old(pool.pool)[s.id := s]
      ensures View() == old(View())[s.id := []]
    {
      var id := pool.NewID();
      s := new Session(id);
      pool.Insert(id, s);
    }

    /** A send on the outbound channel does not complete while the channel is full. */
    method Push(m: Msg) returns (done: bool)
      modifies this`outbound
      ensures done <==> old(|outbound|) < OUTBOUND
      ensures outbound == if done then old(outbound) + [m] else old(outbound)
    {
      done := |outbound| < OUTBOUND;
      if done {
        outbound := outbound + [m];
      }
    }

    method HandleIn(m: Msg) returns (outcome: Outcome)
      requires Valid()
      modifies this`outbound, pool.pool.Values
      ensures Valid() && pool.pool == old(pool.pool)
      ensures var (inbound, answers, o) := OnMessage(old(View()), old(|outbound|) < OUTBOUND, handler, m);
              View() == inbound && outbound == old(outbound) + answers && outcome == o
      ensures outcome.NoSuchSession? <==> m.Response? && m.id !in pool.pool
      ensures outcome.UnknownType? <==> m.Unknown?
      ensures outcome.Blocked? <==>
                || (m.Request? && old(|outbound|) >= OUTBOUND)
                || (m.Response? && m.id in old(View()) && |old(View())[m.id]| >= INBOUND)
    {
      match m {
        case Request(id, payload) =>
          var pushed := Push(Response(id, handler(payload)));
          return if pushed then Handled else Blocked;
        case Response(id, payload) =>
          var s := pool.Get(id);
          if s.None? {
            return NoSuchSession;
          }
          var done := s.value.HandleResponse(payload);
          return if done then Handled else Blocked;
        case Unknown(_) =>
          return UnknownType;
      }
    }

    /** The send that begins `sendAndWait`. */
    method Send(s: Session, payload: bytes) returns (done: bool)
      modifies this`outbound
      ensures done <==> old(|outbound|) < OUTBOUND
      ensures outbound == if done then old(outbound) + [Request(s.id, payload)] else old(outbound)
    {
      done := Push(Request(s.id, payload));
    }

    /* ---- as steps of one end ---- */

    /** The manager is the end `self` of w. The outbound channel holds the latest of what is on its way to
        the peer; the rest has found room elsewhere on the link. */
    ghost predicate Mirrors(w: World)
      reads this, pool, pool.pool.Values
    {
      && Valid() && View() == w.self.inbound && handler == w.self.handler && pool.curID == w.self.curID
      && |outbound| <= |w.self.out| && w.self.out[|w.self.out| - |outbound|..] == outbound
      && |w.self.out| - |outbound| + OUTBOUND <= w.room
    }

    /** A new session is the step `NewSession`. */
    method Open(ghost w: World) returns (s: Session, ghost w': World)
      requires Mirrors(w) && IdPool.HasFree(pool.curID, pool.pool.Keys + {0})
      modifies pool
      ensures fresh(s) && Enabled(w, NewSession(s.id)) && w' == Step(w, NewSession(s.id)) && Mirrors(w')
    {
      s := New();
      assert pool.pool.Keys == old(pool.pool).Keys + {s.id};
      assert w.self.inbound.Keys == old(pool.pool).Keys;
      w' := Step(w, NewSession(s.id));
    }

    /** The first half of `sendAndWait` is the step `Send`, unless the outbound channel is full. */
    method Begin(s: Session, payload: bytes, ghost w: World) returns (done: bool, ghost w': World)
      requires Mirrors(w) && s.id in pool.pool && pool.pool[s.id] == s && s.id !in w.self.waiting
      modifies this`outbound
      ensures done <==> old(|outbound|) < OUTBOUND
      ensures done ==> Enabled(w, Event.Send(s.id, payload)) && w' == Step(w, Event.Send(s.id, payload))
      ensures Mirrors(w') && (!done ==> w' == w)
    {
      done := Send(s, payload);
      w' := if done then Step(w, Event.Send(s.id, payload)) else w;
    }

    /** One turn of the receive loop is the step `Receive`, unless it blocks. */
    method Turn(m: Msg, ghost w: World) returns (outcome: Outcome, ghost w': World)
      requires Mirrors(w) && w.peer.out != [] && w.peer.out[0] == m
      modifies this`outbound, pool.pool.Values
      ensures !outcome.Blocked? ==> Enabled(w, Receive) && w' == Step(w, Receive) && outcome == w.OnHead().2
      ensures outcome.Blocked? ==> w' == w && (w.OnHead().2.Blocked? || old(|outbound|) >= OUTBOUND)
      ensures Mirrors(w')
    {
      outcome := HandleIn(m);
      w' := if outcome.Blocked? then w else Step(w, Receive);
    }

    /** The second half of `sendAndWait` is the step `Return`, and it returns what the step records, for
        the payload of the first half; there is nothing to receive exactly while the step cannot be taken. */
    method Finish(s: Session, ghost w: World) returns (answer: Option<bytes>, ghost w': World)
      requires Mirrors(w) && s.id in pool.pool && pool.pool[s.id] == s && s.id in w.self.waiting
      modifies s
      ensures answer.Some? <==> Enabled(w, Return(s.id))
      ensures answer.Some? ==>
                && w' == Step(w, Return(s.id))
                && w'.self.results == w.self.results + [Exchange(s.id, w.self.waiting[s.id], answer.value)]
      ensures Mirrors(w') && (answer.None? ==> w' == w)
    {
      assert View()[s.id] == s.inbound;
      answer := s.Wait();
      w' := if answer.Some? then Step(w, Return(s.id)) else w;
      assert forall id :: id in pool.pool && id != s.id ==> pool.pool[id] != s;
    }
  }

  /* ---- both ends ---- */

  datatype Exchange = Exchange(id: u32, payload: bytes, answer: bytes)

  /** One end: its sessions' buffers, what each waiting caller asked, the ordered queue of messages on
      their way to the peer, and the exchanges whose callers have returned. */
  datatype End = End(
    handler: bytes -> bytes, curID: u32, inbound: Inbound, waiting: map<u32, bytes>, out: seq<Msg>,
    results: seq<Exchange>)

  /** `room` is how many messages fit between an end and its peer: in the outbound channel, in the
      connection, and in the hands of the two loops. */
  datatype World = World(self: End, peer: End, room: nat) {
    function Swap(): World { World(peer, self, room) }

    function OnHead(): (Inbound, seq<Msg>, Outcome)
      requires peer.out != []
    {
      OnMessage(self.inbound, |self.out| < room, self.handler, peer.out[0])
    }
  }

  function Start(handler: bytes -> bytes, isServerSide: bool): End {
    End(handler, if isServerSide then 1 else 2, map[], map[], [], [])
  }

  /** Steps of `self`: a new session, the two halves of `sendAndWait`, and one turn of the receive loop. */
  datatype Event = NewSession(id: u32) | Send(id: u32, payload: bytes) | Return(id: u32) | Receive

  ghost predicate Enabled(w: World, e: Event) {
    match e
    case NewSession(id) => IdPool.IsNextID(w.self.curID, 2, w.self.inbound.Keys + {0}, id)
    case Send(id, _) => id in w.self.inbound && id !in w.self.waiting && |w.self.out| < w.room
    case Return(id) => id in w.self.waiting && id in w.self.inbound && w.self.inbound[id] != []
    case Receive => w.peer.out != [] && !w.OnHead().2.Blocked?
  }

  function Step(w: World, e: Event): World
    requires Enabled(w, e)
  {
    match e
    case NewSession(id) => w.(self := w.self.(curID := id, inbound := w.self.inbound[id := []]))
    case Send(id, payload) =>
      w.(self := w.self.(waiting := w.self.waiting[id := payload], out := w.self.out + [Request(id, payload)]))
    case Return(id) =>
      var exchange := Exchange(id, w.self.waiting[id], w.self.inbound[id][0]);
      w.(self := w.self.(waiting := w.self.waiting - {id}, inbound := w.self.inbound[id := w.self.inbound[id][1..]],
                         results := w.self.results + [exchange]))
    case Receive =>
      var (inbound, answers, _) := w.OnHead();
      w.(self := w.self.(inbound := inbound, out := w.self.out + answers), peer := w.peer.(out := w.peer.out[1..]))
  }

  ghost predicate Next(w: World, w': World) {
    exists e :: (Enabled(w, e) && w' == Step(w, e)) || (Enabled(w.Swap(), e) && w' == Step(w.Swap(), e).Swap())
  }

  ghost predicate IsRun(run: seq<World>, start: World) {
    run != [] && run[0] == start && forall i :: 0 < i < |run| ==> Next(run[i - 1], run[i])
  }

  /* ---- invariant ---- */

  ghost function Requests(q: seq<Msg>, id: u32): nat {
    if q == [] then 0 else Requests(q[1..], id) + (if q[0].Request? && q[0].id == id then 1 else 0)
  }

  ghost function Responses(q: seq<Msg>, id: u32): nat {
    if q == [] then 0 else Responses(q[1..], id) + (if q[0].Response? && q[0].id == id then 1 else 0)
  }

  /** Queued requests, queued responses and buffered inbound values of one session. */
  ghost function Tokens(w: World, id: u32): nat {
    Requests(w.self.out, id) + Responses(w.peer.out, id) + if id in w.self.inbound then |w.self.inbound[id]| else 0
  }

  /** One token while the session waits, none otherwise. */
  ghost predicate TokensOk(w: World) {
    forall id: u32 :: Tokens(w, id) == if id in w.self.waiting then 1 else 0
  }

  /** A queued request is the one its session's caller made. */
  ghost predicate RequestsOk(w: World) {
    forall i :: 0 <= i < |w.self.out| && w.self.out[i].Request? ==>
      w.self.out[i].id in w.self.waiting && w.self.out[i].payload == w.self.waiting[w.self.out[i].id]
  }

  ghost predicate IsAnswer(w: World, id: u32, answer: bytes) {
    id in w.self.waiting && answer == w.peer.handler(w.self.waiting[id])
  }

  ghost predicate ResponsesOk(w: World) {
    && (forall i :: 0 <= i < |w.peer.out| && w.peer.out[i].Response? ==>
         IsAnswer(w, w.peer.out[i].id, w.peer.out[i].payload))
    && (forall id :: id in w.self.inbound && w.self.inbound[id] != [] ==> IsAnswer(w, id, w.self.inbound[id][0]))
  }

  ghost predicate ResultsOk(w: World) {
    forall i :: 0 <= i < |w.self.results| ==>
      w.self.results[i].answer == w.peer.handler(w.self.results[i].payload)
  }

  ghost predicate ShapeOk(w: World) {
    w.self.waiting.Keys <= w.self.inbound.Keys && forall i :: 0 <= i < |w.self.out| ==> !w.self.out[i].Unknown?
  }

  ghost predicate HalfInv(w: World) {
    TokensOk(w) && RequestsOk(w) && ResponsesOk(w) && ResultsOk(w) && ShapeOk(w)
  }

  ghost predicate Inv(w: World) { HalfInv(w) && HalfInv(w.Swap()) }

  lemma {:induction false} CountsAppend(q: seq<Msg>, m: Msg, id: u32)
    ensures Requests(q + [m], id) == Requests(q, id) + if m.Request? && m.id == id then 1 else 0
    ensures Responses(q + [m], id) == Responses(q, id) + if m.Response? && m.id == id then 1 else 0
  {
    if q == [] {
      assert q + [m] == [m] && [m][1..] == [];
    } else {
      CountsAppend(q[1..], m, id);
      assert (q + [m])[1..] == q[1..] + [m];
    }
  }

  lemma {:induction false} CountedOnce(q: seq<Msg>, i: nat)
    requires i < |q|
    ensures q[i].Request? ==> Requests(q, q[i].id) >= 1
    ensures q[i].Response? ==> Responses(q, q[i].id) >= 1
  {
    if i > 0 {
      CountedOnce(q[1..], i - 1);
    }
  }

  /** The receive loop never blocks on a session, and never meets an unknown session or type; it waits
      only with a request in hand while the link to the peer is full. */
  lemma ReceiveIsHandled(w: World)
    requires Inv(w) && w.peer.out != []
    ensures w.OnHead().2 == if w.peer.out[0].Request? && |w.self.out| >= w.room then Blocked else Handled
  {
    var m := w.peer.out[0];
    assert !m.Unknown? by {
      assert ShapeOk(w.Swap());
    }
    if m.Response? {
      CountedOnce(w.peer.out, 0);
      assert IsAnswer(w, m.id, m.payload);
      assert Tokens(w, m.id) == 1;
    }
  }

  /** What a step of `self` does to the tokens of its own sessions. */
  lemma TokensAfter(w: World, e: Event, id: u32)
    requires Inv(w) && Enabled(w, e)
    ensures Tokens(Step(w, e), id) == if id in Step(w, e).self.waiting then 1 else 0
  {
    assert Tokens(w, id) == if id in w.self.waiting then 1 else 0;
    match e {
      case NewSession(added) => IdPool.NextIDIsFresh(w.self.curID, w.self.inbound.Keys + {0}, added);
      case Send(to, payload) => CountsAppend(w.self.out, Request(to, payload), id);
      case Return(from) =>
      case Receive =>
        ReceiveIsHandled(w);
        var m := w.peer.out[0];
        if m.Request? {
          CountsAppend(w.self.out, Response(m.id, w.self.handler(m.payload)), id);
        } else {
          assert w.self.out + [] == w.self.out;
        }
    }
  }

  /** And to those of its peer's. */
  lemma PeerTokensAfter(w: World, e: Event, id: u32)
    requires Inv(w) && Enabled(w, e)
    ensures Tokens(Step(w, e).Swap(), id) == if id in w.peer.waiting then 1 else 0
  {
    assert Tokens(w.Swap(), id) == if id in w.peer.waiting then 1 else 0;
    match e {
      case NewSession(_) =>
      case Send(to, payload) => CountsAppend(w.self.out, Request(to, payload), id);
      case Return(_) =>
      case Receive =>
        ReceiveIsHandled(w);
        var m := w.peer.out[0];
        if m.Request? {
          CountsAppend(w.self.out, Response(m.id, w.self.handler(m.payload)), id);
        } else {
          assert w.self.out + [] == w.self.out;
        }
    }
  }

  /** When a caller has its answer, nothing of its exchange is left under way. */
  lemma NothingElseUnderWay(w: World, id: u32)
    requires Inv(w) && Enabled(w, Return(id))
    ensures |w.self.inbound[id]| == 1
    ensures forall i :: 0 <= i < |w.self.out| && w.self.out[i].Request? ==> w.self.out[i].id != id
    ensures forall i :: 0 <= i < |w.peer.out| && w.peer.out[i].Response? ==> w.peer.out[i].id != id
  {
    assert Tokens(w, id) == 1;
    forall i | 0 <= i < |w.self.out| && w.self.out[i].Request? ensures w.self.out[i].id != id {
      CountedOnce(w.self.out, i);
    }
    forall i | 0 <= i < |w.peer.out| && w.peer.out[i].Response? ensures w.peer.out[i].id != id {
      CountedOnce(w.peer.out, i);
    }
  }

  lemma StepKeepsRequests(w: World, e: Event)
    requires Inv(w) && Enabled(w, e)
    ensures var w' := Step(w, e); RequestsOk(w') && ResultsOk(w') && ShapeOk(w')
  {
    if e.Return? {
      NothingElseUnderWay(w, e.id);
    }
    if e.Receive? {
      ReceiveIsHandled(w);
    }
    hide TokensOk;
  }

  lemma StepKeepsResponses(w: World, e: Event)
    requires Inv(w) && Enabled(w, e)
    ensures ResponsesOk(Step(w, e))
  {
    if e.Return? {
      NothingElseUnderWay(w, e.id);
    }
    if e.Receive? {
      ReceiveIsHandled(w);
    }
    hide TokensOk, RequestsOk, ResultsOk, HalfInv;
  }

  lemma StepKeepsPeerContents(w: World, e: Event)
    requires Inv(w) && Enabled(w, e)
    ensures var w' := Step(w, e).Swap(); RequestsOk(w') && ResponsesOk(w') && ResultsOk(w') && ShapeOk(w')
  {
    if e.Receive? {
      ReceiveIsHandled(w);
    }
    hide TokensOk;
  }

  lemma StepKeeps(w: World, e: Event)
    requires Inv(w) && Enabled(w, e)
    ensures Inv(Step(w, e))
  {
    StepKeepsRequests(w, e);
    StepKeepsResponses(w, e);
    StepKeepsPeerContents(w, e);
    hide RequestsOk, ResponsesOk, ResultsOk, ShapeOk, Tokens;
    var w' := Step(w, e);
    forall id: u32 ensures Tokens(w', id) == if id in w'.self.waiting then 1 else 0 {
      TokensAfter(w, e, id);
    }
    forall id: u32 ensures Tokens(w'.Swap(), id) == if id in w'.peer.waiting then 1 else 0 {
      PeerTokensAfter(w, e, id);
    }
  }

  lemma StepKeepsHandlers(w: World, e: Event)
    requires Enabled(w, e)
    ensures Step(w, e).self.handler == w.self.handler && Step(w, e).peer.handler == w.peer.handler
    ensures Step(w, e).room == w.room
  {
  }

  lemma StartInv(w: World)
    requires w.self.inbound == w.peer.inbound == map[] && w.self.waiting == w.peer.waiting == map[]
    requires w.self.out == w.peer.out == [] && w.self.results == w.peer.results == []
    ensures Inv(w)
  {
  }

  ghost predicate IsStart(w: World, selfServer: bool, peerServer: bool) {
    w.self == Start(w.self.handler, selfServer) && w.peer == Start(w.peer.handler, peerServer)
  }

  lemma {:induction false} RunInv(run: seq<World>, start: World, selfServer: bool, peerServer: bool, i: nat)
    requires IsStart(start, selfServer, peerServer) && IsRun(run, start) && i < |run|
    ensures Inv(run[i]) && run[i].self.handler == start.self.handler && run[i].peer.handler == start.peer.handler
    ensures run[i].room == start.room
  {
    if i == 0 {
      StartInv(start);
    } else {
      RunInv(run, start, selfServer, peerServer, i - 1);
      var w := run[i - 1];
      assert Next(w, run[i]);
      var e :| (Enabled(w, e) && run[i] == Step(w, e)) || (Enabled(w.Swap(), e) && run[i] == Step(w.Swap(), e).Swap());
      var v := if Enabled(w, e) && run[i] == Step(w, e) then w else w.Swap();
      hide HalfInv, Enabled, Step;
      StepKeeps(v, e);
      StepKeepsHandlers(v, e);
    }
  }

  /* ---- results ---- */

  /** Token conservation, over every run from the start with either flags, any handlers and any room
      between the ends: a session has exactly one request, response or buffered answer while its caller
      waits and none otherwise; so `HandleResponse` never blocks and no message is refused; and every
      caller that returned has the peer's answer to the request it made itself. */
  lemma TokensAreConserved(run: seq<World>, start: World, selfServer: bool, peerServer: bool, i: nat, id: u32)
    requires IsStart(start, selfServer, peerServer) && IsRun(run, start) && i < |run|
    ensures var w := run[i];
            && Tokens(w, id) == (if id in w.self.waiting then 1 else 0)
            && (id in w.self.inbound ==> |w.self.inbound[id]| <= INBOUND)
            && (w.peer.out != [] && w.peer.out[0].Response? ==> w.OnHead().2 == Handled && Enabled(w, Receive))
            && (w.peer.out != [] && w.peer.out[0].Request? ==>
                  w.OnHead().2 == if |w.self.out| < w.room then Handled else Blocked)
            && (forall k :: 0 <= k < |w.self.results| ==>
                  w.self.results[k].answer == start.peer.handler(w.self.results[k].payload))
  {
    RunInv(run, start, selfServer, peerServer, i);
    if run[i].peer.out != [] {
      ReceiveIsHandled(run[i]);
      assert ShapeOk(run[i].Swap());
    }
  }

  /* ---- when it jams ---- */

  /** Both links are full and both ends have a request at hand, whose answer has no room. */
  ghost predicate Jammed(w: World) {
    && |w.self.out| >= w.room && |w.peer.out| >= w.room && w.self.out != [] && w.peer.out != []
    && w.self.out[0].Request? && w.peer.out[0].Request?
  }

  lemma StuckMeansJammed(w: World, id: u32)
    requires Inv(w) && id in w.self.waiting && w.room >= 1 && !Enabled(w, Return(id))
    ensures !Enabled(w, Receive) && !Enabled(w.Swap(), Receive) <==> Jammed(w)
  {
    assert Tokens(w, id) == 1;
    if w.peer.out != [] {
      ReceiveIsHandled(w);
    }
    if w.self.out != [] {
      ReceiveIsHandled(w.Swap());
    }
    assert ShapeOk(w) && ShapeOk(w.Swap());
    hide TokensOk, RequestsOk, ResponsesOk, ResultsOk, IsAnswer;
  }

  /** In every run, a waiting caller whose answer is not there yet is stuck, no receive loop able to turn,
      exactly when the ends have jammed each other. */
  lemma StuckIffJammed(run: seq<World>, start: World, selfServer: bool, peerServer: bool, i: nat, id: u32)
    requires IsStart(start, selfServer, peerServer) && IsRun(run, start) && i < |run| && start.room >= 1
    requires id in run[i].self.waiting && !Enabled(run[i], Return(id))
    ensures !Enabled(run[i], Receive) && !Enabled(run[i].Swap(), Receive) <==> Jammed(run[i])
  {
    RunInv(run, start, selfServer, peerServer, i);
    StuckMeansJammed(run[i], id);
  }

  /** All requests, or all responses, in a queue. */
  ghost function CountRequests(q: seq<Msg>): nat {
    if q == [] then 0 else CountRequests(q[1..]) + if q[0].Request? then 1 else 0
  }

  ghost function CountResponses(q: seq<Msg>): nat {
    if q == [] then 0 else CountResponses(q[1..]) + if q[0].Response? then 1 else 0
  }

  lemma {:induction false} CountsAddUp(q: seq<Msg>)
    requires forall i :: 0 <= i < |q| ==> !q[i].Unknown?
    ensures CountRequests(q) + CountResponses(q) == |q|
  {
    if q != [] {
      CountsAddUp(q[1..]);
    }
  }

  /** If every waiting session has at most one message among the requests in p and the responses in q,
      and no other session has one, there are no more messages than waiting sessions. */
  lemma {:induction false} OneEach(p: seq<Msg>, q: seq<Msg>, waiting: set<u32>)
    requires forall id: u32 :: Requests(p, id) + Responses(q, id) <= if id in waiting then 1 else 0
    ensures CountRequests(p) + CountResponses(q) <= |waiting|
    decreases |p| + |q|
  {
    if p != [] {
      if p[0].Request? {
        var id := p[0].id;
        assert Requests(p, id) >= 1;
        OneEach(p[1..], q, waiting - {id});
      } else {
        OneEach(p[1..], q, waiting);
      }
    } else if q != [] {
      if q[0].Response? {
        var id := q[0].id;
        assert Responses(q, id) >= 1;
        OneEach(p, q[1..], waiting - {id});
      } else {
        OneEach(p, q[1..], waiting);
      }
    }
  }

  /** No more messages are under way than callers wait. */
  lemma MessagesAreFew(w: World)
    requires Inv(w)
    ensures |w.self.out| + |w.peer.out| <= |w.self.waiting| + |w.peer.waiting|
  {
    CountsAddUp(w.self.out);
    CountsAddUp(w.peer.out);
    forall id: u32
      ensures Requests(w.self.out, id) + Responses(w.peer.out, id) <= if id in w.self.waiting then 1 else 0
    {
      assert Tokens(w, id) == if id in w.self.waiting then 1 else 0;
    }
    forall id: u32
      ensures Requests(w.peer.out, id) + Responses(w.self.out, id) <= if id in w.peer.waiting then 1 else 0
    {
      assert Tokens(w.Swap(), id) == if id in w.peer.waiting then 1 else 0;
    }
    OneEach(w.self.out, w.peer.out, w.self.waiting.Keys);
    OneEach(w.peer.out, w.self.out, w.peer.waiting.Keys);
    assert |w.self.waiting.Keys| == |w.self.waiting| && |w.peer.waiting.Keys| == |w.peer.waiting|;
  }

  /** While fewer callers wait than fit on the link both ways, a waiting caller is never stuck: it can
      return, or one of the receive loops can turn. */
  lemma WaitingCallersAdvance(run: seq<World>, start: World, selfServer: bool, peerServer: bool, i: nat, id: u32)
    requires IsStart(start, selfServer, peerServer) && IsRun(run, start) && i < |run|
    requires id in run[i].self.waiting && |run[i].self.waiting| + |run[i].peer.waiting| < 2 * start.room
    ensures var w := run[i]; Enabled(w, Return(id)) || Enabled(w, Receive) || Enabled(w.Swap(), Receive)
  {
    RunInv(run, start, selfServer, peerServer, i);
    MessagesAreFew(run[i]);
    if !Enabled(run[i], Return(id)) {
      StuckMeansJammed(run[i], id);
    }
  }
}
