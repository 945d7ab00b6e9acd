/** tunnel/tunnel_pool.go, tunnel/manager.go, tunnel/tunnel.go and the two halves of opening a tunnel in
    link/request.go and link/handler.go. */
module Tunnels {
  import opened Bytes
  import opened IdPool

  datatype Proto = TCP | UDP

  datatype Config = Config(
    id: u32, proto: Proto, localHost: string, localPort: int, remoteHost: string, remotePort: int, reverse: bool) {

    /** The same tunnel from the other end, which chooses the ID. */
    function RemoteConfig(): Config {
      Config(0, proto, remoteHost, remotePort, localHost, localPort, !reverse)
    }
  }

  /** Two configs of one tunnel, seen from its ends: what is local to one is remote to the other, and a
      tunnel that one end listens for is reversed at the other. */
  ghost predicate Mirrored(a: Config, b: Config) {
    && b.proto == a.proto
    && b.localHost == a.remoteHost && b.localPort == a.remotePort
    && b.remoteHost == a.localHost && b.remotePort == a.localPort
    && b.reverse == !a.reverse
  }

  /** The config for the other end is the mirrored one, without an ID, and nothing else is; mirroring it
      again gives the first back. */
  lemma RemoteConfigMirrors(a: Config, b: Config)
    ensures Mirrored(a, b) <==> b.(id := 0) == a.RemoteConfig()
    ensures a.RemoteConfig().RemoteConfig() == a.(id := 0)
    ensures a.RemoteConfig().id == 0
  {
  }

  datatype Tunnel = Tunnel(config: Config, listening: bool)

  datatype CreateError = Existed | ListenFailed | RefusedByPeer

  class Manager {
    const pool: Pool<Tunnel>

    constructor (isServerSide: bool)
      ensures fresh(pool) && pool.curID == (if isServerSide then 1 else 2) && pool.pool == map[]
    {
      pool := new Pool(isServerSide);
    }

    /** `Pool.New`: an ID is chosen for a config without one. */
    method New(cfg: Config) returns (r: Result<Tunnel, CreateError>)
      requires cfg.id == 0 ==> HasFree(pool.curID, pool.pool.Keys + {0})
      modifies pool
      ensures r.Ok? <==> cfg.id == 0 || cfg.id !in old(pool.pool)
      ensures r.Err? ==> r.error == Existed && pool.pool == old(pool.pool) && pool.curID == old(pool.curID)
      ensures r.Ok? ==>
                var t := r.value;
                && t == Tunnel(cfg.(id := t.config.id), false) && t.config.id != 0
                && t.config.id !in old(pool.pool) && pool.pool == old(pool.pool)[t.config.id := t]
                && if cfg.id == 0
                   then pool.curID == t.config.id
                        && IsNextID(old(pool.curID), 2, old(pool.pool).Keys + {0}, t.config.id)
                   else t.config.id == cfg.id && pool.curID == old(pool.curID)
    {
      var id := cfg.id;
      if id == 0 {
        id := pool.NewID();
      } else {
        if pool.Exist(id) {
          return Err(Existed);
        }
      }
      var t := Tunnel(cfg.(id := id), false);
      pool.Insert(id, t);
      return Ok(t);
    }

    /** `Listen`: only a forward tunnel binds its address, and that may fail. */
    method Listen(t: Tunnel, bound: bool) returns (r: Option<Tunnel>)
      ensures r.Some? <==> t.config.reverse || bound
      ensures r.Some? ==> r.value == t.(listening := t.listening || !t.config.reverse)
    {
      if t.config.reverse {
        return Some(t);
      }
      return if bound then Some(t.(listening := true)) else None;
    }

    /** `TunnelCreate`: either the pool gains exactly this tunnel, listening unless it is reversed, or
        it is left as it was. */
    method TunnelCreate(cfg: Config, bound: bool) returns (r: Result<Tunnel, CreateError>)
      requires cfg.id == 0 ==> HasFree(pool.curID, pool.pool.Keys + {0})
      modifies pool
      ensures r == Err(Existed) <==> cfg.id != 0 && cfg.id in old(pool.pool)
      ensures r.Ok? <==> r != Err(Existed) && (cfg.reverse || bound)
      ensures r.Err? ==> r.error == Existed || r.error == ListenFailed
      ensures r.Err? ==> pool.pool == old(pool.pool)
      ensures r.Ok? ==>
                var t := r.value;
                && t == Tunnel(cfg.(id := t.config.id), !cfg.reverse) && t.config.id != 0
                && t.config.id !in old(pool.pool) && pool.pool == old(pool.pool)[t.config.id := t]
                && if cfg.id == 0
                   then IsNextID(old(pool.curID), 2, old(pool.pool).Keys + {0}, t.config.id)
                        && pool.curID == t.config.id
                   else t.config.id == cfg.id
      ensures cfg.id != 0 ==> pool.curID == old(pool.curID)
      ensures cfg.id == 0 ==> IsNextID(old(pool.curID), 2, old(pool.pool).Keys + {0}, pool.curID)
    {
      var created := New(cfg);
      if created.Err? {
        return Err(created.error);
      }
      var t := created.value;
      var listens := Listen(t, bound);
      if listens.None? {
        var _ := pool.Delete(t.config.id);
        assert old(pool.pool)[t.config.id := t] - {t.config.id} == old(pool.pool);
        return Err(ListenFailed);
      }
      pool.Insert(t.config.id, listens.value);
      return Ok(listens.value);
    }

    /** The responder's half: the ID of the new tunnel, or a refusal. A request may also name the ID. */
    method HandleCreate(cfg: Config, bound: bool) returns (reply: Option<u32>)
      requires cfg.id == 0 ==> HasFree(pool.curID, pool.pool.Keys + {0})
      modifies pool
      ensures reply.Some? <==> (cfg.id == 0 || cfg.id !in old(pool.pool)) && (cfg.reverse || bound)
      ensures reply.None? ==> pool.pool == old(pool.pool)
      ensures reply.Some? ==>
                && reply.value !in old(pool.pool) && reply.value != 0
                && pool.pool == old(pool.pool)[reply.value := Tunnel(cfg.(id := reply.value), !cfg.reverse)]
                && if cfg.id == 0 then IsNextID(old(pool.curID), 2, old(pool.pool).Keys + {0}, reply.value)
                                       && pool.curID == reply.value
                   else reply.value == cfg.id
      ensures if cfg.id != 0 then pool.curID == old(pool.curID)
              else IsNextID(old(pool.curID), 2, old(pool.pool).Keys + {0}, pool.curID)
    {
      var t := TunnelCreate(cfg, bound);
      return if t.Ok? then Some(t.value.config.id) else None;
    }

    /** The opener's half, once the peer has answered. An answer that names no ID has one chosen here. */
    method Opened(cfg: Config, reply: Option<u32>, bound: bool) returns (r: Result<(), CreateError>)
      requires reply == Some(0) ==> HasFree(pool.curID, pool.pool.Keys + {0})
      modifies pool
      ensures r == Err(RefusedByPeer) <==> reply.None?
      ensures r == Err(Existed) <==> reply.Some? && reply.value != 0 && reply.value in old(pool.pool)
      ensures r.Ok? <==> reply.Some? && (reply.value == 0 || reply.value !in old(pool.pool)) && (cfg.reverse || bound)
      ensures r.Err? ==> pool.pool == old(pool.pool)
      ensures reply.None? || reply.value != 0 ==> pool.curID == old(pool.curID)
      ensures r.Ok? ==> exists id: u32 ::
                && id != 0 && id !in old(pool.pool) && (reply.value != 0 ==> id == reply.value)
                && pool.pool == old(pool.pool)[id := Tunnel(cfg.(id := id), !cfg.reverse)]
    {
      if reply.None? {
        return Err(RefusedByPeer);
      }
      var t := TunnelCreate(cfg.(id := reply.value), bound);
      if t.Err? {
        return Err(t.error);
      }
      assert t.value == Tunnel(cfg.(id := t.value.config.id), !cfg.reverse);
      return Ok(());
    }
  }

  /* ---- both ends ---- */

  /** How far the opening of one tunnel has come. The request and its answer travel on a session of
      their own, so they are found here rather than in a network. */
  datatype Phase =
    | Requested               // under way to the responder
    | Allocated(id: u32)      // in the responder's pool, not yet listening
    | Answered(id: u32)       // the responder is done, its answer under way
    | Refused                 // the responder could not listen
    | Checked(id: u32)        // the opener found the ID free
    | Inserted(id: u32)       // in the opener's pool too, not yet listening
    | Open(id: u32)
    | Abandoned(id: u32)      // the opener could not listen; the responder is not told
    | Clashed(id: u32)        // "tunnel ID existed"
  {
    predicate Named() { !Requested? && !Refused? }
  }

  datatype Call = Call(cfg: Config, phase: Phase)

  datatype End = End(curID: u32, pool: map<u32, Tunnel>, calls: seq<Call>)

  /** Both ends of a link; `peer` is the responder for the calls of `self`. */
  datatype World = World(self: End, peer: End) {
    function Swap(): World { World(peer, self) }
  }

  function Start(isServerSide: bool): End {
    End(if isServerSide then 1 else 2, map[], [])
  }

  datatype Event =
    | OpenTunnel(cfg: Config)
    | Allocate(c: nat, id: u32)
    | RemoteListen(c: nat, bound: bool)
    | Check(c: nat)
    | Insert(c: nat)
    | LocalListen(c: nat, bound: bool)

  function SetPhase(e: End, c: nat, phase: Phase): End
    requires c < |e.calls|
  {
    e.(calls := e.calls[c := e.calls[c].(phase := phase)])
  }

  ghost predicate Enabled(w: World, e: Event) {
    if e.OpenTunnel? then e.cfg.id == 0
    else
      e.c < |w.self.calls| && var phase := w.self.calls[e.c].phase;
      match e
      case Allocate(_, id) => phase.Requested? && IsNextID(w.peer.curID, 2, w.peer.pool.Keys + {0}, id)
      case RemoteListen(_, _) => phase.Allocated? && phase.id in w.peer.pool
      case Check(_) => phase.Answered?
      case Insert(_) => phase.Checked?
      case LocalListen(_, _) => phase.Inserted? && phase.id in w.self.pool
      case OpenTunnel(_) => true
  }

  /** One step towards opening a tunnel from `self`. */
  ghost function Step(w: World, e: Event): World
    requires Enabled(w, e)
  {
    match e
    case OpenTunnel(cfg) => w.(self := w.self.(calls := w.self.calls + [Call(cfg, Requested)]))
    case Allocate(c, id) =>
      var cfg := w.self.calls[c].cfg.RemoteConfig();
      World(SetPhase(w.self, c, Allocated(id)),
            w.peer.(curID := id, pool := w.peer.pool[id := Tunnel(cfg.(id := id), false)]))
    case RemoteListen(c, bound) =>
      var id := w.self.calls[c].phase.id;
      var t := w.peer.pool[id];
      if t.config.reverse || bound then
        World(SetPhase(w.self, c, Answered(id)),
              w.peer.(pool := w.peer.pool[id := t.(listening := !t.config.reverse)]))
      else World(SetPhase(w.self, c, Refused), w.peer.(pool := w.peer.pool - {id}))
    case Check(c) =>
      var id := w.self.calls[c].phase.id;
      w.(self := SetPhase(w.self, c, if id in w.self.pool then Clashed(id) else Checked(id)))
    case Insert(c) =>
      var id := w.self.calls[c].phase.id;
      w.(self := SetPhase(w.self, c, Inserted(id)).(
           pool := w.self.pool[id := Tunnel(w.self.calls[c].cfg.(id := id), false)]))
    case LocalListen(c, bound) =>
      var id := w.self.calls[c].phase.id;
      var t := w.self.pool[id];
      if t.config.reverse || bound then
        w.(self := SetPhase(w.self, c, Open(id)).(pool := w.self.pool[id := t.(listening := !t.config.reverse)]))
      else w.(self := SetPhase(w.self, c, Abandoned(id)).(pool := w.self.pool - {id}))
  }

  /** `HandleCreate` takes the responder's two steps: its pool ends as that method leaves it. */
  lemma HandleCreateIsTwoSteps(w: World, c: nat, id: u32, bound: bool)
    requires Enabled(w, Allocate(c, id)) && w.self.calls[c].cfg.id == 0
    ensures var cfg := w.self.calls[c].cfg.RemoteConfig();
            var w' := Step(w, Allocate(c, id));
            Enabled(w', RemoteListen(c, bound)) &&
            var w'' := Step(w', RemoteListen(c, bound));
            && w''.peer.pool == (if cfg.reverse || bound then w.peer.pool[id := Tunnel(cfg.(id := id), !cfg.reverse)]
                                 else w.peer.pool)
            && w''.self.calls[c].phase == (if cfg.reverse || bound then Answered(id) else Refused)
            && w''.peer.curID == id && w''.self.pool == w.self.pool && w''.self.curID == w.self.curID
  {
    NextIDIsFresh(w.peer.curID, w.peer.pool.Keys + {0}, id);
    assert w.peer.pool - {id} == w.peer.pool;
  }

  /** `Opened` takes the opener's three steps, or stops at the first. */
  lemma OpenedIsThreeSteps(w: World, c: nat, bound: bool)
    requires Enabled(w, Check(c))
    ensures var call := w.self.calls[c];
            var id := call.phase.id;
            var w1 := Step(w, Check(c));
            if id in w.self.pool then w1.self.pool == w.self.pool && w1.self.calls[c].phase == Clashed(id)
            else
              Enabled(w1, Insert(c)) &&
              var w2 := Step(w1, Insert(c));
              Enabled(w2, LocalListen(c, bound)) &&
              var w3 := Step(w2, LocalListen(c, bound));
              && w3.self.pool == (if call.cfg.reverse || bound
                                  then w.self.pool[id := Tunnel(call.cfg.(id := id), !call.cfg.reverse)]
                                  else w.self.pool)
              && w3.self.calls[c].phase == (if call.cfg.reverse || bound then Open(id) else Abandoned(id))
              && w3.self.curID == w.self.curID && w3.peer == w.peer
  {
    assert w.self.calls[c].phase.id !in w.self.pool ==> w.self.pool - {w.self.calls[c].phase.id} == w.self.pool;
  }

  /** Either end takes a step as the opener. */
  ghost predicate Next(w: World, w': World) {
    exists e :: (Enabled(w, e) && w' == Step(w, e)) || (Enabled(w.Swap(), e) && w' == Step(w.Swap(), e).Swap())
  }

  ghost predicate IsRun(run: seq<World>, selfServer: bool, peerServer: bool) {
    && run != [] && run[0] == World(Start(selfServer), Start(peerServer))
    && forall i :: 0 < i < |run| ==> Next(run[i - 1], run[i])
  }

  /* ---- invariant ---- */

  ghost predicate OppositeIDs(w: World) { !SameParity(w.self.curID, w.peer.curID) }

  /** A named call's ID was chosen by the responder, whose pool holds the mirrored config. */
  ghost predicate CallOk(w: World, call: Call) {
    && call.cfg.id == 0
    && !call.phase.Clashed?
    && (call.phase.Named() ==>
          var id := call.phase.id;
          && SameParity(id, w.peer.curID) && id != 0 && id in w.peer.pool
          && w.peer.pool[id] == Tunnel(call.cfg.RemoteConfig().(id := id), !call.phase.Allocated? && call.cfg.reverse))
    && (call.phase.Inserted? || call.phase.Open? ==>
          var id := call.phase.id;
          id in w.self.pool && w.self.pool[id] == Tunnel(call.cfg.(id := id), call.phase.Open? && !call.cfg.reverse))
  }

  ghost predicate CallsOk(w: World) {
    forall c :: 0 <= c < |w.self.calls| ==> CallOk(w, w.self.calls[c])
  }

  ghost predicate IDsAreDistinct(calls: seq<Call>) {
    forall c, d :: 0 <= c < d < |calls| && calls[c].phase.Named() && calls[d].phase.Named() ==>
      calls[c].phase.id != calls[d].phase.id
  }

  ghost predicate HasOpener(w: World, id: u32) {
    exists c :: 0 <= c < |w.self.calls| && w.self.calls[c].phase in {Inserted(id), Open(id)}
  }

  /** Every tunnel that this end opened, as its ID shows, belongs to a call. */
  ghost predicate PoolOk(w: World) {
    forall id :: id in w.self.pool && SameParity(id, w.peer.curID) ==> HasOpener(w, id)
  }

  ghost predicate HalfInv(w: World) {
    CallsOk(w) && IDsAreDistinct(w.self.calls) && PoolOk(w)
  }

  ghost predicate Inv(w: World) {
    OppositeIDs(w) && HalfInv(w) && HalfInv(w.Swap())
  }

  lemma AllocatedIsFresh(w: World, c: nat, id: u32)
    requires Enabled(w, Allocate(c, id))
    ensures id !in w.peer.pool && id != 0 && SameParity(id, w.peer.curID)
  {
    NextIDIsFresh(w.peer.curID, w.peer.pool.Keys + {0}, id);
  }

  lemma StepKeepsIDs(w: World, e: Event)
    requires OppositeIDs(w) && CallsOk(w) && IDsAreDistinct(w.self.calls) && Enabled(w, e)
    ensures IDsAreDistinct(Step(w, e).self.calls) && OppositeIDs(Step(w, e))
  {
    if e.Allocate? {
      AllocatedIsFresh(w, e.c, e.id);
      assert forall d :: 0 <= d < |w.self.calls| && w.self.calls[d].phase.Named() ==>
          CallOk(w, w.self.calls[d]) && w.self.calls[d].phase.id != e.id;
    }
  }

  /** A call is not disturbed by a step of another call. */
  lemma OthersStayOk(w: World, e: Event, d: nat)
    requires OppositeIDs(w) && CallsOk(w) && IDsAreDistinct(w.self.calls) && Enabled(w, e)
    requires d < |w.self.calls| && (e.OpenTunnel? || e.c != d)
    ensures CallOk(Step(w, e), w.self.calls[d])
  {
    assert CallOk(w, w.self.calls[d]);
    if !e.OpenTunnel? {
      assert CallOk(w, w.self.calls[e.c]);
    }
    hide CallsOk;
    if e.Allocate? {
      AllocatedIsFresh(w, e.c, e.id);
    }
  }

  lemma OwnStaysOk(w: World, e: Event)
    requires OppositeIDs(w) && HalfInv(w) && Enabled(w, e)
    ensures var calls := Step(w, e).self.calls;
            CallOk(Step(w, e), if e.OpenTunnel? then calls[|calls| - 1] else calls[e.c])
  {
    if !e.OpenTunnel? {
      assert CallOk(w, w.self.calls[e.c]);
    }
    if e.Check? {
      CheckNeverClashes(w, e.c);
    }
    hide CallsOk, IDsAreDistinct, PoolOk;
    if e.Allocate? {
      AllocatedIsFresh(w, e.c, e.id);
    }
  }

  lemma StepKeepsCalls(w: World, e: Event)
    requires OppositeIDs(w) && HalfInv(w) && Enabled(w, e)
    ensures CallsOk(Step(w, e))
  {
    var w' := Step(w, e);
    forall d | 0 <= d < |w'.self.calls| ensures CallOk(w', w'.self.calls[d]) {
      if d < |w.self.calls| && (e.OpenTunnel? || e.c != d) {
        OthersStayOk(w, e, d);
      } else {
        OwnStaysOk(w, e);
      }
      hide CallOk;
    }
  }

  /** The ID in an answer is not in the opener's pool. */
  lemma CheckNeverClashes(w: World, c: nat)
    requires CallsOk(w) && IDsAreDistinct(w.self.calls) && PoolOk(w) && Enabled(w, Check(c))
    ensures w.self.calls[c].phase.id !in w.self.pool
  {
    var id := w.self.calls[c].phase.id;
    assert CallOk(w, w.self.calls[c]);
    assert id in w.self.pool ==> HasOpener(w, id);
  }

  lemma StepKeepsPool(w: World, e: Event)
    requires OppositeIDs(w) && CallsOk(w) && PoolOk(w) && Enabled(w, e)
    ensures PoolOk(Step(w, e))
  {
    var w' := Step(w, e);
    if e.Allocate? {
      AllocatedIsFresh(w, e.c, e.id);
    }
    forall id | id in w'.self.pool && SameParity(id, w'.peer.curID) ensures HasOpener(w', id) {
      if (e.Insert? || e.LocalListen?) && w.self.calls[e.c].phase.id == id {
        assert w'.self.calls[e.c].phase in {Inserted(id), Open(id)};
      } else {
        assert HasOpener(w, id);
        var c :| 0 <= c < |w.self.calls| && w.self.calls[c].phase in {Inserted(id), Open(id)};
        assert w'.self.calls[c] == w.self.calls[c];
      }
    }
  }

  /** Steps of the opener keep the half in which it responds: they touch only IDs of the other parity. */
  lemma StepKeepsOtherHalf(w: World, e: Event)
    requires OppositeIDs(w) && HalfInv(w) && HalfInv(w.Swap()) && Enabled(w, e)
    ensures HalfInv(Step(w, e).Swap())
  {
    if e.Allocate? {
      AllocatedIsFresh(w, e.c, e.id);
    }
  }

  lemma NextKeeps(w: World, w': World)
    requires Inv(w) && Next(w, w')
    ensures Inv(w')
  {
    var e :| (Enabled(w, e) && w' == Step(w, e)) || (Enabled(w.Swap(), e) && w' == Step(w.Swap(), e).Swap());
    var v := if Enabled(w, e) && w' == Step(w, e) then w else w.Swap();
    hide CallsOk, IDsAreDistinct, PoolOk, Step, Enabled;
    StepKeepsCalls(v, e);
    StepKeepsIDs(v, e);
    StepKeepsPool(v, e);
    StepKeepsOtherHalf(v, e);
  }

  lemma {:induction false} RunInv(run: seq<World>, selfServer: bool, peerServer: bool, i: nat)
    requires IsRun(run, selfServer, peerServer) && selfServer != peerServer && i < |run|
    ensures Inv(run[i])
  {
    if i > 0 {
      RunInv(run, selfServer, peerServer, i - 1);
      NextKeeps(run[i - 1], run[i]);
    }
  }

  /* ---- results ---- */

  /** The two ends agree about a tunnel that this end opened: the peer has a tunnel of that ID with
      the mirrored config, and once it is open exactly one of the two listens, this end unless it is
      reversed. */
  ghost predicate Agree(w: World, id: u32) {
    exists c :: 0 <= c < |w.self.calls|
      && id in w.self.pool && id in w.peer.pool
      && w.self.calls[c].phase in {Inserted(id), Open(id)}
      && w.self.pool[id].config == w.self.calls[c].cfg.(id := id)
      && w.peer.pool[id].config.id == id && Mirrored(w.self.pool[id].config, w.peer.pool[id].config)
      && (w.self.calls[c].phase.Open? ==> w.self.pool[id].listening == !w.peer.pool[id].listening)
      && (w.self.pool[id].listening ==> !w.self.calls[c].cfg.reverse)
      && (w.peer.pool[id].listening ==> w.self.calls[c].cfg.reverse)
  }

  ghost predicate Clash(w: World) {
    exists c :: 0 <= c < |w.self.calls| && w.self.calls[c].phase.Clashed?
  }

  lemma InvMeansAgree(w: World, id: u32)
    requires Inv(w) && id in w.self.pool && SameParity(id, w.peer.curID)
    ensures Agree(w, id)
  {
    assert HasOpener(w, id);
    var c :| 0 <= c < |w.self.calls| && w.self.calls[c].phase in {Inserted(id), Open(id)};
    assert CallOk(w, w.self.calls[c]);
  }

  /** With opposite sides, over every interleaving of opens from both ends, failures to listen and
      wraparound of the IDs: every tunnel either end opened is agreed on, every call reported open is
      in both pools, and no opener meets "tunnel ID existed". */
  lemma TunnelsAgree(run: seq<World>, selfServer: bool, i: nat, id: u32)
    requires IsRun(run, selfServer, !selfServer) && i < |run|
    ensures var w := run[i];
            && (id in w.self.pool && SameParity(id, w.peer.curID) ==> Agree(w, id))
            && (id in w.peer.pool && SameParity(id, w.self.curID) ==> Agree(w.Swap(), id))
            && (forall c :: 0 <= c < |w.self.calls| && w.self.calls[c].phase == Open(id) ==> Agree(w, id))
            && !Clash(w) && !Clash(w.Swap())
  {
    RunInv(run, selfServer, !selfServer, i);
    var w := run[i];
    if id in w.self.pool && SameParity(id, w.peer.curID) {
      InvMeansAgree(w, id);
    }
    if id in w.peer.pool && SameParity(id, w.self.curID) {
      InvMeansAgree(w.Swap(), id);
    }
    forall c | 0 <= c < |w.self.calls| && w.self.calls[c].phase == Open(id) ensures Agree(w, id) {
      assert CallOk(w, w.self.calls[c]);
      InvMeansAgree(w, id);
    }
    forall c | 0 <= c < |w.self.calls| ensures !w.self.calls[c].phase.Clashed? {
      assert CallOk(w, w.self.calls[c]);
    }
    forall c | 0 <= c < |w.peer.calls| ensures !w.peer.calls[c].phase.Clashed? {
      assert CallOk(w.Swap(), w.peer.calls[c]);
    }
  }

  /** A call keeps the config it was opened with. */
  lemma StepKeepsConfigs(w: World, e: Event)
    requires Enabled(w, e)
    ensures var w' := Step(w, e);
            && |w'.self.calls| == |w.self.calls| + (if e.OpenTunnel? then 1 else 0)
            && (e.OpenTunnel? ==> w'.self.calls[|w.self.calls|] == Call(e.cfg, Requested))
            && (forall c :: 0 <= c < |w.self.calls| ==> w'.self.calls[c].cfg == w.self.calls[c].cfg)
            && w'.peer.calls == w.peer.calls
  {
  }

  lemma {:induction false} CallsKeepConfigs(run: seq<World>, selfServer: bool, peerServer: bool, i: nat, j: nat)
    requires IsRun(run, selfServer, peerServer) && i <= j < |run|
    ensures |run[i].self.calls| <= |run[j].self.calls|
    ensures forall c :: 0 <= c < |run[i].self.calls| ==> run[j].self.calls[c].cfg == run[i].self.calls[c].cfg
  {
    if i < j {
      CallsKeepConfigs(run, selfServer, peerServer, i, j - 1);
      var w, w' := run[j - 1], run[j];
      assert Next(w, w');
      var e :| (Enabled(w, e) && w' == Step(w, e)) || (Enabled(w.Swap(), e) && w' == Step(w.Swap(), e).Swap());
      hide Step, Enabled;
      if Enabled(w, e) && w' == Step(w, e) { StepKeepsConfigs(w, e); } else { StepKeepsConfigs(w.Swap(), e); }
    }
  }

  /** What was asked for is what both ends have: once the call that opened cfg is reported open, this end
      has cfg and the peer the config mirrored from it, field by field, under one ID, and exactly one of
      them listens: this end unless cfg is reversed. */
  lemma OpenedAsAsked(run: seq<World>, selfServer: bool, cfg: Config, i: nat, j: nat, id: u32)
    requires IsRun(run, selfServer, !selfServer) && 0 < i <= j < |run|
    requires Enabled(run[i - 1], OpenTunnel(cfg)) && run[i] == Step(run[i - 1], OpenTunnel(cfg))
    ensures var c, w := |run[i - 1].self.calls|, run[j];
            && c < |w.self.calls|
            && (w.self.calls[c].phase == Open(id) ==>
                  && id in w.self.pool && id in w.peer.pool
                  && w.self.pool[id] == Tunnel(cfg.(id := id), !cfg.reverse)
                  && w.peer.pool[id].config.id == id && Mirrored(cfg, w.peer.pool[id].config)
                  && w.peer.pool[id].listening == cfg.reverse)
  {
    var c, w := |run[i - 1].self.calls|, run[j];
    CallsKeepConfigs(run, selfServer, !selfServer, i, j);
    RunInv(run, selfServer, !selfServer, j);
    assert CallOk(w, w.self.calls[c]);
  }

  ghost predicate CanClash(selfServer: bool, peerServer: bool) {
    exists run :: IsRun(run, selfServer, peerServer) && Clash(run[|run| - 1])
  }

  /** Two ends with the same flag that open a tunnel each at the same time: both allocate the same
      first ID, and the first answer meets "tunnel ID existed". */
  lemma SameSidesClash(isServerSide: bool, cfg: Config)
    requires cfg.id == 0 && !cfg.reverse
    ensures CanClash(isServerSide, isServerSide)
  {
    var first := Start(isServerSide).curID;
    var id: u32 := first + 2;
    assert IsFreeAt(first, 2, {0}, id, 1);
    assert Start(isServerSide).pool.Keys + {0} == {0};
    var w0 := World(Start(isServerSide), Start(isServerSide));
    var w1 := Step(w0, OpenTunnel(cfg));
    var w2 := Step(w1.Swap(), OpenTunnel(cfg)).Swap();
    var w3 := Step(w2, Allocate(0, id));
    var w4 := Step(w3.Swap(), Allocate(0, id)).Swap();
    var w5 := Step(w4, RemoteListen(0, true));
    var w6 := Step(w5, Check(0));
    assert Next(w0, w1) && Next(w1, w2) && Next(w2, w3) && Next(w3, w4) && Next(w4, w5) && Next(w5, w6);
    var run := [w0, w1, w2, w3, w4, w5, w6];
    assert IsRun(run, isServerSide, isServerSide);
    assert w6.self.calls[0].phase.Clashed?;
  }

  /** "tunnel ID existed" can be met by an opener if and only if the two ends have the same flag. */
  lemma ClashesIffSameSides(selfServer: bool, peerServer: bool)
    ensures CanClash(selfServer, peerServer) <==> selfServer == peerServer
  {
    if selfServer == peerServer {
      SameSidesClash(selfServer, Config(0, TCP, "", 0, "", 0, false));
    } else if CanClash(selfServer, peerServer) {
      var run :| IsRun(run, selfServer, peerServer) && Clash(run[|run| - 1]);
      TunnelsAgree(run, selfServer, |run| - 1, 0);
    }
  }
}
