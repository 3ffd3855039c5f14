/** Replica agreement: replaying the server's event list brings the client to the server's state,
    whatever the order in which the server walked its bombs. */
module ReplicaProof {
  import opened Types
  import opened Blasts
  import opened Engine

  lemma {:induction false} ApplyConcat(h: Hello, r: Replica, a: seq<Event>, b: seq<Event>)
    ensures ApplyEvents(h, r, a + b) == ApplyEvents(h, ApplyEvents(h, r, a), b)
  {
    if b == [] {
      assert a + b == a;
    } else {
      var front, last := b[..|b| - 1], b[|b| - 1];
      assert (a + b)[..|a + b| - 1] == a + front;
      ApplyConcat(h, r, a, front);
    }
  }

  lemma ApplyOne(h: Hello, r: Replica, e: Event)
    ensures ApplyEvents(h, r, [e]) == ApplyEvent(h, r, e)
  {
    assert [e][..0] == [];
    assert ApplyEvents(h, r, [e][..0]) == r;
  }

  // ---------------------------------------------------------------- the explosions

  /** The replica once the bombs `ids` have exploded. */
  ghost function Exploded(b: Board, r: Replica, ids: set<U32>): Replica {
    var w := r.world;
    var cells := BlastOf(b, w.blocks, w.bombs, ids);
    Replica(w.(bombs := w.bombs - ids), cells, Hit(w.positions, cells), cells * w.blocks)
  }

  lemma ExplodeOne(h: Hello, r: Replica, ids: set<U32>, e: Event)
    requires ExplosionEvent(HelloBoard(h), r.world, e) && e.id !in ids
    ensures ApplyEvent(h, Exploded(HelloBoard(h), r, ids), e) == Exploded(HelloBoard(h), r, ids + {e.id})
  {
    var b, w := HelloBoard(h), r.world;
    var cells := BlastOf(b, w.blocks, w.bombs, ids);
    var more := Blast(b, w.blocks, w.bombs[e.id].position);
    assert BlastOf(b, w.blocks, w.bombs, ids + {e.id}) == cells + more;
    KeysFromIsAscending(Hit(w.positions, more), 0);
    assert ToSet(e.robots) == Hit(w.positions, more);
    assert Hit(w.positions, cells + more) == Hit(w.positions, cells) + Hit(w.positions, more);
    assert (cells + more) * w.blocks == cells * w.blocks + more * w.blocks;
    assert w.bombs - ids - {e.id} == w.bombs - (ids + {e.id});
  }

  /** Any event list of explosions, in any order, has the effect of the set of its bombs. */
  lemma {:induction false} ExplosionsAgree(h: Hello, r: Replica, events: seq<Event>)
    requires r.explosions == {} && r.robots == {} && r.gone == {}
    requires ExplosionEvents(HelloBoard(h), r.world, events)
    ensures ApplyEvents(h, r, events) == Exploded(HelloBoard(h), r, ExplodedIds(events))
  {
    hide ApplyEvent;
    var b, w := HelloBoard(h), r.world;
    if events == [] {
      assert BlastOf(b, w.blocks, w.bombs, {}) == {};
      assert w.bombs - {} == w.bombs;
      assert ExplodedIds(events) == {};
    } else {
      var front, e := events[..|events| - 1], events[|events| - 1];
      ExplosionsAgree(h, r, front);
      assert ExplosionEvent(b, w, e);
      assert e.id !in ExplodedIds(front);
      assert ExplodedIds(events) == ExplodedIds(front) + {e.id};
      hide Exploded;
      ExplodeOne(h, r, ExplodedIds(front), e);
    }
  }

  // ---------------------------------------------------------------- the players' moves

  /** The replica shows the server's world, except for the turn number. */
  ghost predicate Shows(r: Replica, w: World) {
    r.world == w.(turn := r.world.turn)
  }

  ghost function WithWorld(r: Replica, w: World): Replica {
    r.(world := w.(turn := r.world.turn))
  }

  predicate Greets(h: Hello, cfg: Settings) {
    HelloBoard(h) == BoardOf(cfg) && h.bombTimer == cfg.bombTimer
  }

  lemma StepAgrees(h: Hello, cfg: Settings, draws: Draws, hit: set<U8>, slots: seq<Slot>, st: ServerState, i: U8, r: Replica)
    requires Greets(h, cfg) && cfg.Playable() && i < |slots| && i in st.world.positions && Shows(r, st.world)
    ensures var o := PlayerStep(cfg, draws, hit, slots, st, i);
            ApplyEvents(h, r, o.events) == WithWorld(r, o.state.world)
  {
    var o := PlayerStep(cfg, draws, hit, slots, st, i);
    if o.events != [] {
      assert o.events == [o.events[0]];
      ApplyOne(h, r, o.events[0]);
    }
  }

  lemma {:induction false} PhaseAgrees(
    h: Hello, cfg: Settings, draws: Draws, hit: set<U8>, slots: seq<Slot>, st: ServerState, n: nat, r: Replica)
    requires Greets(h, cfg) && cfg.Playable() && n <= |slots| && n <= 0x100 && Ids(n) <= st.world.positions.Keys
    requires Shows(r, st.world)
    ensures var o := PlayerPhase(cfg, draws, hit, slots, st, n);
            ApplyEvents(h, r, o.events) == WithWorld(r, o.state.world)
  {
    if n > 0 {
      PhaseAgrees(h, cfg, draws, hit, slots, st, n - 1, r);
      var o := PlayerPhase(cfg, draws, hit, slots, st, n - 1);
      var p := PlayerStep(cfg, draws, hit, slots, o.state, n - 1);
      ApplyConcat(h, r, o.events, p.events);
      StepAgrees(h, cfg, draws, hit, slots, o.state, n - 1, WithWorld(r, o.state.world));
    }
  }

  // ---------------------------------------------------------------- what the players' moves report

  predicate NoExplosions(events: seq<Event>) {
    forall e :: e in events ==> !e.BombExploded?
  }

  lemma NoEventsNoExplosions()
    ensures NoExplosions([])
  {
  }

  lemma NoExplosionsConcat(a: seq<Event>, c: seq<Event>)
    requires NoExplosions(a) && NoExplosions(c)
    ensures NoExplosions(a + c)
  {
  }

  lemma StepReportsNoExplosion(cfg: Settings, draws: Draws, hit: set<U8>, slots: seq<Slot>, st: ServerState, i: U8)
    requires cfg.Playable() && i < |slots| && i in st.world.positions
    ensures NoExplosions(PlayerStep(cfg, draws, hit, slots, st, i).events)
  {
    hide LegalMove, RandomPosition, Dx, Dy;
  }

  lemma {:induction false} PhaseReportsNoExplosions(
    cfg: Settings, draws: Draws, hit: set<U8>, slots: seq<Slot>, st: ServerState, n: nat)
    requires cfg.Playable() && n <= |slots| && n <= 0x100 && Ids(n) <= st.world.positions.Keys
    ensures NoExplosions(PlayerPhase(cfg, draws, hit, slots, st, n).events)
  {
    hide PlayerStep, NoExplosions;
    NoEventsNoExplosions();
    if n > 0 {
      PhaseReportsNoExplosions(cfg, draws, hit, slots, st, n - 1);
      var o := PlayerPhase(cfg, draws, hit, slots, st, n - 1);
      StepReportsNoExplosion(cfg, draws, hit, slots, o.state, n - 1);
      NoExplosionsConcat(o.events, PlayerStep(cfg, draws, hit, slots, o.state, n - 1).events);
    }
  }

  // ---------------------------------------------------------------- a whole turn

  lemma ExplosionPhaseAgrees(h: Hello, cfg: Settings, st: ServerState, turn: Turn, d: nat, r: Replica)
    requires Greets(h, cfg) && Shows(r, st.world) && d <= |turn.events|
    requires AllExplosions(BoardOf(cfg), TickedWorld(st.world), turn.events[..d])
    ensures var r1 := ApplyEvents(h, StartTurn(r, turn.turn), turn.events[..d]);
            r1 == TurnReplica(cfg, st.world, AfterExplosions(st).world.(turn := turn.turn))
  {
    var r0, prefix := StartTurn(r, turn.turn), turn.events[..d];
    forall k | 0 <= k < |prefix| ensures ExplosionEvent(BoardOf(cfg), r0.world, prefix[k]) {
      assert ExplosionEvent(BoardOf(cfg), TickedWorld(st.world), prefix[k]);
    }
    ExplosionsAgree(h, r0, prefix);
  }

  /** The replica of a turn, in terms of the server's next state. */
  ghost function TurnReplica(cfg: Settings, before: World, after: World): Replica {
    var cells := TurnBlast(BoardOf(cfg), before);
    Replica(after, cells, TurnHit(BoardOf(cfg), before), cells * before.blocks)
  }

  lemma MovePhaseAgrees(
    h: Hello, cfg: Settings, draws: Draws, slots: seq<Slot>, st: ServerState, turn: U16, events: seq<Event>, r1: Replica)
    requires Greets(h, cfg) && cfg.Playable() && WellFormed(cfg, st.world) && |slots| == cfg.playersCount
    requires turn == NextTurn(st.world.turn)
    requires r1 == TurnReplica(cfg, st.world, AfterExplosions(st).world.(turn := turn))
    requires events == PlayersOutcome(cfg, draws, slots, st).events
    ensures EndTurn(ApplyEvents(h, r1, events)) ==
            TurnReplica(cfg, st.world, ServerTurn(cfg, draws, slots, st).world)
  {
    PhaseAgrees(h, cfg, draws, TurnHit(BoardOf(cfg), st.world), slots, AfterExplosions(st), cfg.playersCount, r1);
  }

  lemma ApplySplit(h: Hello, r: Replica, turn: Turn, d: nat)
    requires d <= |turn.events|
    ensures ApplyTurn(h, r, turn) ==
            EndTurn(ApplyEvents(h, ApplyEvents(h, StartTurn(r, turn.turn), turn.events[..d]), turn.events[d..]))
  {
    assert turn.events == turn.events[..d] + turn.events[d..];
    ApplyConcat(h, StartTurn(r, turn.turn), turn.events[..d], turn.events[d..]);
  }

  /** One turn keeps client and server together, for every order of explosions. */
  lemma TurnAgrees(h: Hello, cfg: Settings, draws: Draws, slots: seq<Slot>, st: ServerState, turn: Turn, r: Replica)
    requires Greets(h, cfg) && cfg.Playable() && WellFormed(cfg, st.world) && |slots| == cfg.playersCount
    requires Shows(r, st.world) && TurnReport(cfg, draws, slots, st, turn)
    ensures ApplyTurn(h, r, turn) == TurnReplica(cfg, st.world, ServerTurn(cfg, draws, slots, st).world)
  {
    var d := |Due(Ticked(st.world.bombs))|;
    ApplySplit(h, r, turn, d);
    ExplosionPhaseAgrees(h, cfg, st, turn, d, r);
    var r1 := TurnReplica(cfg, st.world, AfterExplosions(st).world.(turn := turn.turn));
    MovePhaseAgrees(h, cfg, draws, slots, st, turn.turn, turn.events[d..], r1);
  }

  /** Bomb-order independence: two reports of the same turn drive a replica to the same state,
      explosions included, and they differ only in their explosion prefix. */
  lemma BombOrderIsIrrelevant(
    h: Hello, cfg: Settings, draws: Draws, slots: seq<Slot>, st: ServerState, one: Turn, two: Turn, r: Replica)
    requires Greets(h, cfg) && cfg.Playable() && WellFormed(cfg, st.world) && |slots| == cfg.playersCount
    requires Shows(r, st.world)
    requires TurnReport(cfg, draws, slots, st, one) && TurnReport(cfg, draws, slots, st, two)
    ensures ApplyTurn(h, r, one) == ApplyTurn(h, r, two)
    ensures var d := |Due(Ticked(st.world.bombs))|;
            one.events[d..] == two.events[d..] && ExplodedIds(one.events[..d]) == ExplodedIds(two.events[..d])
  {
    TurnAgrees(h, cfg, draws, slots, st, one, r);
    TurnAgrees(h, cfg, draws, slots, st, two, r);
  }

  // ---------------------------------------------------------------- the first turn

  /** Induction over the players put on the board. */
  lemma {:induction false} InitInduction(holds: (int, Outcome) -> bool, cfg: Settings, draws: Draws, n: nat)
    requires cfg.Playable() && n <= cfg.playersCount
    requires holds(0, InitPlayers(cfg, draws, 0))
    requires forall k: U8, o {:trigger Respawn(cfg, draws, o.state, k)} :: k < cfg.playersCount && holds(k, o) ==>
               var p := Respawn(cfg, draws, o.state, k); holds(k + 1, Outcome(p.state, o.events + p.events))
    ensures holds(n, InitPlayers(cfg, draws, n))
  {
    if n > 0 {
      InitInduction(holds, cfg, draws, n - 1);
      var o, k: U8 := InitPlayers(cfg, draws, n - 1), n - 1;
      var p := Respawn(cfg, draws, o.state, k);
      assert holds(k + 1, Outcome(p.state, o.events + p.events));
    }
  }

  ghost predicate InitShape(cfg: Settings, n: int, o: Outcome) {
    var w := o.state.world;
    && (forall i: U8 :: i in w.positions <==> i < n) && o.state.bombCounter == 0
    && w == World(0, w.positions, {}, map[], ZeroScores(cfg.playersCount))
  }

  lemma InitPlayersShape(cfg: Settings, draws: Draws, n: nat)
    requires cfg.Playable() && n <= cfg.playersCount
    ensures InitShape(cfg, n, InitPlayers(cfg, draws, n))
    ensures InitPlayers(cfg, draws, n).state.world.positions.Keys == Ids(n)
  {
    hide RandomPosition;
    var holds := (k, o) => InitShape(cfg, k, o);
    InitInduction(holds, cfg, draws, n);
    assert holds(n, InitPlayers(cfg, draws, n));
  }

  lemma RespawnAgrees(h: Hello, r: Replica, events: seq<Event>, i: U8, pos: Position, was: map<U8, Position>)
    requires i in r.world.positions
    requires ApplyEvents(h, r, events) == r.(world := r.world.(positions := r.world.positions + was))
    ensures ApplyEvents(h, r, events + [PlayerMoved(i, pos)]) ==
            r.(world := r.world.(positions := r.world.positions + was[i := pos]))
  {
    ApplyConcat(h, r, events, [PlayerMoved(i, pos)]);
    ApplyOne(h, ApplyEvents(h, r, events), PlayerMoved(i, pos));
    assert (r.world.positions + was)[i := pos] == r.world.positions + was[i := pos];
  }

  lemma InitPlayersAgree(h: Hello, cfg: Settings, draws: Draws, n: nat, r: Replica)
    requires cfg.Playable() && n <= cfg.playersCount && r.world.positions.Keys == Ids(cfg.playersCount)
    ensures var o := InitPlayers(cfg, draws, n);
            ApplyEvents(h, r, o.events) ==
            r.(world := r.world.(positions := r.world.positions + o.state.world.positions))
  {
    var shown := (w: World) => r.(world := r.world.(positions := r.world.positions + w.positions));
    var holds := (k: int, o: Outcome) => ApplyEvents(h, r, o.events) == shown(o.state.world);
    var start := InitPlayers(cfg, draws, 0);
    assert r.world.positions + start.state.world.positions == r.world.positions;
    assert start.events == [] && ApplyEvents(h, r, []) == r;
    assert holds(0, start);
    forall k: U8, o: Outcome | k < cfg.playersCount && holds(k, o)
      ensures var p := Respawn(cfg, draws, o.state, k); holds(k + 1, Outcome(p.state, o.events + p.events))
    {
      RespawnAgrees(h, r, o.events, k, RandomPosition(cfg, draws, o.state.cursor), o.state.world.positions);
    }
    InitInduction(holds, cfg, draws, n);
    assert holds(n, InitPlayers(cfg, draws, n));
  }

  lemma {:induction false} InitBlocksShape(cfg: Settings, draws: Draws, n: nat)
    requires cfg.Playable()
    ensures var st := InitBlocks(cfg, draws, n).state;
            && st.bombCounter == 0
            && st.world == InitPlayers(cfg, draws, cfg.playersCount).state.world.(blocks := st.world.blocks)
  {
    InitPlayersShape(cfg, draws, cfg.playersCount);
    if n > 0 {
      InitBlocksShape(cfg, draws, n - 1);
    }
  }

  lemma BlockAgrees(h: Hello, r: Replica, events: seq<Event>, pos: Position, w: World)
    requires ApplyEvents(h, r, events) == r.(world := w)
    ensures ApplyEvents(h, r, events + [BlockPlaced(pos)]) == r.(world := w.(blocks := w.blocks + {pos}))
  {
    ApplyConcat(h, r, events, [BlockPlaced(pos)]);
    ApplyOne(h, ApplyEvents(h, r, events), BlockPlaced(pos));
  }

  lemma {:induction false} InitBlocksAgree(h: Hello, cfg: Settings, draws: Draws, n: nat, r: Replica)
    requires cfg.Playable() && r.world.positions.Keys == Ids(cfg.playersCount)
    ensures var o := InitBlocks(cfg, draws, n);
            ApplyEvents(h, r, o.events) ==
            r.(world := r.world.(positions := o.state.world.positions, blocks := r.world.blocks + o.state.world.blocks))
  {
    hide ApplyEvents, RandomPosition;
    if n > 0 {
      InitBlocksAgree(h, cfg, draws, n - 1, r);
      var o := InitBlocks(cfg, draws, n - 1);
      var pos := RandomPosition(cfg, draws, o.state.cursor);
      var w := r.world.(positions := o.state.world.positions, blocks := r.world.blocks + o.state.world.blocks);
      BlockAgrees(h, r, o.events, pos, w);
      assert r.world.blocks + o.state.world.blocks + {pos} == r.world.blocks + (o.state.world.blocks + {pos});
    } else {
      AllPlayersAgree(h, cfg, draws, r);
    }
  }

  lemma AllPlayersAgree(h: Hello, cfg: Settings, draws: Draws, r: Replica)
    requires cfg.Playable() && r.world.positions.Keys == Ids(cfg.playersCount)
    ensures var o := InitPlayers(cfg, draws, cfg.playersCount);
            ApplyEvents(h, r, o.events) ==
            r.(world := r.world.(positions := o.state.world.positions, blocks := r.world.blocks + o.state.world.blocks))
  {
    InitPlayersShape(cfg, draws, cfg.playersCount);
    InitPlayersAgree(h, cfg, draws, cfg.playersCount, r);
    var w := InitPlayers(cfg, draws, cfg.playersCount).state.world;
    assert r.world.positions + w.positions == w.positions;
    assert r.world.blocks + w.blocks == r.world.blocks;
  }

  /** The server's first state. */
  lemma InitState(cfg: Settings, draws: Draws)
    requires cfg.Playable()
    ensures var st := GameInit(cfg, draws).state;
            && WellFormed(cfg, st.world) && st.world.bombs == map[] && st.bombCounter == 0
            && st.world.turn == 0 && st.world.scores == ZeroScores(cfg.playersCount)
  {
    InitPlayersShape(cfg, draws, cfg.playersCount);
    InitBlocksShape(cfg, draws, cfg.initialBlocks);
  }

  /** Turn 0 brings a new client, whatever its turn field happened to hold, to the server's first state. */
  lemma InitAgrees(h: Hello, cfg: Settings, draws: Draws, players: map<U8, Player>, any: U16)
    requires cfg.Playable() && players.Keys == Ids(cfg.playersCount)
    ensures var o := GameInit(cfg, draws);
            ApplyTurn(h, InitialReplica(players, any), Turn(0, o.events)) == Replica(o.state.world, {}, {}, {})
  {
    hide ApplyEvents, InitBlocks;
    var r := StartTurn(InitialReplica(players, any), 0);
    InitBlocksAgree(h, cfg, draws, cfg.initialBlocks, r);
    InitState(cfg, draws);
    var w := GameInit(cfg, draws).state.world;
    assert Ticked(map[]) == map[];
    assert w.scores == r.world.scores && {} + w.blocks == w.blocks;
    assert Bumped(r.world.scores, {}) == r.world.scores;
    assert w.blocks - {} == w.blocks;
  }

  // ---------------------------------------------------------------- whole games

  /** A game as the server plays it: the messages, the states after them and the move snapshots
      taken in between. `snaps[k]` is the snapshot used for turn k + 1. */
  datatype Trace = Trace(turns: seq<Turn>, states: seq<ServerState>, snaps: seq<seq<Slot>>)

  ghost predicate TraceStep(cfg: Settings, draws: Draws, slots: seq<Slot>, st: ServerState, turn: Turn, next: ServerState)
    requires cfg.Playable()
  {
    && WellFormed(cfg, st.world) && |slots| == cfg.playersCount
    && TurnReport(cfg, draws, slots, st, turn)
    && next == ServerTurn(cfg, draws, slots, st)
  }

  ghost predicate ValidTrace(cfg: Settings, draws: Draws, tr: Trace)
    requires cfg.Playable()
  {
    && |tr.states| == |tr.turns| <= cfg.gameLength + 1
    && (tr.turns == [] ==> tr.snaps == [])
    && (tr.turns != [] ==> |tr.snaps| == |tr.turns| - 1)
    && (tr.turns != [] ==> tr.turns[0] == Turn(0, GameInit(cfg, draws).events)
                           && tr.states[0] == GameInit(cfg, draws).state)
    && (forall k :: 0 <= k < |tr.turns| - 1 ==> StepAt(cfg, draws, tr, k))
  }

  /** Turn k + 1 follows from the state after turn k. */
  ghost predicate StepAt(cfg: Settings, draws: Draws, tr: Trace, k: nat)
    requires cfg.Playable() && k + 1 < |tr.turns| == |tr.states| && |tr.snaps| == |tr.turns| - 1
  {
    TraceStep(cfg, draws, tr.snaps[k], tr.states[k], tr.turns[k + 1], tr.states[k + 1])
  }

  /** Replica agreement over whole games: after turns 0..k the client's world is the server's. */
  lemma {:induction false} ReplicaAgreement(
    h: Hello, cfg: Settings, draws: Draws, tr: Trace, players: map<U8, Player>, any: U16, k: nat)
    requires Greets(h, cfg) && cfg.Playable() && players.Keys == Ids(cfg.playersCount)
    requires ValidTrace(cfg, draws, tr) && k < |tr.turns|
    ensures var r := Replay(h, InitialReplica(players, any), tr.turns[..k + 1]);
            && r.world == tr.states[k].world
            && (k > 0 ==> r == TurnReplica(cfg, tr.states[k - 1].world, tr.states[k].world))
  {
    var r := InitialReplica(players, any);
    assert tr.turns[..k + 1][..k] == tr.turns[..k];
    if k == 0 {
      InitAgrees(h, cfg, draws, players, any);
      InitState(cfg, draws);
      assert Replay(h, r, []) == r;
    } else {
      ReplicaAgreement(h, cfg, draws, tr, players, any, k - 1);
      assert StepAt(cfg, draws, tr, k - 1);
      TurnAgrees(h, cfg, draws, tr.snaps[k - 1], tr.states[k - 1], tr.turns[k], Replay(h, r, tr.turns[..k]));
    }
  }

  // ---------------------------------------------------------------- a game without players

  lemma NoBombsNoBlast(b: Board, w: World)
    requires w.bombs == map[]
    ensures Ticked(w.bombs) == map[] && TurnHit(b, w) == {}
  {
    assert Ticked(w.bombs) == map[];
    assert TurnBlast(b, w) == {};
  }

  lemma IdleTurn(cfg: Settings, draws: Draws, slots: seq<Slot>, st: ServerState)
    requires cfg.Playable() && WellFormed(cfg, st.world) && |slots| == cfg.playersCount == 0 && st.world.bombs == map[]
    ensures ServerTurn(cfg, draws, slots, st).world == st.world.(turn := NextTurn(st.world.turn))
  {
    NoBombsNoBlast(BoardOf(cfg), st.world);
    assert TurnBlast(BoardOf(cfg), st.world) == {};
    assert Bumped(st.world.scores, {}) == st.world.scores;
  }

  /** Without players nothing but the turn number ever changes. */
  lemma {:induction false} IdleGame(cfg: Settings, draws: Draws, tr: Trace, k: nat)
    requires cfg.Playable() && cfg.playersCount == 0 && ValidTrace(cfg, draws, tr) && k < |tr.turns|
    ensures WellFormed(cfg, tr.states[k].world) && tr.states[k].world.bombs == map[]
    ensures tr.states[k].world == GameInit(cfg, draws).state.world.(turn := tr.states[k].world.turn)
  {
    hide GameInit, TurnReport, ServerTurn;
    if k == 0 {
      InitState(cfg, draws);
    } else {
      IdleGame(cfg, draws, tr, k - 1);
      assert StepAt(cfg, draws, tr, k - 1);
      IdleTurn(cfg, draws, tr.snaps[k - 1], tr.states[k - 1]);
    }
  }

  /** Without players a client that is sent turn 0 a second time is back in the server's first state. */
  lemma RestartAgrees(h: Hello, cfg: Settings, draws: Draws, r: Replica)
    requires cfg.Playable() && cfg.playersCount == 0 && Greets(h, cfg)
    requires r.world == GameInit(cfg, draws).state.world.(turn := r.world.turn)
    ensures ApplyTurn(h, r, Turn(0, GameInit(cfg, draws).events)) == Replica(GameInit(cfg, draws).state.world, {}, {}, {})
  {
    hide ApplyEvents, InitBlocks;
    InitState(cfg, draws);
    var w := GameInit(cfg, draws).state.world;
    assert Ticked(map[]) == map[];
    InitBlocksAgree(h, cfg, draws, cfg.initialBlocks, StartTurn(r, 0));
    assert w.blocks + w.blocks == w.blocks && w.blocks - {} == w.blocks;
    assert Bumped(w.scores, {}) == w.scores;
  }
}
