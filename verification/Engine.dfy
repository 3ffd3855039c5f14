/** The rules of the game as functions on values: one turn of the authoritative server and the
    replay of one turn by a client (`game.cpp`). The classes in module `Game` are proved
    against these functions. */
module Engine {
  import opened Types
  import opened Blasts

  /** The state that server and client must agree on. */
  datatype World = World(
    turn: U16, positions: map<U8, Position>, blocks: set<Position>,
    bombs: map<U32, Bomb>, scores: map<U8, U32>)

  /** The server's state: the world, the next bomb id and how many random numbers were drawn. */
  datatype ServerState = ServerState(world: World, bombCounter: U32, cursor: nat)

  /** The client's state: the world and the sets gathered while replaying a turn. */
  datatype Replica = Replica(world: World, explosions: set<Position>, robots: set<U8>, gone: set<Position>)

  /** The outcome of a server operation: the new state and the events it reports. */
  datatype Outcome = Outcome(state: ServerState, events: seq<Event>)

  /** The numbers the random generator will produce. */
  type Draws = nat -> nat

  function BoardOf(cfg: Settings): Board {
    Board(cfg.sizeX, cfg.sizeY, cfg.explosionRadius)
  }

  // ---------------------------------------------------------------- pieces shared by both sides

  /** A 16-bit timer goes down by one and wraps below zero. */
  function Tick(timer: U16): U16 {
    if timer == 0 then 0xFFFF else timer - 1
  }

  function Ticked(bombs: map<U32, Bomb>): map<U32, Bomb> {
    map id | id in bombs :: Bomb(bombs[id].position, Tick(bombs[id].timer))
  }

  /** The bombs of a ticked map that explode in this turn. */
  function Due(bombs: map<U32, Bomb>): set<U32> {
    set id | id in bombs && bombs[id].timer == 0
  }

  /** The cells struck by the given bombs, all seen against the same blocks. */
  ghost function BlastOf(b: Board, blocks: set<Position>, bombs: map<U32, Bomb>, ids: set<U32>): set<Position> {
    set id, p | id in ids && id in bombs && p in Blast(b, blocks, bombs[id].position) :: p
  }

  /** The players standing on one of the given cells. */
  function Hit(positions: map<U8, Position>, cells: set<Position>): set<U8> {
    set i | i in positions && positions[i] in cells
  }

  /** A 32-bit increment. */
  function Inc(n: U32): U32 {
    if n == 0xFFFF_FFFF then 0 else n + 1
  }

  function Bumped(scores: map<U8, U32>, ids: set<U8>): map<U8, U32> {
    map i | i in scores :: if i in ids then Inc(scores[i]) else scores[i]
  }

  function NextTurn(turn: U16): U16 {
    if turn == 0xFFFF then 0 else turn + 1
  }

  // ---------------------------------------------------------------- the server

  function RandomPosition(cfg: Settings, draws: Draws, cursor: nat): Position
    requires cfg.Playable()
  {
    Position(draws(cursor) % cfg.sizeX, draws(cursor + 1) % cfg.sizeY)
  }

  function Dx(direction: U8): int {
    if direction == 0 || direction == 2 then 0 else if direction == 1 then 1 else -1
  }

  function Dy(direction: U8): int {
    if direction == 0 then 1 else if direction == 2 then -1 else 0
  }

  /** The move stays on the board and its target is free. */
  predicate LegalMove(cfg: Settings, blocks: set<Position>, pos: Position, dx: int, dy: int)
    requires UnitStep(dx, dy)
  {
    && !(pos.x == 0 && dx < 0) && pos.x + dx < cfg.sizeX
    && !(pos.y == 0 && dy < 0) && pos.y + dy < cfg.sizeY
    && Position(pos.x + dx, pos.y + dy) !in blocks
  }

  /** The player is put on a random cell. */
  function Respawn(cfg: Settings, draws: Draws, st: ServerState, i: U8): Outcome
    requires cfg.Playable()
  {
    var pos := RandomPosition(cfg, draws, st.cursor);
    Outcome(
      st.(world := st.world.(positions := st.world.positions[i := pos]), cursor := st.cursor + 2),
      [PlayerMoved(i, pos)])
  }

  /** The player's requested move. */
  function MoveOutcome(cfg: Settings, st: ServerState, i: U8, move: ClientMessage): Outcome
    requires i in st.world.positions
  {
    var w := st.world;
    var pos := w.positions[i];
    match move
    case Join(_) => Outcome(st, [])
    case PlaceBomb =>
      Outcome(
        st.(world := w.(bombs := InsertAbsent(w.bombs, st.bombCounter, Bomb(pos, cfg.bombTimer))),
            bombCounter := Inc(st.bombCounter)),
        [BombPlaced(st.bombCounter, pos)])
    case PlaceBlock =>
      if pos in w.blocks then Outcome(st, [])
      else Outcome(st.(world := w.(blocks := w.blocks + {pos})), [BlockPlaced(pos)])
    case Move(d) =>
      if LegalMove(cfg, w.blocks, pos, Dx(d), Dy(d)) then
        var target := Position(pos.x + Dx(d), pos.y + Dy(d));
        Outcome(st.(world := w.(positions := w.positions[i := target])), [PlayerMoved(i, target)])
      else Outcome(st, [])
  }

  /** One player's part of a turn: a destroyed player respawns, the others get their fresh move. */
  function PlayerStep(cfg: Settings, draws: Draws, hit: set<U8>, slots: seq<Slot>, st: ServerState, i: U8): (o: Outcome)
    requires cfg.Playable() && i < |slots| && i in st.world.positions
    ensures o.state.world.positions.Keys == st.world.positions.Keys
    ensures o.state.world.scores == st.world.scores && o.state.world.turn == st.world.turn
  {
    if i in hit then Respawn(cfg, draws, st, i)
    else if slots[i].updated then MoveOutcome(cfg, st, i, slots[i].move)
    else Outcome(st, [])
  }

  /** The players 0..n-1, one after the other. */
  function PlayerPhase(cfg: Settings, draws: Draws, hit: set<U8>, slots: seq<Slot>, st: ServerState, n: nat): (o: Outcome)
    requires cfg.Playable() && n <= |slots| && n <= 0x100 && Ids(n) <= st.world.positions.Keys
    ensures o.state.world.positions.Keys == st.world.positions.Keys
    ensures o.state.world.scores == st.world.scores && o.state.world.turn == st.world.turn
  {
    if n == 0 then Outcome(st, [])
    else
      var o := PlayerPhase(cfg, draws, hit, slots, st, n - 1);
      var p := PlayerStep(cfg, draws, hit, slots, o.state, n - 1);
      Outcome(p.state, o.events + p.events)
  }

  /** What one event list of explosions says about a world whose timers were just ticked: one event
      for each due bomb, in any order, with the players it hits in ascending order and the blocks it
      destroys in any order. */
  ghost predicate ExplosionEvent(b: Board, w: World, e: Event) {
    && e.BombExploded? && e.id in Due(w.bombs)
    && var cells := Blast(b, w.blocks, w.bombs[e.id].position);
    && e.robots == AscendingKeys(Hit(w.positions, cells))
    && Distinct(e.blocks) && ToSet(e.blocks) == cells * w.blocks
  }

  function ExplodedIds(events: seq<Event>): set<U32> {
    set k | 0 <= k < |events| && events[k].BombExploded? :: events[k].id
  }

  ghost predicate ExplosionEvents(b: Board, w: World, events: seq<Event>) {
    && (forall k :: 0 <= k < |events| ==> ExplosionEvent(b, w, events[k]))
    && (forall j, k :: 0 <= j < k < |events| ==> events[j].id != events[k].id)
  }

  ghost predicate AllExplosions(b: Board, w: World, events: seq<Event>) {
    ExplosionEvents(b, w, events) && ExplodedIds(events) == Due(w.bombs)
  }

  function TickedWorld(w: World): World {
    w.(bombs := Ticked(w.bombs))
  }

  /** All cells struck during a turn. */
  ghost function TurnBlast(b: Board, w: World): set<Position> {
    var t := Ticked(w.bombs);
    BlastOf(b, w.blocks, t, Due(t))
  }

  ghost function TurnHit(b: Board, w: World): set<U8> {
    Hit(w.positions, TurnBlast(b, w))
  }

  /** The state once the due bombs are gone and before the players act. */
  function AfterExplosions(st: ServerState): ServerState {
    var t := Ticked(st.world.bombs);
    st.(world := st.world.(bombs := t - Due(t)))
  }

  /** The server's state has the players 0..n-1 of the settings. */
  predicate WellFormed(cfg: Settings, w: World) {
    w.positions.Keys == Ids(cfg.playersCount) && w.scores.Keys == Ids(cfg.playersCount)
  }

  ghost function PlayersOutcome(cfg: Settings, draws: Draws, slots: seq<Slot>, st: ServerState): (o: Outcome)
    requires cfg.Playable() && WellFormed(cfg, st.world) && |slots| == cfg.playersCount
    ensures WellFormed(cfg, o.state.world)
  {
    PlayerPhase(cfg, draws, TurnHit(BoardOf(cfg), st.world), slots, AfterExplosions(st), cfg.playersCount)
  }

  /** The server's state after a turn. It does not depend on the order in which bombs explode. */
  ghost function ServerTurn(cfg: Settings, draws: Draws, slots: seq<Slot>, st: ServerState): (next: ServerState)
    requires cfg.Playable() && WellFormed(cfg, st.world) && |slots| == cfg.playersCount
    ensures WellFormed(cfg, next.world) && next.world.turn == NextTurn(st.world.turn)
  {
    var o := PlayersOutcome(cfg, draws, slots, st);
    var b := BoardOf(cfg);
    o.state.(world := o.state.world.(
      turn := NextTurn(st.world.turn),
      blocks := o.state.world.blocks - TurnBlast(b, st.world) * st.world.blocks,
      scores := Bumped(st.world.scores, TurnHit(b, st.world))))
  }

  /** A message that `apply_moves` may report for this turn. */
  ghost predicate TurnReport(cfg: Settings, draws: Draws, slots: seq<Slot>, st: ServerState, turn: Turn)
    requires cfg.Playable() && WellFormed(cfg, st.world) && |slots| == cfg.playersCount
  {
    var d := |Due(Ticked(st.world.bombs))|;
    && turn.turn == NextTurn(st.world.turn)
    && d <= |turn.events|
    && AllExplosions(BoardOf(cfg), TickedWorld(st.world), turn.events[..d])
    && turn.events[d..] == PlayersOutcome(cfg, draws, slots, st).events
  }

  // ---------------------------------------------------------------- the start of a game

  function ZeroScores(n: nat): (scores: map<U8, U32>)
    requires n <= 0x100
    ensures scores.Keys == Ids(n) && forall i :: i in scores ==> scores[i] == 0
  {
    if n == 0 then map[] else ZeroScores(n - 1)[n - 1 := 0]
  }

  /** Players 0..n-1 are put on random cells. */
  function InitPlayers(cfg: Settings, draws: Draws, n: nat): Outcome
    requires cfg.Playable() && n <= cfg.playersCount
  {
    if n == 0 then
      Outcome(ServerState(World(0, map[], {}, map[], ZeroScores(cfg.playersCount)), 0, 0), [])
    else
      var o := InitPlayers(cfg, draws, n - 1);
      var p := Respawn(cfg, draws, o.state, n - 1);
      Outcome(p.state, o.events + p.events)
  }

  /** A block is put on a random cell, which may already hold one. */
  function InitBlock(cfg: Settings, draws: Draws, st: ServerState): Outcome
    requires cfg.Playable()
  {
    var pos := RandomPosition(cfg, draws, st.cursor);
    Outcome(
      st.(world := st.world.(blocks := st.world.blocks + {pos}), cursor := st.cursor + 2),
      [BlockPlaced(pos)])
  }

  function InitBlocks(cfg: Settings, draws: Draws, n: nat): Outcome
    requires cfg.Playable()
  {
    if n == 0 then InitPlayers(cfg, draws, cfg.playersCount)
    else
      var o := InitBlocks(cfg, draws, n - 1);
      var p := InitBlock(cfg, draws, o.state);
      Outcome(p.state, o.events + p.events)
  }

  function GameInit(cfg: Settings, draws: Draws): Outcome
    requires cfg.Playable()
  {
    InitBlocks(cfg, draws, cfg.initialBlocks)
  }

  // ---------------------------------------------------------------- the client

  function InitialReplica(players: map<U8, Player>, turn: U16): Replica {
    Replica(
      World(turn, map i | i in players :: Position(0, 0), {}, map[], map i | i in players :: 0),
      {}, {}, {})
  }

  ghost function ApplyEvent(hello: Hello, r: Replica, e: Event): Replica {
    var w := r.world;
    match e
    case BombPlaced(id, pos) => r.(world := w.(bombs := InsertAbsent(w.bombs, id, Bomb(pos, hello.bombTimer))))
    case BombExploded(id, robots, blocks) =>
      var r' := r.(robots := r.robots + ToSet(robots), gone := r.gone + ToSet(blocks));
      if id in w.bombs then
        r'.(explosions := r.explosions + Blast(HelloBoard(hello), w.blocks, w.bombs[id].position),
            world := w.(bombs := w.bombs - {id}))
      else r'
    case PlayerMoved(i, pos) =>
      if i in w.positions then r.(world := w.(positions := w.positions[i := pos])) else r
    case BlockPlaced(pos) => r.(world := w.(blocks := w.blocks + {pos}))
  }

  function HelloBoard(hello: Hello): Board {
    Board(hello.sizeX, hello.sizeY, hello.explosionRadius)
  }

  ghost function ApplyEvents(hello: Hello, r: Replica, events: seq<Event>): Replica {
    if events == [] then r
    else ApplyEvent(hello, ApplyEvents(hello, r, events[..|events| - 1]), events[|events| - 1])
  }

  /** The replica just before the first event of a turn is applied. */
  function StartTurn(r: Replica, turn: U16): Replica {
    Replica(r.world.(turn := turn, bombs := Ticked(r.world.bombs)), {}, {}, {})
  }

  function EndTurn(r: Replica): Replica {
    r.(world := r.world.(blocks := r.world.blocks - r.gone, scores := Bumped(r.world.scores, r.robots)))
  }

  ghost function ApplyTurn(hello: Hello, r: Replica, turn: Turn): Replica {
    EndTurn(ApplyEvents(hello, StartTurn(r, turn.turn), turn.events))
  }

  /** The client's replica after a sequence of turns. */
  ghost function Replay(hello: Hello, r: Replica, turns: seq<Turn>): Replica {
    if turns == [] then r
    else ApplyTurn(hello, Replay(hello, r, turns[..|turns| - 1]), turns[|turns| - 1])
  }
}
