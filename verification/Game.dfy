/** The game objects: `Game` holds the fields that server and client share, `GameServer` steps the
    authoritative game, `GameClient` replays the server's turns (`game.cpp`, `game.h`). */
module Game {
  import opened Types
  import opened Blasts
  import opened Engine
  import opened Containers

  /** The cells of a ray before its k-th one. */
  ghost function RayUpTo(b: Board, blocks: set<Position>, pos: Position, dx: int, dy: int, k: int): set<Position> {
    set j | 0 <= j < k && j <= b.radius && Reaches(b, blocks, pos, dx, dy, j) :: Cell(b, pos, dx, dy, j)
  }

  lemma RayGrows(b: Board, blocks: set<Position>, pos: Position, dx: int, dy: int, k: int)
    requires 0 <= k <= b.radius && Reaches(b, blocks, pos, dx, dy, k) && CellOnBoard(b, pos, dx, dy, k)
    ensures RayUpTo(b, blocks, pos, dx, dy, k + 1) == RayUpTo(b, blocks, pos, dx, dy, k) + {Cell(b, pos, dx, dy, k)}
  {
  }

  lemma RayEnds(b: Board, blocks: set<Position>, pos: Position, dx: int, dy: int, k: int)
    requires 0 <= k && (k <= b.radius ==> !Reaches(b, blocks, pos, dx, dy, k))
    ensures RayUpTo(b, blocks, pos, dx, dy, k) == Ray(b, blocks, pos, dx, dy)
  {
    forall j | k <= j <= b.radius ensures !Reaches(b, blocks, pos, dx, dy, j) {
      if Reaches(b, blocks, pos, dx, dy, j) {
        assert Reaches(b, blocks, pos, dx, dy, k);
      }
    }
  }

  /** The ray has met neither the edge nor a block before its k-th cell. */
  ghost predicate FreeUpTo(b: Board, blocks: set<Position>, pos: Position, dx: int, dy: int, k: int) {
    && (forall j :: 0 <= j < k ==> CellOnBoard(b, pos, dx, dy, j))
    && (forall j {:trigger Cell(b, pos, dx, dy, j)} ::
          0 <= j < k && CellOnBoard(b, pos, dx, dy, j) ==> Cell(b, pos, dx, dy, j) !in blocks)
  }

  /** One step of the ray: its k-th cell is added, and the ray is complete if that cell is a block. */
  lemma RayStep(b: Board, blocks: set<Position>, pos: Position, dx: int, dy: int, k: int)
    requires 0 <= k <= b.radius && FreeUpTo(b, blocks, pos, dx, dy, k) && CellOnBoard(b, pos, dx, dy, k)
    ensures RayUpTo(b, blocks, pos, dx, dy, k + 1) == RayUpTo(b, blocks, pos, dx, dy, k) + {Cell(b, pos, dx, dy, k)}
    ensures if Cell(b, pos, dx, dy, k) in blocks
            then RayUpTo(b, blocks, pos, dx, dy, k + 1) == Ray(b, blocks, pos, dx, dy)
            else FreeUpTo(b, blocks, pos, dx, dy, k + 1)
  {
    assert Reaches(b, blocks, pos, dx, dy, k);
    RayGrows(b, blocks, pos, dx, dy, k);
    if Cell(b, pos, dx, dy, k) in blocks {
      RayEnds(b, blocks, pos, dx, dy, k + 1);
    }
  }

  lemma RayBegins(b: Board, blocks: set<Position>, pos: Position, dx: int, dy: int)
    ensures RayUpTo(b, blocks, pos, dx, dy, 0) == {} && FreeUpTo(b, blocks, pos, dx, dy, 0)
  {
  }

  /** The board's edge comes before the 16-bit radius counter can wrap. */
  lemma CounterFits(b: Board, blocks: set<Position>, pos: Position, dx: int, dy: int, k: U16)
    requires UnitStep(dx, dy) && FreeUpTo(b, blocks, pos, dx, dy, k) && CellOnBoard(b, pos, dx, dy, k)
    ensures k < 0xFFFF
  {
    assert CellOnBoard(b, pos, dx, dy, 0);
  }

  lemma RayStops(b: Board, blocks: set<Position>, pos: Position, dx: int, dy: int, k: int)
    requires 0 <= k && !(CellOnBoard(b, pos, dx, dy, k) && k <= b.radius)
    ensures RayUpTo(b, blocks, pos, dx, dy, k) == Ray(b, blocks, pos, dx, dy)
  {
    RayEnds(b, blocks, pos, dx, dy, k);
  }

  class Game {
    const board: Board
    var turn: U16
    var playerPositions: map<U8, Position>
    var blocks: set<Position>
    var bombs: map<U32, Bomb>
    var scores: map<U8, U32>
    var turnRobotsDestroyed: set<U8>
    var turnBlocksDestroyed: set<Position>
    var explosions: set<Position>

    constructor (board: Board, playerPositions: map<U8, Position>, scores: map<U8, U32>, turn: U16)
      ensures this.board == board
      ensures View() == World(turn, playerPositions, {}, map[], scores)
      ensures turnRobotsDestroyed == {} && turnBlocksDestroyed == {} && explosions == {}
    {
      this.board := board;
      this.playerPositions := playerPositions;
      this.scores := scores;
      this.turn := turn;
      blocks := {};
      bombs := map[];
      turnRobotsDestroyed, turnBlocksDestroyed, explosions := {}, {}, {};
    }

    ghost function View(): World
      reads this
    {
      World(turn, playerPositions, blocks, bombs, scores)
    }

    /** Adds exactly the ray's cells. The 16-bit radius counter equals the distance travelled and the
        loop ends even at radius 65535, where the counter could wrap. */
    method ExplodeOneDirection(pos: Position, dx: int, dy: int)
      requires UnitStep(dx, dy)
      modifies this`explosions
      ensures explosions == old(explosions) + Ray(board, blocks, pos, dx, dy)
    {
      hide RayUpTo, Ray, FreeUpTo;
      var currX: int, currY: int := pos.x, pos.y;
      var currRadius: U16 := 0;
      RayBegins(board, blocks, pos, dx, dy);
      while 0 <= currX < board.sizeX && 0 <= currY < board.sizeY && currRadius <= board.radius
        invariant currX == Along(pos.x, dx, currRadius) && currY == Along(pos.y, dy, currRadius)
        invariant explosions == old(explosions) + RayUpTo(board, blocks, pos, dx, dy, currRadius)
        invariant FreeUpTo(board, blocks, pos, dx, dy, currRadius)
        decreases 0x1_0000 - currRadius
      {
        var p := Position(currX, currY);
        explosions := explosions + {p};
        CounterFits(board, blocks, pos, dx, dy, currRadius);
        RayStep(board, blocks, pos, dx, dy, currRadius);
        if p in blocks {
          return;
        }
        currX := currX + dx;
        currY := currY + dy;
        currRadius := (currRadius + 1) % 0x1_0000;
      }
      RayStops(board, blocks, pos, dx, dy, currRadius);
    }

    method FindExplosions(bomb: Bomb)
      modifies this`explosions
      ensures explosions == old(explosions) + Blast(board, blocks, bomb.position)
    {
      var pos := bomb.position;
      ExplodeOneDirection(pos, 0, 1);
      ExplodeOneDirection(pos, 1, 0);
      ExplodeOneDirection(pos, 0, -1);
      ExplodeOneDirection(pos, -1, 0);
    }

    method DecreaseBombTimers()
      modifies this`bombs
      ensures bombs == Ticked(old(bombs))
    {
      var todo := bombs.Keys;
      while todo != {}
        invariant todo <= bombs.Keys == old(bombs).Keys
        invariant forall id :: id in todo ==> bombs[id] == old(bombs)[id]
        invariant forall id :: id in bombs && id !in todo ==> bombs[id] == Ticked(old(bombs))[id]
      {
        var id :| id in todo;
        var bomb := bombs[id];
        bombs := bombs[id := bomb.(timer := if bomb.timer == 0 then 0xFFFF else bomb.timer - 1)];
        todo := todo - {id};
      }
    }

    method UpdateScores()
      modifies this`scores
      ensures scores == Bumped(old(scores), turnRobotsDestroyed)
    {
      var todo := turnRobotsDestroyed;
      while todo != {}
        invariant todo <= turnRobotsDestroyed
        invariant scores == Bumped(old(scores), turnRobotsDestroyed - todo)
      {
        var id :| id in todo;
        if id in scores {
          scores := scores[id := if scores[id] == 0xFFFF_FFFF then 0 else scores[id] + 1];
        }
        todo := todo - {id};
      }
    }

    method EraseDestroyedBlocks()
      modifies this`blocks
      ensures blocks == old(blocks) - turnBlocksDestroyed
    {
      var todo := turnBlocksDestroyed;
      while todo != {}
        invariant todo <= turnBlocksDestroyed
        invariant blocks == old(blocks) - (turnBlocksDestroyed - todo)
      {
        var pos :| pos in todo;
        blocks := blocks - {pos};
        todo := todo - {pos};
      }
    }
  }

  /** bs lists the bombs, one entry for each id. */
  predicate ListsBombs(bombs: map<U32, Bomb>, ids: seq<U32>, bs: seq<Bomb>) {
    && Distinct(ids) && ToSet(ids) == bombs.Keys && |bs| == |ids|
    && forall k :: 0 <= k < |ids| ==> ids[k] in bombs && bs[k] == bombs[ids[k]]
  }

  /** The message shows the state of the game, every block, bomb and explosion once. */
  ghost predicate Depicts(hello: Hello, players: map<U8, Player>, r: Replica, m: GameMessage) {
    && m.serverName == hello.serverName && m.sizeX == hello.sizeX && m.sizeY == hello.sizeY
    && m.gameLength == hello.gameLength && m.turn == r.world.turn && m.players == players
    && m.positions == r.world.positions && m.scores == r.world.scores
    && Distinct(m.blocks) && ToSet(m.blocks) == r.world.blocks
    && Distinct(m.explosions) && ToSet(m.explosions) == r.explosions
    && exists ids: seq<U32> :: ListsBombs(r.world.bombs, ids, m.bombs)
  }

  class GameClient {
    const hello: Hello
    const players: map<U8, Player>
    const game: Game

    ghost function State(): Replica
      reads this, game
    {
      Replica(game.View(), game.explosions, game.turnRobotsDestroyed, game.turnBlocksDestroyed)
    }

    ghost predicate Valid() {
      game.board == HelloBoard(hello)
    }

    /** Every player starts in the corner with score 0; the turn field is left uninitialised and
        holds whatever its memory held. */
    constructor (hello: Hello, players: map<U8, Player>, garbage: U16)
      ensures Valid() && fresh(game) && this.hello == hello && this.players == players
      ensures State() == InitialReplica(players, garbage)
      ensures var w := State().world;
              && w.turn == garbage && w.positions.Keys == w.scores.Keys == players.Keys && w.blocks == {} && w.bombs == map[]
              && forall i :: i in players ==> w.positions[i] == Position(0, 0) && w.scores[i] == 0
    {
      this.hello := hello;
      this.players := players;
      var positions: map<U8, Position>, scores: map<U8, U32> := map[], map[];
      var todo := players.Keys;
      while todo != {}
        invariant todo <= players.Keys
        invariant positions == (map i | i in players && i !in todo :: Position(0, 0))
        invariant scores == (map i | i in players && i !in todo :: 0)
      {
        var id :| id in todo;
        positions := positions[id := Position(0, 0)];
        scores := scores[id := 0];
        todo := todo - {id};
      }
      game := new Game(HelloBoard(hello), positions, scores, garbage);
    }

    method ApplyOneEvent(event: Event)
      requires Valid()
      modifies game
      ensures State() == ApplyEvent(hello, old(State()), event)
    {
      match event
      case BombPlaced(id, pos) =>
        game.bombs := InsertAbsent(game.bombs, id, Bomb(pos, hello.bombTimer));
      case BombExploded(id, robots, blocks) =>
        if id in game.bombs {
          game.FindExplosions(game.bombs[id]);
          game.bombs := game.bombs - {id};
        }
        game.turnRobotsDestroyed := game.turnRobotsDestroyed + ToSet(robots);
        game.turnBlocksDestroyed := game.turnBlocksDestroyed + ToSet(blocks);
      case PlayerMoved(i, pos) =>
        if i in game.playerPositions {
          game.playerPositions := game.playerPositions[i := pos];
        }
      case BlockPlaced(pos) =>
        game.blocks := game.blocks + {pos};
    }

    method ApplyTurnMessage(message: Turn)
      requires Valid()
      modifies game
      ensures State() == ApplyTurn(hello, old(State()), message)
    {
      ghost var before := State();
      game.turn := message.turn;
      game.DecreaseBombTimers();
      game.explosions := {};
      game.turnBlocksDestroyed := {};
      game.turnRobotsDestroyed := {};
      for i := 0 to |message.events|
        invariant State() == ApplyEvents(hello, StartTurn(before, message.turn), message.events[..i])
      {
        ApplyOneEvent(message.events[i]);
        assert message.events[..i + 1][..i] == message.events[..i];
      }
      assert message.events[..|message.events|] == message.events;
      game.EraseDestroyedBlocks();
      game.UpdateScores();
    }

    /** The state of the game for the GUI; sets and bombs come in an arbitrary order. */
    method GetGameState() returns (m: GameMessage)
      ensures Depicts(hello, players, State(), m)
    {
      var blocks := ListPositions(game.blocks);
      ghost var ids;
      var bombs;
      bombs, ids := ListBombs(game.bombs);
      var explosions := ListPositions(game.explosions);
      m := GameMessage(hello.serverName, hello.sizeX, hello.sizeY, hello.gameLength, game.turn, players,
                       game.playerPositions, blocks, bombs, explosions, game.scores);
      assert ListsBombs(State().world.bombs, ids, m.bombs);
    }
  }

  method ListPositions(positions: set<Position>) returns (ps: seq<Position>)
    ensures Distinct(ps) && ToSet(ps) == positions
  {
    ps := [];
    var todo := positions;
    while todo != {}
      invariant todo <= positions && Distinct(ps) && ToSet(ps) == positions - todo
    {
      var p :| p in todo;
      assert p !in ToSet(ps);
      assert ToSet(ps + [p]) == ToSet(ps) + {p};
      ps := ps + [p];
      todo := todo - {p};
    }
  }

  method ListBombs(bombs: map<U32, Bomb>) returns (bs: seq<Bomb>, ghost ids: seq<U32>)
    ensures ListsBombs(bombs, ids, bs)
  {
    bs, ids := [], [];
    var todo := bombs.Keys;
    while todo != {}
      invariant todo <= bombs.Keys && Distinct(ids) && ToSet(ids) == bombs.Keys - todo && |bs| == |ids|
      invariant forall k :: 0 <= k < |ids| ==> ids[k] in bombs && bs[k] == bombs[ids[k]]
    {
      var id :| id in todo;
      assert id !in ToSet(ids);
      assert ToSet(ids + [id]) == ToSet(ids) + {id};
      bs := bs + [bombs[id]];
      ids := ids + [id];
      todo := todo - {id};
    }
  }

  // ---------------------------------------------------------------- the server

  lemma ExplosionEventsStep(b: Board, w: World, events: seq<Event>, e: Event)
    requires ExplosionEvents(b, w, events) && ExplosionEvent(b, w, e) && e.id !in ExplodedIds(events)
    ensures ExplosionEvents(b, w, events + [e])
    ensures ExplodedIds(events + [e]) == ExplodedIds(events) + {e.id}
  {
    var all := events + [e];
    forall k | 0 <= k < |events| ensures all[k] == events[k] && events[k].id in ExplodedIds(events) {
      assert events[k].BombExploded?;
    }
    assert all[|events|] == e;
    forall id | id in ExplodedIds(events) ensures id in ExplodedIds(all) {
      var k :| 0 <= k < |events| && events[k].BombExploded? && events[k].id == id;
      assert all[k].BombExploded?;
    }
  }

  /** As many explosion events as exploded bombs. */
  lemma {:induction false} ExplosionCount(b: Board, w: World, events: seq<Event>)
    requires ExplosionEvents(b, w, events)
    ensures |ExplodedIds(events)| == |events|
  {
    if events != [] {
      var front, e := events[..|events| - 1], events[|events| - 1];
      ExplosionCount(b, w, front);
      forall k | 0 <= k < |front| ensures front[k].id != e.id {
      }
      assert ExplosionEvent(b, w, e);
      assert events == front + [e];
      ExplosionEventsStep(b, w, front, e);
    }
  }

  class GameServer {
    const cfg: Settings
    const draws: Draws
    const game: Game
    var cursor: nat
    var bombCounter: U32

    ghost function State(): ServerState
      reads this, game
    {
      ServerState(game.View(), bombCounter, cursor)
    }

    ghost predicate Valid() {
      cfg.Playable() && game.board == BoardOf(cfg)
    }

    constructor (cfg: Settings, draws: Draws)
      requires cfg.Playable()
      ensures Valid() && fresh(game) && this.cfg == cfg && this.draws == draws
      ensures State() == InitPlayers(cfg, draws, 0).state
    {
      this.cfg := cfg;
      this.draws := draws;
      cursor, bombCounter := 0, 0;
      var scores := InitScores(cfg.playersCount);
      game := new Game(BoardOf(cfg), map[], scores, 0);
    }

    static method InitScores(n: U8) returns (scores: map<U8, U32>)
      ensures scores == ZeroScores(n)
    {
      scores := map[];
      for i := 0 to n
        invariant scores == ZeroScores(i)
      {
        scores := scores[i := 0];
      }
    }

    method RandomNumber() returns (n: nat)
      modifies this`cursor
      ensures n == draws(old(cursor)) && cursor == old(cursor) + 1
    {
      n := draws(cursor);
      cursor := cursor + 1;
    }

    method DrawPosition() returns (pos: Position)
      requires Valid()
      modifies this`cursor
      ensures pos == RandomPosition(cfg, draws, old(cursor)) && cursor == old(cursor) + 2
    {
      var x := RandomNumber();
      var y := RandomNumber();
      pos := Position(x % cfg.sizeX, y % cfg.sizeY);
    }

    /** Sets up the board and reports it as turn 0. */
    method Init() returns (message: Turn)
      requires Valid() && State() == InitPlayers(cfg, draws, 0).state
      modifies this, game
      ensures State() == GameInit(cfg, draws).state
      ensures message == Turn(0, GameInit(cfg, draws).events)
    {
      hide RandomPosition, ZeroScores;
      var events: seq<Event> := [];
      for id := 0 to cfg.playersCount
        invariant Outcome(State(), events) == InitPlayers(cfg, draws, id)
      {
        var position := DrawPosition();
        game.playerPositions := game.playerPositions[id := position];
        events := events + [PlayerMoved(id, position)];
      }
      for i := 0 to cfg.initialBlocks
        invariant Outcome(State(), events) == InitBlocks(cfg, draws, i)
      {
        var position := DrawPosition();
        game.blocks := game.blocks + {position};
        events := events + [BlockPlaced(position)];
      }
      message := Turn(0, events);
    }

    method IsPositionLegal(pos: Position, dx: int, dy: int) returns (legal: bool)
      requires Valid() && UnitStep(dx, dy)
      ensures legal == LegalMove(cfg, game.blocks, pos, dx, dy)
    {
      if (pos.x == 0 && dx < 0) || pos.x + dx >= cfg.sizeX {
        return false;
      }
      if (pos.y == 0 && dy < 0) || pos.y + dy >= cfg.sizeY {
        return false;
      }
      return Position(pos.x + dx, pos.y + dy) !in game.blocks;
    }

    /** Explodes one bomb. The set of struck cells is walked in an arbitrary order. */
    method HandleExplodingBomb(bombId: U32) returns (event: Event)
      requires Valid() && bombId in Due(game.bombs)
      modifies game
      ensures game.View() == old(game.View())
      ensures ExplosionEvent(game.board, game.View(), event) && event.id == bombId
      ensures var cells := Blast(game.board, game.blocks, game.bombs[bombId].position);
              && game.turnBlocksDestroyed == old(game.turnBlocksDestroyed) + cells * game.blocks
              && game.turnRobotsDestroyed == old(game.turnRobotsDestroyed) + Hit(game.playerPositions, cells)
    {
      var bomb := game.bombs[bombId];
      game.explosions := {};
      game.FindExplosions(bomb);
      ghost var cells := Blast(game.board, game.blocks, bomb.position);
      assert game.explosions == cells;
      var blocksDestroyed := MarkBlocks();
      var robotsDestroyed := MarkRobots();
      event := BombExploded(bombId, robotsDestroyed, blocksDestroyed);
    }

    method MarkBlocks() returns (destroyed: seq<Position>)
      modifies game`turnBlocksDestroyed
      ensures game.turnBlocksDestroyed == old(game.turnBlocksDestroyed) + game.explosions * game.blocks
      ensures Distinct(destroyed) && ToSet(destroyed) == game.explosions * game.blocks
    {
      destroyed := [];
      var todo := game.explosions;
      while todo != {}
        invariant todo <= game.explosions
        invariant ToSet(destroyed) == (game.explosions - todo) * game.blocks
        invariant game.turnBlocksDestroyed == old(game.turnBlocksDestroyed) + ToSet(destroyed)
        invariant Distinct(destroyed)
      {
        var pos :| pos in todo;
        if pos in game.blocks {
          assert pos !in ToSet(destroyed);
          assert ToSet(destroyed + [pos]) == ToSet(destroyed) + {pos};
          destroyed := destroyed + [pos];
          game.turnBlocksDestroyed := game.turnBlocksDestroyed + {pos};
        }
        todo := todo - {pos};
      }
    }

    /** The positions map is walked in ascending order of player ids. */
    method MarkRobots() returns (destroyed: seq<U8>)
      modifies game`turnRobotsDestroyed
      ensures var hit := Hit(game.playerPositions, game.explosions);
              && game.turnRobotsDestroyed == old(game.turnRobotsDestroyed) + hit
              && destroyed == AscendingKeys(hit)
    {
      destroyed := [];
      ghost var hit := Hit(game.playerPositions, game.explosions);
      for i := 0 to 0x100
        invariant destroyed + KeysFrom(hit, i) == AscendingKeys(hit)
        invariant game.turnRobotsDestroyed == old(game.turnRobotsDestroyed) + (set j | j in hit && j < i)
      {
        if i in game.playerPositions && game.playerPositions[i] in game.explosions {
          destroyed := destroyed + [i];
          game.turnRobotsDestroyed := game.turnRobotsDestroyed + {i};
        }
      }
    }

    /** Explodes and erases every due bomb, walking the bombs in an arbitrary order. */
    method ExplodeDueBombs() returns (events: seq<Event>)
      requires Valid() && game.turnBlocksDestroyed == {} && game.turnRobotsDestroyed == {}
      modifies game
      ensures var w := old(game.View()); var due := Due(w.bombs); var cells := BlastOf(game.board, w.blocks, w.bombs, due);
              && game.View() == w.(bombs := w.bombs - due)
              && AllExplosions(game.board, w, events)
              && game.turnBlocksDestroyed == cells * w.blocks
              && game.turnRobotsDestroyed == Hit(w.positions, cells)
    {
      events := [];
      ghost var w := game.View();
      ghost var gone: set<U32> := {};
      var todo := game.bombs.Keys;
      while todo != {}
        invariant todo <= w.bombs.Keys
        invariant gone == Due(w.bombs) - todo
        invariant game.View() == w.(bombs := w.bombs - gone)
        invariant ExplosionEvents(game.board, w, events) && ExplodedIds(events) == gone
        invariant game.turnBlocksDestroyed == BlastOf(game.board, w.blocks, w.bombs, gone) * w.blocks
        invariant game.turnRobotsDestroyed == Hit(w.positions, BlastOf(game.board, w.blocks, w.bombs, gone))
      {
        var id :| id in todo;
        todo := todo - {id};
        if game.bombs[id].timer == 0 {
          var event := HandleExplodingBomb(id);
          assert ExplosionEvent(game.board, w, event);
          ExplosionEventsStep(game.board, w, events, event);
          BlastOfGrows(game.board, w, gone, id);
          events := events + [event];
          game.bombs := game.bombs - {id};
          gone := gone + {id};
        }
      }
    }

    /** One player's part of the turn. */
    method ActPlayer(i: U8, slot: Slot, ghost slots: seq<Slot>) returns (events: seq<Event>)
      requires Valid() && i in game.playerPositions && i < |slots| && slots[i] == slot
      modifies this, game
      ensures Outcome(State(), events) == PlayerStep(cfg, draws, game.turnRobotsDestroyed, slots, old(State()), i)
      ensures game.turnRobotsDestroyed == old(game.turnRobotsDestroyed)
      ensures game.turnBlocksDestroyed == old(game.turnBlocksDestroyed)
    {
      if i in game.turnRobotsDestroyed {
        var pos := DrawPosition();
        game.playerPositions := game.playerPositions[i := pos];
        return [PlayerMoved(i, pos)];
      }
      if slot.updated {
        events := ApplyPlayerMove(i, slot.move);
      } else {
        events := [];
      }
    }

    method ApplyPlayerMove(i: U8, move: ClientMessage) returns (events: seq<Event>)
      requires Valid() && i in game.playerPositions
      modifies this`bombCounter, game`bombs, game`blocks, game`playerPositions
      ensures Outcome(State(), events) == MoveOutcome(cfg, old(State()), i, move)
    {
      var pos := game.playerPositions[i];
      events := [];
      match move
      case Join(_) =>
      case PlaceBomb =>
        game.bombs := InsertAbsent(game.bombs, bombCounter, Bomb(pos, cfg.bombTimer));
        events := [BombPlaced(bombCounter, pos)];
        bombCounter := if bombCounter == 0xFFFF_FFFF then 0 else bombCounter + 1;
      case PlaceBlock =>
        if pos !in game.blocks {
          game.blocks := game.blocks + {pos};
          events := [BlockPlaced(pos)];
        }
      case Move(d) =>
        var dx, dy := -1, 0;
        if d == 0 {
          dx, dy := 0, 1;
        } else if d == 1 {
          dx, dy := 1, 0;
        } else if d == 2 {
          dx, dy := 0, -1;
        }
        var legal := IsPositionLegal(pos, dx, dy);
        if legal {
          var target := Position(pos.x + dx, pos.y + dy);
          game.playerPositions := game.playerPositions[i := target];
          events := [PlayerMoved(i, target)];
        }
    }

    /** All players act, in ascending order of their ids. */
    method ActPlayers(slots: seq<Slot>) returns (events: seq<Event>)
      requires Valid() && WellFormed(cfg, game.View()) && |slots| == cfg.playersCount
      modifies this, game
      ensures Outcome(State(), events) ==
              PlayerPhase(cfg, draws, game.turnRobotsDestroyed, slots, old(State()), cfg.playersCount)
      ensures game.turnRobotsDestroyed == old(game.turnRobotsDestroyed)
      ensures game.turnBlocksDestroyed == old(game.turnBlocksDestroyed)
    {
      events := [];
      for i := 0 to |slots|
        invariant Outcome(State(), events) ==
                  PlayerPhase(cfg, draws, game.turnRobotsDestroyed, slots, old(State()), i)
        invariant game.turnRobotsDestroyed == old(game.turnRobotsDestroyed)
        invariant game.turnBlocksDestroyed == old(game.turnBlocksDestroyed)
      {
        var more := ActPlayer(i, slots[i], slots);
        events := events + more;
      }
    }

    /** The first half of a turn: timers, explosions and the erased bombs. */
    method ExplosionPhase() returns (events: seq<Event>)
      requires Valid()
      modifies game
      ensures State() == AfterExplosions(old(State()))
      ensures var w := old(game.View());
              && |events| == |Due(Ticked(w.bombs))|
              && AllExplosions(game.board, TickedWorld(w), events)
              && game.turnBlocksDestroyed == TurnBlast(game.board, w) * w.blocks
              && game.turnRobotsDestroyed == TurnHit(game.board, w)
    {
      ghost var w := game.View();
      game.turnBlocksDestroyed := {};
      game.turnRobotsDestroyed := {};
      game.DecreaseBombTimers();
      events := ExplodeDueBombs();
      ExplosionCount(game.board, TickedWorld(w), events);
    }

    /** The end of a turn: destroyed blocks, scores and the turn number. */
    method FinishTurn()
      modifies game
      ensures State() == old(State()).(world := old(game.View()).(
                turn := NextTurn(old(game.turn)),
                blocks := old(game.blocks) - old(game.turnBlocksDestroyed),
                scores := Bumped(old(game.scores), old(game.turnRobotsDestroyed))))
    {
      game.EraseDestroyedBlocks();
      game.UpdateScores();
      game.turn := if game.turn == 0xFFFF then 0 else game.turn + 1;
    }

    /** One turn: the new state is a function of the old one and of the snapshot, and the message is
        one that reports this turn. */
    method ApplyMoves(container: MoveContainer) returns (message: Turn)
      requires Valid() && WellFormed(cfg, game.View()) && |container.slots| == cfg.playersCount
      modifies this, game, container
      ensures container.slots == Cleared(old(container.slots))
      ensures State() == ServerTurn(cfg, draws, old(container.slots), old(State()))
      ensures TurnReport(cfg, draws, old(container.slots), old(State()), message)
      ensures WellFormed(cfg, game.View())
    {
      ghost var st := State();
      var moves := container.AtomicSnapshotAndClear();
      var explosions := ExplosionPhase();
      var acts := ActPlayers(moves);
      assert Outcome(State(), acts) == PlayersOutcome(cfg, draws, moves, st);
      FinishTurn();
      assert State() == ServerTurn(cfg, draws, moves, st);
      message := Turn(game.turn, explosions + acts);
      assert message.events[..|explosions|] == explosions && message.events[|explosions|..] == acts;
    }

    method GetScoreMap() returns (scores: map<U8, U32>)
      ensures scores == game.scores
    {
      scores := game.scores;
    }
  }

  lemma BlastOfGrows(b: Board, w: World, ids: set<U32>, id: U32)
    requires id in w.bombs
    ensures var cells, more := BlastOf(b, w.blocks, w.bombs, ids), Blast(b, w.blocks, w.bombs[id].position);
            && BlastOf(b, w.blocks, w.bombs, ids + {id}) == cells + more
            && (cells + more) * w.blocks == cells * w.blocks + more * w.blocks
            && Hit(w.positions, cells + more) == Hit(w.positions, cells) + Hit(w.positions, more)
  {
  }
}
