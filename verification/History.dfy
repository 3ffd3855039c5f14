/** What the state means in terms of the turns reported so far: scores count destroyed turns, blocks
    are conserved, and everything stays on the board. By replica agreement all of it holds for a
    client's world too. */
module History {
  import opened Types
  import opened Blasts
  import opened Engine
  import opened ReplicaProof

  // ---------------------------------------------------------------- reading a report

  /** The players some explosion of the report lists. */
  function HitIds(events: seq<Event>): set<U8> {
    set e, i | e in events && e.BombExploded? && i in e.robots :: i
  }

  /** The positions some explosion of the report lists. */
  function Destroyed(events: seq<Event>): set<Position> {
    set e, p | e in events && e.BombExploded? && p in e.blocks :: p
  }

  /** The positions of the BlockPlaced events, in order. */
  function Placed(events: seq<Event>): seq<Position> {
    if events == [] then []
    else
      var last := events[|events| - 1];
      Placed(events[..|events| - 1]) + if last.BlockPlaced? then [last.position] else []
  }

  /** How many PlayerMoved events the report holds for one player. */
  function MovesOf(events: seq<Event>, i: U8): nat {
    if events == [] then 0
    else
      var last := events[|events| - 1];
      MovesOf(events[..|events| - 1], i) + if last.PlayerMoved? && last.player == i then 1 else 0
  }

  lemma {:induction false} ReadConcat(a: seq<Event>, b: seq<Event>, i: U8)
    ensures Placed(a + b) == Placed(a) + Placed(b)
    ensures MovesOf(a + b, i) == MovesOf(a, i) + MovesOf(b, i)
  {
    if b == [] {
      assert a + b == a;
    } else {
      assert (a + b)[..|a + b| - 1] == a + b[..|b| - 1];
      ReadConcat(a, b[..|b| - 1], i);
    }
  }

  lemma ReadOne(e: Event, i: U8)
    ensures Placed([e]) == if e.BlockPlaced? then [e.position] else []
    ensures MovesOf([e], i) == if e.PlayerMoved? && e.player == i then 1 else 0
  {
    assert [e][..0] == [];
    assert Placed([e][..0]) == [] && MovesOf([e][..0], i) == 0;
  }

  lemma {:induction false} ExplosionsReadNothing(events: seq<Event>, i: U8)
    requires forall e :: e in events ==> e.BombExploded?
    ensures Placed(events) == [] && MovesOf(events, i) == 0
  {
    if events != [] {
      assert events[|events| - 1] in events;
      ExplosionsReadNothing(events[..|events| - 1], i);
    }
  }

  /** The explosions of a turn list exactly the players and blocks its blast strikes. */
  lemma ExplosionsRead(b: Board, w: World, events: seq<Event>)
    requires AllExplosions(b, w, events)
    ensures var cells := BlastOf(b, w.blocks, w.bombs, Due(w.bombs));
            HitIds(events) == Hit(w.positions, cells) && Destroyed(events) == cells * w.blocks
    ensures forall e :: e in events ==> e.BombExploded?
  {
    var cells := BlastOf(b, w.blocks, w.bombs, Due(w.bombs));
    forall e | e in events ensures ExplosionEvent(b, w, e) && e.id in Due(w.bombs) {
    }
    forall e | e in events
      ensures ToSet(e.robots) == Hit(w.positions, Blast(b, w.blocks, w.bombs[e.id].position))
    {
      assert ExplosionEvent(b, w, e);
      KeysFromIsAscending(Hit(w.positions, Blast(b, w.blocks, w.bombs[e.id].position)), 0);
    }
    forall i | i in HitIds(events) ensures i in Hit(w.positions, cells) {
      var e :| e in events && e.BombExploded? && i in e.robots;
      assert i in ToSet(e.robots);
    }
    forall i | i in Hit(w.positions, cells) ensures i in HitIds(events) {
      var id :| id in Due(w.bombs) && w.positions[i] in Blast(b, w.blocks, w.bombs[id].position);
      var e := ReporterOf(b, w, events, id);
      assert i in ToSet(e.robots);
    }
    forall p | p in Destroyed(events) ensures p in cells * w.blocks {
      var e :| e in events && e.BombExploded? && p in e.blocks;
      assert ExplosionEvent(b, w, e) && p in ToSet(e.blocks);
    }
    forall p | p in cells * w.blocks ensures p in Destroyed(events) {
      var id :| id in Due(w.bombs) && p in Blast(b, w.blocks, w.bombs[id].position);
      var e := ReporterOf(b, w, events, id);
      assert ExplosionEvent(b, w, e) && p in ToSet(e.blocks);
    }
  }

  lemma ReporterOf(b: Board, w: World, events: seq<Event>, id: U32) returns (e: Event)
    requires AllExplosions(b, w, events) && id in Due(w.bombs)
    ensures e in events && e.BombExploded? && e.id == id && ExplosionEvent(b, w, e)
  {
    assert id in ExplodedIds(events);
    var k :| 0 <= k < |events| && events[k].BombExploded? && events[k].id == id;
    e := events[k];
  }

  // ---------------------------------------------------------------- the players' moves

  /** A player's own part of a turn moves no other player, and moves it at most once. */
  lemma StepReads(cfg: Settings, draws: Draws, hit: set<U8>, slots: seq<Slot>, st: ServerState, j: U8, i: U8)
    requires cfg.Playable() && j < |slots| && j in st.world.positions
    ensures var o := PlayerStep(cfg, draws, hit, slots, st, j);
            && (j != i ==> MovesOf(o.events, i) == 0)
            && MovesOf(o.events, i) <= 1 && (j == i && i in hit ==> MovesOf(o.events, i) == 1)
            && Placed(o.events) == (if o.state.world.blocks == st.world.blocks then [] else [st.world.positions[j]])
            && o.state.world.blocks == st.world.blocks + ToSet(Placed(o.events))
            && (forall p :: p in Placed(o.events) ==> p !in st.world.blocks)
  {
    var o := PlayerStep(cfg, draws, hit, slots, st, j);
    if o.events != [] {
      assert o.events == [o.events[0]];
      ReadOne(o.events[0], i);
    }
  }

  /** What the players' moves report: one PlayerMoved for a destroyed player, at most one for the
      others, and BlockPlaced for exactly the new blocks, each once. */
  ghost predicate MovesRead(was: set<Position>, now: set<Position>, hit: set<U8>, n: nat, i: U8, events: seq<Event>) {
    && MovesOf(events, i) <= 1
    && (i >= n ==> MovesOf(events, i) == 0) && (i < n && i in hit ==> MovesOf(events, i) == 1)
    && Distinct(Placed(events)) && now == was + ToSet(Placed(events)) && was !! ToSet(Placed(events))
  }

  lemma MovesReadMore(
    was: set<Position>, mid: set<Position>, now: set<Position>, hit: set<U8>, n: nat, i: U8, a: seq<Event>, b: seq<Event>)
    requires MovesRead(was, mid, hit, n, i, a)
    requires (n != i ==> MovesOf(b, i) == 0) && MovesOf(b, i) <= 1 && (n == i && i in hit ==> MovesOf(b, i) == 1)
    requires |Placed(b)| <= 1 && now == mid + ToSet(Placed(b)) && forall p :: p in Placed(b) ==> p !in mid
    ensures MovesRead(was, now, hit, n + 1, i, a + b)
  {
    hide Placed, MovesOf;
    ReadConcat(a, b, i);
    assert ToSet(Placed(a) + Placed(b)) == ToSet(Placed(a)) + ToSet(Placed(b));
    if Placed(b) != [] {
      var p := Placed(b)[0];
      assert Placed(b) == [p] && p in Placed(b);
      assert p !in ToSet(Placed(a));
    }
  }

  lemma {:induction false} PhaseReads(cfg: Settings, draws: Draws, hit: set<U8>, slots: seq<Slot>, st: ServerState, n: nat, i: U8)
    requires cfg.Playable() && n <= |slots| && n <= 0x100 && Ids(n) <= st.world.positions.Keys
    ensures var o := PlayerPhase(cfg, draws, hit, slots, st, n);
            MovesRead(st.world.blocks, o.state.world.blocks, hit, n, i, o.events)
  {
    if n > 0 {
      PhaseReads(cfg, draws, hit, slots, st, n - 1, i);
      var o := PlayerPhase(cfg, draws, hit, slots, st, n - 1);
      StepReads(cfg, draws, hit, slots, o.state, n - 1, i);
      var p := PlayerStep(cfg, draws, hit, slots, o.state, n - 1);
      MovesReadMore(st.world.blocks, o.state.world.blocks, p.state.world.blocks, hit, n - 1, i, o.events, p.events);
    }
  }

  /** One turn, read from its report. */
  lemma TurnReads(cfg: Settings, draws: Draws, slots: seq<Slot>, st: ServerState, turn: Turn, i: U8)
    requires cfg.Playable() && WellFormed(cfg, st.world) && |slots| == cfg.playersCount
    requires TurnReport(cfg, draws, slots, st, turn)
    ensures var next := ServerTurn(cfg, draws, slots, st).world;
            && HitIds(turn.events) == TurnHit(BoardOf(cfg), st.world)
            && MovesOf(turn.events, i) <= 1 && (i in HitIds(turn.events) ==> MovesOf(turn.events, i) == 1)
            && Destroyed(turn.events) <= st.world.blocks
            && Distinct(Placed(turn.events)) && st.world.blocks !! ToSet(Placed(turn.events))
            && next.blocks == st.world.blocks + ToSet(Placed(turn.events)) - Destroyed(turn.events)
            && next.scores == Bumped(st.world.scores, HitIds(turn.events))
            && next.turn == NextTurn(st.world.turn)
  {
    PhaseReads(cfg, draws, TurnHit(BoardOf(cfg), st.world), slots, AfterExplosions(st), cfg.playersCount, i);
    PhaseReportsNoExplosions(cfg, draws, TurnHit(BoardOf(cfg), st.world), slots, AfterExplosions(st), cfg.playersCount);
    ReportReads(cfg, draws, slots, st, turn, i);
  }

  lemma TurnBlastRead(b: Board, w: World, events: seq<Event>)
    requires AllExplosions(b, TickedWorld(w), events)
    ensures HitIds(events) == TurnHit(b, w) && Destroyed(events) == TurnBlast(b, w) * w.blocks
    ensures forall e :: e in events ==> e.BombExploded?
  {
    ExplosionsRead(b, TickedWorld(w), events);
  }

  /** The report of a turn shows its blast, and its players' moves as if there were no explosions. */
  lemma ReportReads(cfg: Settings, draws: Draws, slots: seq<Slot>, st: ServerState, turn: Turn, i: U8)
    requires cfg.Playable() && WellFormed(cfg, st.world) && |slots| == cfg.playersCount
    requires TurnReport(cfg, draws, slots, st, turn)
    requires NoExplosions(PlayersOutcome(cfg, draws, slots, st).events)
    ensures var rest := PlayersOutcome(cfg, draws, slots, st).events;
            && HitIds(turn.events) == TurnHit(BoardOf(cfg), st.world)
            && Destroyed(turn.events) == TurnBlast(BoardOf(cfg), st.world) * st.world.blocks
            && Placed(turn.events) == Placed(rest) && MovesOf(turn.events, i) == MovesOf(rest, i)
  {
    var d := |Due(Ticked(st.world.bombs))|;
    SplitReads(BoardOf(cfg), st.world, turn.events, d, i);
  }

  lemma SplitReads(b: Board, w: World, events: seq<Event>, d: nat, i: U8)
    requires d <= |events| && AllExplosions(b, TickedWorld(w), events[..d])
    requires NoExplosions(events[d..])
    ensures HitIds(events) == TurnHit(b, w) && Destroyed(events) == TurnBlast(b, w) * w.blocks
    ensures Placed(events) == Placed(events[d..]) && MovesOf(events, i) == MovesOf(events[d..], i)
  {
    assert events == events[..d] + events[d..];
    TurnBlastRead(b, w, events[..d]);
    ReportSplits(events[..d], events[d..], i);
  }

  /** Only the explosions of a report list players and blocks, only the rest moves and places. */
  lemma ReportSplits(a: seq<Event>, c: seq<Event>, i: U8)
    requires forall e :: e in a ==> e.BombExploded?
    requires NoExplosions(c)
    ensures HitIds(a + c) == HitIds(a) && Destroyed(a + c) == Destroyed(a)
    ensures Placed(a + c) == Placed(c) && MovesOf(a + c, i) == MovesOf(c, i)
  {
    ExplosionsReadNothing(a, i);
    ReadConcat(a, c, i);
    assert [] + Placed(c) == Placed(c);
  }

  // ---------------------------------------------------------------- scores

  /** In how many of the turns 1..k some explosion listed the player. */
  function TurnsHit(turns: seq<Turn>, k: nat, i: U8): nat
    requires k < |turns|
  {
    if k == 0 then 0 else TurnsHit(turns, k - 1, i) + if i in HitIds(turns[k].events) then 1 else 0
  }

  lemma {:induction false} TurnNumbers(cfg: Settings, draws: Draws, tr: Trace, k: nat)
    requires cfg.Playable() && ValidTrace(cfg, draws, tr) && k < |tr.turns|
    ensures tr.states[k].world.turn == k && tr.turns[k].turn == k
    ensures WellFormed(cfg, tr.states[k].world)
  {
    if k == 0 {
      InitState(cfg, draws);
    } else {
      TurnNumbers(cfg, draws, tr, k - 1);
      TurnNumberStep(cfg, draws, tr, k);
    }
  }

  lemma TurnNumberStep(cfg: Settings, draws: Draws, tr: Trace, k: nat)
    requires cfg.Playable() && ValidTrace(cfg, draws, tr) && 0 < k < |tr.turns|
    ensures tr.states[k].world.turn == tr.turns[k].turn == NextTurn(tr.states[k - 1].world.turn)
    ensures WellFormed(cfg, tr.states[k].world)
  {
    hide PlayersOutcome, AllExplosions, TurnBlast, GameInit;
    assert StepAt(cfg, draws, tr, k - 1);
  }

  /** A score is the number of turns in which the player was destroyed, one per turn however many
      bombs hit, so it never exceeds the turn number; each such turn moves the player exactly once. */
  lemma {:induction false} ScoreMeaning(cfg: Settings, draws: Draws, tr: Trace, k: nat, i: U8)
    requires cfg.Playable() && ValidTrace(cfg, draws, tr) && k < |tr.turns| && i < cfg.playersCount
    ensures i in tr.states[k].world.scores && tr.states[k].world.scores[i] == TurnsHit(tr.turns, k, i) <= k <= 0xFFFF
    ensures k > 0 && i in HitIds(tr.turns[k].events) ==> MovesOf(tr.turns[k].events, i) == 1
  {
    TurnNumbers(cfg, draws, tr, k);
    if k == 0 {
      InitState(cfg, draws);
    } else {
      ScoreMeaning(cfg, draws, tr, k - 1, i);
      ScoreStep(cfg, draws, tr, k, i);
    }
  }

  lemma ScoreStep(cfg: Settings, draws: Draws, tr: Trace, k: nat, i: U8)
    requires cfg.Playable() && ValidTrace(cfg, draws, tr) && 0 < k < |tr.turns|
    requires i in tr.states[k - 1].world.scores
    ensures var hit := i in HitIds(tr.turns[k].events);
            && i in tr.states[k].world.scores
            && tr.states[k].world.scores[i] ==
               (if hit then Inc(tr.states[k - 1].world.scores[i]) else tr.states[k - 1].world.scores[i])
            && (hit ==> MovesOf(tr.turns[k].events, i) == 1)
  {
    assert StepAt(cfg, draws, tr, k - 1);
    TurnReads(cfg, draws, tr.snaps[k - 1], tr.states[k - 1], tr.turns[k], i);
  }

  // ---------------------------------------------------------------- blocks

  /** The blocks gained minus the blocks lost in turns 1..k, as the messages tell it. */
  function NetBlocks(turns: seq<Turn>, k: nat): int
    requires k < |turns|
  {
    if k == 0 then 0
    else NetBlocks(turns, k - 1) + |Placed(turns[k].events)| - |Destroyed(turns[k].events)|
  }

  lemma CountBlocks(blocks: set<Position>, placed: seq<Position>, gone: set<Position>)
    requires Distinct(placed) && blocks !! ToSet(placed) && gone <= blocks
    ensures |blocks + ToSet(placed) - gone| == |blocks| + |placed| - |gone|
  {
    DistinctSize(placed);
    var all := blocks + ToSet(placed);
    assert |all| == |blocks| + |placed|;
    assert all == (all - gone) + gone;
  }

  lemma ReadAppend(events: seq<Event>, e: Event)
    ensures Placed(events + [e]) == Placed(events) + if e.BlockPlaced? then [e.position] else []
  {
    assert (events + [e])[..|events|] == events;
  }

  lemma {:induction false} InitBlocksRead(cfg: Settings, draws: Draws, n: nat)
    requires cfg.Playable()
    ensures var o := InitBlocks(cfg, draws, n);
            o.state.world.blocks == ToSet(Placed(o.events))
  {
    hide RandomPosition, Placed, InitPlayers;
    if n > 0 {
      InitBlocksRead(cfg, draws, n - 1);
      var o := InitBlocks(cfg, draws, n - 1);
      var pos := RandomPosition(cfg, draws, o.state.cursor);
      ReadAppend(o.events, BlockPlaced(pos));
      assert ToSet(Placed(o.events) + [pos]) == ToSet(Placed(o.events)) + {pos};
    } else {
      InitPlayersRead(cfg, draws);
    }
  }

  lemma InitPlayersRead(cfg: Settings, draws: Draws)
    requires cfg.Playable()
    ensures var o := InitPlayers(cfg, draws, cfg.playersCount); o.state.world.blocks == {} && Placed(o.events) == []
  {
    InitPlayersShape(cfg, draws, cfg.playersCount);
    var holds := (k: int, o: Outcome) => Placed(o.events) == [];
    forall k: U8, o: Outcome | k < cfg.playersCount && holds(k, o)
      ensures var p := Respawn(cfg, draws, o.state, k); holds(k + 1, Outcome(p.state, o.events + p.events))
    {
      ReadAppend(o.events, Respawn(cfg, draws, o.state, k).events[0]);
    }
    InitInduction(holds, cfg, draws, cfg.playersCount);
    assert holds(cfg.playersCount, InitPlayers(cfg, draws, cfg.playersCount));
  }

  lemma StartBlocks(cfg: Settings, draws: Draws)
    requires cfg.Playable()
    ensures GameInit(cfg, draws).state.world.blocks == ToSet(Placed(GameInit(cfg, draws).events))
  {
    InitBlocksRead(cfg, draws, cfg.initialBlocks);
  }

  /** Block conservation: the number of blocks after turn k is the number of distinct initial blocks
      plus every BlockPlaced event minus every distinct destroyed position of the later turns. */
  lemma {:induction false} BlockConservation(cfg: Settings, draws: Draws, tr: Trace, k: nat)
    requires cfg.Playable() && ValidTrace(cfg, draws, tr) && k < |tr.turns|
    ensures |tr.states[k].world.blocks| == |ToSet(Placed(tr.turns[0].events))| + NetBlocks(tr.turns, k)
    ensures k > 0 ==> Destroyed(tr.turns[k].events) <= tr.states[k - 1].world.blocks
    ensures k > 0 ==> Destroyed(tr.turns[k].events) !! ToSet(Placed(tr.turns[k].events))
  {
    hide TurnReport, ServerTurn, Destroyed, Placed, GameInit, MovesOf, HitIds;
    if k == 0 {
      StartBlocks(cfg, draws);
    } else {
      BlockConservation(cfg, draws, tr, k - 1);
      assert StepAt(cfg, draws, tr, k - 1);
      TurnReads(cfg, draws, tr.snaps[k - 1], tr.states[k - 1], tr.turns[k], 0);
      CountBlocks(tr.states[k - 1].world.blocks, Placed(tr.turns[k].events), Destroyed(tr.turns[k].events));
    }
  }

  // ---------------------------------------------------------------- the board

  ghost predicate AllOnBoard(b: Board, w: World) {
    && (forall i :: i in w.positions ==> OnBoard(b, w.positions[i]))
    && (forall p :: p in w.blocks ==> OnBoard(b, p))
    && (forall id :: id in w.bombs ==> OnBoard(b, w.bombs[id].position))
  }

  /** The guard of a move says exactly that the neighbouring cell exists and is free. */
  lemma LegalMoveMeaning(cfg: Settings, blocks: set<Position>, pos: Position, dx: int, dy: int)
    requires UnitStep(dx, dy) && OnBoard(BoardOf(cfg), pos)
    ensures LegalMove(cfg, blocks, pos, dx, dy) <==>
            exists target :: OnBoard(BoardOf(cfg), target) && target !in blocks && Distance(pos, target) == 1
                             && Sign(target.x - pos.x) == dx && Sign(target.y - pos.y) == dy
  {
    if LegalMove(cfg, blocks, pos, dx, dy) {
      var target := Position(pos.x + dx, pos.y + dy);
      assert OnBoard(BoardOf(cfg), target);
    }
    if target :| OnBoard(BoardOf(cfg), target) && target !in blocks && Distance(pos, target) == 1
                 && Sign(target.x - pos.x) == dx && Sign(target.y - pos.y) == dy {
      assert target == Position(pos.x + dx, pos.y + dy);
    }
  }

  lemma RandomOnBoard(cfg: Settings, draws: Draws, cursor: nat)
    requires cfg.Playable()
    ensures OnBoard(BoardOf(cfg), RandomPosition(cfg, draws, cursor))
  {
  }

  lemma StepOnBoard(cfg: Settings, draws: Draws, hit: set<U8>, slots: seq<Slot>, st: ServerState, i: U8)
    requires cfg.Playable() && i < |slots| && i in st.world.positions && AllOnBoard(BoardOf(cfg), st.world)
    ensures AllOnBoard(BoardOf(cfg), PlayerStep(cfg, draws, hit, slots, st, i).state.world)
  {
    RandomOnBoard(cfg, draws, st.cursor);
  }

  /** Whatever every single player's step keeps, the whole player phase keeps. */
  lemma {:induction false} PhaseKeeps(
    keeps: ServerState -> bool, cfg: Settings, draws: Draws, hit: set<U8>, slots: seq<Slot>, st: ServerState, n: nat)
    requires cfg.Playable() && n <= |slots| && n <= 0x100 && Ids(n) <= st.world.positions.Keys
    requires keeps(st)
    requires forall s: ServerState, i: U8 {:trigger PlayerStep(cfg, draws, hit, slots, s, i)} ::
               i < |slots| && i in s.world.positions && keeps(s) ==> keeps(PlayerStep(cfg, draws, hit, slots, s, i).state)
    ensures keeps(PlayerPhase(cfg, draws, hit, slots, st, n).state)
  {
    if n > 0 {
      PhaseKeeps(keeps, cfg, draws, hit, slots, st, n - 1);
      var s, i: U8 := PlayerPhase(cfg, draws, hit, slots, st, n - 1).state, n - 1;
      assert keeps(PlayerStep(cfg, draws, hit, slots, s, i).state);
    }
  }

  lemma PhaseOnBoard(cfg: Settings, draws: Draws, hit: set<U8>, slots: seq<Slot>, st: ServerState, n: nat)
    requires cfg.Playable() && n <= |slots| && n <= 0x100 && Ids(n) <= st.world.positions.Keys
    requires AllOnBoard(BoardOf(cfg), st.world)
    ensures AllOnBoard(BoardOf(cfg), PlayerPhase(cfg, draws, hit, slots, st, n).state.world)
  {
    var keeps := (s: ServerState) => AllOnBoard(BoardOf(cfg), s.world);
    forall s: ServerState, i: U8 | i < |slots| && i in s.world.positions && keeps(s)
      ensures keeps(PlayerStep(cfg, draws, hit, slots, s, i).state)
    {
      StepOnBoard(cfg, draws, hit, slots, s, i);
    }
    PhaseKeeps(keeps, cfg, draws, hit, slots, st, n);
  }

  lemma {:induction false} InitOnBoard(cfg: Settings, draws: Draws, n: nat)
    requires cfg.Playable()
    ensures AllOnBoard(BoardOf(cfg), InitBlocks(cfg, draws, n).state.world)
  {
    if n > 0 {
      InitOnBoard(cfg, draws, n - 1);
      RandomOnBoard(cfg, draws, InitBlocks(cfg, draws, n - 1).state.cursor);
    } else {
      InitPlayersOnBoard(cfg, draws, cfg.playersCount);
    }
  }

  lemma {:induction false} InitPlayersOnBoard(cfg: Settings, draws: Draws, n: nat)
    requires cfg.Playable() && n <= cfg.playersCount
    ensures AllOnBoard(BoardOf(cfg), InitPlayers(cfg, draws, n).state.world)
  {
    if n > 0 {
      InitPlayersOnBoard(cfg, draws, n - 1);
      RandomOnBoard(cfg, draws, InitPlayers(cfg, draws, n - 1).state.cursor);
    }
  }

  lemma StartOnBoard(cfg: Settings, draws: Draws)
    requires cfg.Playable()
    ensures AllOnBoard(BoardOf(cfg), GameInit(cfg, draws).state.world)
  {
    hide AllOnBoard, InitBlocks;
    InitOnBoard(cfg, draws, cfg.initialBlocks);
  }

  lemma TurnOnBoard(cfg: Settings, draws: Draws, slots: seq<Slot>, st: ServerState)
    requires cfg.Playable() && WellFormed(cfg, st.world) && |slots| == cfg.playersCount
    requires AllOnBoard(BoardOf(cfg), st.world)
    ensures AllOnBoard(BoardOf(cfg), ServerTurn(cfg, draws, slots, st).world)
  {
    hide PlayerPhase, TurnBlast, TurnHit;
    PhaseOnBoard(cfg, draws, TurnHit(BoardOf(cfg), st.world), slots, AfterExplosions(st), cfg.playersCount);
  }

  /** Board invariant: after every turn all players, blocks and bombs lie on the board. */
  lemma {:induction false} BoardInvariant(cfg: Settings, draws: Draws, tr: Trace, k: nat)
    requires cfg.Playable() && ValidTrace(cfg, draws, tr) && k < |tr.turns|
    ensures AllOnBoard(BoardOf(cfg), tr.states[k].world)
  {
    hide TurnReport, ServerTurn, AllOnBoard, GameInit;
    if k == 0 {
      StartOnBoard(cfg, draws);
    } else {
      BoardInvariant(cfg, draws, tr, k - 1);
      assert StepAt(cfg, draws, tr, k - 1);
      TurnOnBoard(cfg, draws, tr.snaps[k - 1], tr.states[k - 1]);
    }
  }

  // ---------------------------------------------------------------- what a client makes of any report

  predicate Moves(e: Event, i: U8) {
    e.PlayerMoved? && e.player == i
  }

  /** The last move the report holds for player i, if any, put him on p; otherwise he stays on `was`. */
  ghost predicate LastMove(events: seq<Event>, i: U8, was: Position, p: Position) {
    if exists e :: e in events && Moves(e, i) then
      exists j :: 0 <= j < |events| && events[j] == PlayerMoved(i, p) && forall x :: j < x < |events| ==> !Moves(events[x], i)
    else p == was
  }

  predicate About(e: Event, id: U32) {
    (e.BombPlaced? || e.BombExploded?) && e.id == id
  }

  /** A bomb is live exactly if the last event about it placed it, or none spoke of it and it was live. */
  ghost predicate LastBomb(events: seq<Event>, id: U32, was: bool, live: bool) {
    if exists e :: e in events && About(e, id) then
      exists j :: 0 <= j < |events| && About(events[j], id) && live == events[j].BombPlaced?
                  && forall x :: j < x < |events| ==> !About(events[x], id)
    else live == was
  }

  /** What replaying a list of events has made of the replica r. */
  ghost predicate Replayed(r: Replica, events: seq<Event>, now: Replica) {
    && now.world.turn == r.world.turn && now.world.scores == r.world.scores
    && now.world.blocks == r.world.blocks + ToSet(Placed(events))
    && now.robots == r.robots + HitIds(events) && now.gone == r.gone + Destroyed(events)
    && now.world.positions.Keys == r.world.positions.Keys
    && (forall i :: i in r.world.positions ==> LastMove(events, i, r.world.positions[i], now.world.positions[i]))
    && (forall id: U32 :: LastBomb(events, id, id in r.world.bombs, id in now.world.bombs))
  }

  lemma HitsOneMore(events: seq<Event>, e: Event)
    ensures HitIds(events + [e]) == HitIds(events) + if e.BombExploded? then ToSet(e.robots) else {}
  {
    var all := events + [e];
    assert all[|events|] == e;
    assert forall x :: x in all <==> x in events || x == e;
  }

  lemma DestroyedOneMore(events: seq<Event>, e: Event)
    ensures Destroyed(events + [e]) == Destroyed(events) + if e.BombExploded? then ToSet(e.blocks) else {}
  {
    var all := events + [e];
    assert all[|events|] == e;
    assert forall x :: x in all <==> x in events || x == e;
  }

  lemma PlacedOneMore(events: seq<Event>, e: Event)
    ensures ToSet(Placed(events + [e])) == ToSet(Placed(events)) + if e.BlockPlaced? then {e.position} else {}
  {
    hide Placed;
    ReadAppend(events, e);
    var more := if e.BlockPlaced? then [e.position] else [];
    assert forall p :: p in Placed(events) + more <==> p in Placed(events) || p in more;
  }

  lemma LastMoveNext(events: seq<Event>, e: Event, i: U8, was: Position, p: Position, q: Position)
    requires LastMove(events, i, was, p) && q == if Moves(e, i) then e.position else p
    ensures LastMove(events + [e], i, was, q)
  {
    var all := events + [e];
    if Moves(e, i) {
      assert all[|events|] == PlayerMoved(i, q) && e in all;
    } else if x :| x in events && Moves(x, i) {
      assert x in all;
      var j :| 0 <= j < |events| && events[j] == PlayerMoved(i, p) && forall y :: j < y < |events| ==> !Moves(events[y], i);
      assert all[j] == PlayerMoved(i, q);
    } else {
      assert forall x :: x in all ==> x in events || x == e;
    }
  }

  lemma LastBombNext(events: seq<Event>, e: Event, id: U32, was: bool, live: bool, now: bool)
    requires LastBomb(events, id, was, live) && now == if About(e, id) then e.BombPlaced? else live
    ensures LastBomb(events + [e], id, was, now)
  {
    var all := events + [e];
    if About(e, id) {
      assert About(all[|events|], id) && e in all;
    } else if x :| x in events && About(x, id) {
      assert x in all;
      var j :| 0 <= j < |events| && About(events[j], id) && live == events[j].BombPlaced?
               && forall y :: j < y < |events| ==> !About(events[y], id);
      assert About(all[j], id);
    } else {
      assert forall x :: x in all ==> x in events || x == e;
    }
  }

  lemma ReplayedNext(h: Hello, r: Replica, events: seq<Event>, e: Event, mid: Replica)
    requires Replayed(r, events, mid)
    ensures Replayed(r, events + [e], ApplyEvent(h, mid, e))
  {
    hide HitIds, Destroyed, Placed, LastMove, LastBomb, Blast;
    var now := ApplyEvent(h, mid, e);
    HitsOneMore(events, e);
    DestroyedOneMore(events, e);
    PlacedOneMore(events, e);
    forall i | i in r.world.positions
      ensures LastMove(events + [e], i, r.world.positions[i], now.world.positions[i])
    {
      LastMoveNext(events, e, i, r.world.positions[i], mid.world.positions[i], now.world.positions[i]);
    }
    forall id: U32 ensures LastBomb(events + [e], id, id in r.world.bombs, id in now.world.bombs) {
      LastBombNext(events, e, id, id in r.world.bombs, id in mid.world.bombs, id in now.world.bombs);
    }
  }

  lemma {:induction false} EventsReplayed(h: Hello, r: Replica, events: seq<Event>)
    ensures Replayed(r, events, ApplyEvents(h, r, events))
  {
    hide ApplyEvent;
    if events == [] {
      assert HitIds(events) == {} && Destroyed(events) == {};
      hide HitIds, Destroyed;
    } else {
      var front, e := events[..|events| - 1], events[|events| - 1];
      EventsReplayed(h, r, front);
      ReplayedNext(h, r, front, e, ApplyEvents(h, r, front));
      assert front + [e] == events;
    }
  }

  /** What a client makes of any turn message, from its own server or not: where the players end, which
      blocks stand, who scored, and which bombs are live. Players it does not know are ignored. */
  lemma ReplayMeaning(h: Hello, r: Replica, turn: Turn)
    ensures var was, now, events := r.world, ApplyTurn(h, r, turn).world, turn.events;
            && now.turn == turn.turn
            && now.blocks == was.blocks + ToSet(Placed(events)) - Destroyed(events)
            && now.scores.Keys == was.scores.Keys
            && (forall i :: i in was.scores ==>
                  now.scores[i] == if i !in HitIds(events) then was.scores[i]
                                   else if was.scores[i] == 0xFFFF_FFFF then 0 else was.scores[i] + 1)
            && now.positions.Keys == was.positions.Keys
            && (forall i :: i in was.positions ==> LastMove(events, i, was.positions[i], now.positions[i]))
            && (forall id: U32 :: LastBomb(events, id, id in was.bombs, id in now.bombs))
  {
    hide HitIds, Destroyed, Placed, LastMove, LastBomb, ApplyEvents;
    EventsReplayed(h, StartTurn(r, turn.turn), turn.events);
  }
}
