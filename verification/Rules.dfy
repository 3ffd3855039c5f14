/** The rules of a turn, spelled out cell by cell and event by event: where every player goes and why,
    what is drawn from the random numbers, what is built and placed, and what an explosion strikes. */
module Rules {
  import opened Types
  import opened Blasts
  import opened Engine
  import opened ReplicaProof
  import opened Fuses
  import opened History

  // ---------------------------------------------------------------- the rules

  /** Player i was not destroyed in the turn, and the snapshot holds a fresh message of his. */
  predicate Asks(snap: seq<Slot>, hit: set<U8>, i: U8, m: ClientMessage) {
    i < |snap| && i !in hit && snap[i] == Slot(true, m)
  }

  /** The players who place a bomb. */
  function Bombers(snap: seq<Slot>, hit: set<U8>): set<U8> {
    set i: U8 | IsBelow(i, |snap|) && Asks(snap, hit, i, PlaceBomb)
  }

  /** The players who want to place a block. */
  function Builders(snap: seq<Slot>, hit: set<U8>): set<U8> {
    set i: U8 | IsBelow(i, |snap|) && Asks(snap, hit, i, PlaceBlock)
  }

  /** Those of the players who act before the n-th. */
  function Smaller(ids: set<U8>, n: nat): set<U8> {
    set i | i in ids && i < n
  }

  /** The blocks player n meets: those that stood when the turn began, and the cells of the players
      before him who want to place one. */
  function Seen(w: World, snap: seq<Slot>, hit: set<U8>, n: nat): set<Position> {
    w.blocks + set i | i in Smaller(Builders(snap, hit), n) && i in w.positions :: w.positions[i]
  }

  /** q is the cell next to p in the given direction: 0 above, 1 right, 2 below, anything else left. */
  predicate Neighbour(d: U8, p: Position, q: Position) {
    if d == 0 then q.x == p.x && q.y == p.y + 1
    else if d == 1 then q.x == p.x + 1 && q.y == p.y
    else if d == 2 then q.x == p.x && q.y + 1 == p.y
    else q.x + 1 == p.x && q.y == p.y
  }

  /** The neighbouring cell lies on the board and is not blocked. */
  predicate Free(cfg: Settings, seen: set<Position>, q: Position) {
    q.x < cfg.sizeX && q.y < cfg.sizeY && q !in seen
  }

  /** In a turn that began in state st and destroyed the players hit, player i ends on the cell `now`
      and the message reports his part as `report`. */
  ghost predicate Acts(
    cfg: Settings, draws: Draws, st: ServerState, snap: seq<Slot>, hit: set<U8>, i: U8, now: Position, report: seq<Event>)
    requires cfg.Playable() && i < |snap| && i in st.world.positions
  {
    var pos, seen := st.world.positions[i], Seen(st.world, snap, hit, i);
    if i in hit then
      var c := st.cursor + 2 * |Smaller(hit, i)|;
      && now == Position(draws(c) % cfg.sizeX, draws(c + 1) % cfg.sizeY)
      && report == [PlayerMoved(i, now)]
    else if !snap[i].updated then now == pos && report == []
    else match snap[i].move
      case Join(_) => now == pos && report == []
      case PlaceBomb =>
        var id := st.bombCounter + |Smaller(Bombers(snap, hit), i)|;
        now == pos && id <= 0xFFFF_FFFF && report == [BombPlaced(id, pos)]
      case PlaceBlock => now == pos && report == if pos in seen then [] else [BlockPlaced(pos)]
      case Move(d) =>
        && (forall q :: Neighbour(d, pos, q) && Free(cfg, seen, q) ==> now == q && report == [PlayerMoved(i, q)])
        && ((forall q :: Neighbour(d, pos, q) ==> !Free(cfg, seen, q)) ==> now == pos && report == [])
  }

  /** The reports of the players, one after the other. */
  function Flat(reports: seq<seq<Event>>): seq<Event> {
    if reports == [] then [] else Flat(reports[..|reports| - 1]) + reports[|reports| - 1]
  }

  // ---------------------------------------------------------------- the players act

  /** What the first n players have made of the state st. */
  ghost predicate Done(cfg: Settings, st: ServerState, snap: seq<Slot>, hit: set<U8>, n: nat, now: ServerState) {
    && now.world.positions.Keys == st.world.positions.Keys
    && (forall i :: i in st.world.positions && i >= n ==> now.world.positions[i] == st.world.positions[i])
    && now.world.blocks == Seen(st.world, snap, hit, n)
    && now.cursor == st.cursor + 2 * |Smaller(hit, n)|
    && now.bombCounter == st.bombCounter + |Smaller(Bombers(snap, hit), n)|
    && BombsDone(cfg, st, snap, hit, n, now)
  }

  ghost predicate BombsDone(cfg: Settings, st: ServerState, snap: seq<Slot>, hit: set<U8>, n: nat, now: ServerState) {
    && Issued(st.world.bombs, now.world.bombs, st.bombCounter, now.bombCounter)
    && (forall i :: i in Smaller(Bombers(snap, hit), n) ==> BombOf(cfg, st, snap, hit, now.world.bombs, i))
  }

  /** The bombs `now` are those of before and new ones with the ids lo..hi-1. */
  ghost predicate Issued(was: map<U32, Bomb>, now: map<U32, Bomb>, lo: int, hi: int) {
    && (forall id :: id in now <==> id in was || lo <= id < hi)
    && (forall id :: id in was ==> now[id] == was[id])
  }

  lemma IssuedNext(was: map<U32, Bomb>, mid: map<U32, Bomb>, lo: nat, c: U32, bomb: Bomb)
    requires Issued(was, mid, lo, c) && lo <= c && forall id :: id in was ==> id < lo
    ensures var now := InsertAbsent(mid, c, bomb);
            && Issued(was, now, lo, c + 1) && c in now && now[c] == bomb
            && forall id :: id in mid ==> id in now && now[id] == mid[id]
  {
  }

  /** Bomber i's bomb has the next id after those of the bombers before him, lies on his cell and has a full fuse. */
  predicate BombOf(cfg: Settings, st: ServerState, snap: seq<Slot>, hit: set<U8>, bombs: map<U32, Bomb>, i: U8) {
    var id := st.bombCounter + |Smaller(Bombers(snap, hit), i)|;
    && i in st.world.positions && id <= 0xFFFF_FFFF
    && id in bombs && bombs[id] == Bomb(st.world.positions[i], cfg.bombTimer)
  }

  lemma SmallerNext(ids: set<U8>, n: U8)
    ensures Smaller(ids, n + 1) == Smaller(ids, n) + if n in ids then {n} else {}
    ensures |Smaller(ids, n + 1)| == |Smaller(ids, n)| + if n in ids then 1 else 0
  {
    assert Smaller(ids, n + 1) == Smaller(ids, n) + if n in ids then {n} else {};
  }

  lemma SeenNext(w: World, snap: seq<Slot>, hit: set<U8>, n: U8)
    requires n in w.positions
    ensures Seen(w, snap, hit, n + 1) == Seen(w, snap, hit, n) + if n in Builders(snap, hit) then {w.positions[n]} else {}
  {
    SmallerNext(Builders(snap, hit), n);
  }

  lemma NothingDone(cfg: Settings, st: ServerState, snap: seq<Slot>, hit: set<U8>)
    ensures Done(cfg, st, snap, hit, 0, st)
  {
    assert Smaller(hit, 0) == {} && Smaller(Bombers(snap, hit), 0) == {} && Smaller(Builders(snap, hit), 0) == {};
  }

  /** One player's step in terms of the state it finds. */
  lemma StepIs(cfg: Settings, draws: Draws, hit: set<U8>, snap: seq<Slot>, mid: ServerState, i: U8)
    requires cfg.Playable() && i < |snap| && i in mid.world.positions
    ensures var o := PlayerStep(cfg, draws, hit, snap, mid, i);
            var w, now := mid.world, o.state.world;
            && now.positions == w.positions[i := now.positions[i]]
            && now.blocks == (if i in Builders(snap, hit) then w.blocks + {w.positions[i]} else w.blocks)
            && o.state.cursor == mid.cursor + (if i in hit then 2 else 0)
            && (if i in Bombers(snap, hit)
                then now.bombs == InsertAbsent(w.bombs, mid.bombCounter, Bomb(w.positions[i], cfg.bombTimer))
                     && o.state.bombCounter == Inc(mid.bombCounter)
                else now.bombs == w.bombs && o.state.bombCounter == mid.bombCounter)
  {
    assert i in Builders(snap, hit) <==> Asks(snap, hit, i, PlaceBlock);
    assert i in Bombers(snap, hit) <==> Asks(snap, hit, i, PlaceBomb);
  }

  lemma MoveActs(cfg: Settings, mid: ServerState, i: U8, d: U8)
    requires cfg.Playable() && i in mid.world.positions
    ensures var o := MoveOutcome(cfg, mid, i, Move(d));
            var pos, now := mid.world.positions[i], o.state.world.positions[i];
            && (forall q :: Neighbour(d, pos, q) && Free(cfg, mid.world.blocks, q) ==>
                  now == q && o.events == [PlayerMoved(i, q)])
            && ((forall q :: Neighbour(d, pos, q) ==> !Free(cfg, mid.world.blocks, q)) ==> now == pos && o.events == [])
  {
    var pos := mid.world.positions[i];
    if LegalMove(cfg, mid.world.blocks, pos, Dx(d), Dy(d)) {
      var q := Position(pos.x + Dx(d), pos.y + Dy(d));
      assert Neighbour(d, pos, q) && Free(cfg, mid.world.blocks, q);
    }
  }

  lemma StepActs(cfg: Settings, draws: Draws, st: ServerState, snap: seq<Slot>, hit: set<U8>, i: U8, mid: ServerState)
    requires cfg.Playable() && i < |snap| && i in st.world.positions
    requires Done(cfg, st, snap, hit, i, mid)
    ensures var o := PlayerStep(cfg, draws, hit, snap, mid, i);
            Acts(cfg, draws, st, snap, hit, i, o.state.world.positions[i], o.events)
  {
    hide LegalMove, Seen, Smaller, Bombers, Builders, Neighbour, Free, BombsDone;
    if i !in hit && snap[i].updated && snap[i].move.Move? {
      MoveActs(cfg, mid, i, snap[i].move.direction);
    }
  }

  /** The bombs after one more player, in terms of the numbers of bombers before him. */
  lemma BombsNext(
    cfg: Settings, st: ServerState, snap: seq<Slot>, hit: set<U8>, i: U8, mid: ServerState, now: ServerState)
    requires i in st.world.positions && Roomy(st, i + 1) && BombsDone(cfg, st, snap, hit, i, mid)
    requires mid.bombCounter == st.bombCounter + |Smaller(Bombers(snap, hit), i)|
    requires if i in Bombers(snap, hit)
             then now.world.bombs == InsertAbsent(mid.world.bombs, mid.bombCounter, Bomb(st.world.positions[i], cfg.bombTimer))
                  && now.bombCounter == Inc(mid.bombCounter)
             else now.world.bombs == mid.world.bombs && now.bombCounter == mid.bombCounter
    ensures BombsDone(cfg, st, snap, hit, i + 1, now)
    ensures now.bombCounter == st.bombCounter + |Smaller(Bombers(snap, hit), i + 1)|
  {
    hide Bombers, Smaller, InsertAbsent, Issued;
    var bombers := Bombers(snap, hit);
    SmallerNext(bombers, i);
    SmallerSize(bombers, i);
    if i in bombers {
      IssuedNext(st.world.bombs, mid.world.bombs, st.bombCounter, mid.bombCounter, Bomb(st.world.positions[i], cfg.bombTimer));
    }
    forall j | j in Smaller(bombers, i + 1) ensures BombOf(cfg, st, snap, hit, now.world.bombs, j) {
      if j in Smaller(bombers, i) {
        assert BombOf(cfg, st, snap, hit, mid.world.bombs, j);
      }
    }
  }

  lemma StepDone(cfg: Settings, draws: Draws, st: ServerState, snap: seq<Slot>, hit: set<U8>, i: U8, mid: ServerState)
    requires cfg.Playable() && i < |snap| && i in st.world.positions
    requires Roomy(st, i + 1) && Done(cfg, st, snap, hit, i, mid)
    ensures Done(cfg, st, snap, hit, i + 1, PlayerStep(cfg, draws, hit, snap, mid, i).state)
  {
    hide PlayerStep, Smaller, Seen, Bombers, Builders, BombsDone, Roomy;
    var now := PlayerStep(cfg, draws, hit, snap, mid, i).state;
    StepIs(cfg, draws, hit, snap, mid, i);
    SeenNext(st.world, snap, hit, i);
    SmallerNext(hit, i);
    BombsNext(cfg, st, snap, hit, i, mid, now);
  }

  lemma {:induction false} SmallerSize(ids: set<U8>, n: nat)
    ensures |Smaller(ids, n)| <= n
  {
    if n == 0 {
      assert Smaller(ids, n) == {};
    } else if n <= 0x100 {
      SmallerSize(ids, n - 1);
      SmallerNext(ids, n - 1);
    } else {
      SmallerSize(ids, n - 1);
      assert Smaller(ids, n) == Smaller(ids, n - 1);
    }
  }

  lemma FlatNext(reports: seq<seq<Event>>, report: seq<Event>)
    ensures Flat(reports + [report]) == Flat(reports) + report
  {
    assert (reports + [report])[..|reports|] == reports;
  }

  /** The player phase, one player after the other, is the players' rules side by side. */
  lemma {:induction false} PhaseActs(cfg: Settings, draws: Draws, st: ServerState, snap: seq<Slot>, hit: set<U8>, n: nat)
    returns (reports: seq<seq<Event>>)
    requires cfg.Playable() && n <= |snap| && n <= 0x100 && Ids(n) <= st.world.positions.Keys && Roomy(st, n)
    ensures var o := PlayerPhase(cfg, draws, hit, snap, st, n);
            && Done(cfg, st, snap, hit, n, o.state) && |reports| == n && o.events == Flat(reports)
            && forall i: U8 :: i < n ==> Acts(cfg, draws, st, snap, hit, i, o.state.world.positions[i], reports[i])
  {
    hide PlayerStep, Done, Acts;
    if n == 0 {
      NothingDone(cfg, st, snap, hit);
      reports := [];
    } else {
      var i: U8 := n - 1;
      var before := PhaseActs(cfg, draws, st, snap, hit, i);
      var mid := PlayerPhase(cfg, draws, hit, snap, st, i).state;
      StepActs(cfg, draws, st, snap, hit, i, mid);
      StepDone(cfg, draws, st, snap, hit, i, mid);
      StepIs(cfg, draws, hit, snap, mid, i);
      reports := before + [PlayerStep(cfg, draws, hit, snap, mid, i).events];
      FlatNext(before, PlayerStep(cfg, draws, hit, snap, mid, i).events);
    }
  }

  // ---------------------------------------------------------------- whole turns

  /** The bombs after a turn: those whose timer had not run down, one tick later, and a new one for each
      bomber. */
  ghost predicate BombsFollow(cfg: Settings, st: ServerState, snap: seq<Slot>, hit: set<U8>, next: ServerState) {
    var was, now := st.world.bombs, next.world.bombs;
    && next.bombCounter == st.bombCounter + |Bombers(snap, hit)|
    && (forall id :: id in now <==> (id in was && was[id].timer != 1) || st.bombCounter <= id < next.bombCounter)
    && (forall id :: id in was && id in now ==>
          now[id] == Bomb(was[id].position, if was[id].timer == 0 then 0xFFFF else was[id].timer - 1))
    && (forall i :: i in Bombers(snap, hit) ==> BombOf(cfg, st, snap, hit, now, i))
  }

  /** A turn as it leads from st to next and as its message tells it: the explosions, and then every
      player's part in the order of the ids. */
  ghost predicate ByTheRules(
    cfg: Settings, draws: Draws, st: ServerState, snap: seq<Slot>, turn: Turn, next: ServerState,
    explosions: seq<Event>, reports: seq<seq<Event>>)
    requires cfg.Playable()
  {
    var hit := HitIds(turn.events);
    && |snap| == |reports| == cfg.playersCount
    && turn.events == explosions + Flat(reports) && (forall e :: e in explosions ==> e.BombExploded?)
    && (forall i: U8 :: i in st.world.positions <==> i < cfg.playersCount)
    && (forall i: U8 :: i in next.world.positions <==> i < cfg.playersCount)
    && (forall i: U8 :: i < cfg.playersCount ==> Acts(cfg, draws, st, snap, hit, i, next.world.positions[i], reports[i]))
    && next.world.blocks == Seen(st.world, snap, hit, cfg.playersCount) - Destroyed(turn.events)
    && next.cursor == st.cursor + 2 * |hit|
    && BombsFollow(cfg, st, snap, hit, next)
  }

  /** The state the players find has the players, blocks and counters of the one before the turn. */
  lemma ActsFromStart(
    cfg: Settings, draws: Draws, st: ServerState, snap: seq<Slot>, hit: set<U8>, i: U8, now: Position, report: seq<Event>)
    requires cfg.Playable() && i < |snap| && i in st.world.positions
    requires Acts(cfg, draws, AfterExplosions(st), snap, hit, i, now, report)
    ensures Acts(cfg, draws, st, snap, hit, i, now, report)
  {
  }

  lemma AllSmaller(ids: set<U8>, n: nat)
    requires forall i :: i in ids ==> i < n
    ensures Smaller(ids, n) == ids
  {
  }

  lemma BombersBelow(snap: seq<Slot>, hit: set<U8>)
    ensures Smaller(Bombers(snap, hit), |snap|) == Bombers(snap, hit)
  {
    AllSmaller(Bombers(snap, hit), |snap|);
  }

  lemma BombsAfter(
    cfg: Settings, st: ServerState, snap: seq<Slot>, hit: set<U8>, done: ServerState, next: ServerState)
    requires BombsDone(cfg, AfterExplosions(st), snap, hit, |snap|, done)
    requires done.bombCounter == st.bombCounter + |Bombers(snap, hit)| && Roomy(st, |snap|)
    requires next.world.bombs == done.world.bombs && next.bombCounter == done.bombCounter
    ensures BombsFollow(cfg, st, snap, hit, next)
  {
    BombersBelow(snap, hit);
    hide Bombers, Smaller;
    forall i | i in Bombers(snap, hit) ensures BombOf(cfg, st, snap, hit, next.world.bombs, i) {
      assert BombOf(cfg, AfterExplosions(st), snap, hit, done.world.bombs, i);
    }
  }

  /** The message of a turn begins with its explosions, and they tell who was hit and what was destroyed. */
  lemma ReportBegins(cfg: Settings, draws: Draws, snap: seq<Slot>, st: ServerState, turn: Turn) returns (explosions: seq<Event>)
    requires cfg.Playable() && WellFormed(cfg, st.world) && |snap| == cfg.playersCount
    requires TurnReport(cfg, draws, snap, st, turn)
    ensures turn.events == explosions + PlayersOutcome(cfg, draws, snap, st).events
    ensures forall e :: e in explosions ==> e.BombExploded?
    ensures HitIds(turn.events) == TurnHit(BoardOf(cfg), st.world)
    ensures Destroyed(turn.events) == TurnBlast(BoardOf(cfg), st.world) * st.world.blocks
  {
    hide PlayerPhase, NoExplosions, Destroyed, HitIds, TurnBlast, TurnHit;
    PhaseReportsNoExplosions(cfg, draws, TurnHit(BoardOf(cfg), st.world), snap, AfterExplosions(st), cfg.playersCount);
    ReportReads(cfg, draws, snap, st, turn, 0);
    explosions := turn.events[..|Due(Ticked(st.world.bombs))|];
    TurnBlastRead(BoardOf(cfg), st.world, explosions);
  }

  lemma RoomyAfter(st: ServerState, n: nat)
    requires Roomy(st, n)
    ensures Roomy(AfterExplosions(st), n)
  {
  }

  lemma SeenFromStart(st: ServerState, snap: seq<Slot>, hit: set<U8>, n: nat)
    ensures Seen(AfterExplosions(st).world, snap, hit, n) == Seen(st.world, snap, hit, n)
  {
  }

  /** One turn of the server follows the rules. */
  lemma TurnActs(cfg: Settings, draws: Draws, snap: seq<Slot>, st: ServerState, turn: Turn)
    returns (explosions: seq<Event>, reports: seq<seq<Event>>)
    requires cfg.Playable() && WellFormed(cfg, st.world) && |snap| == cfg.playersCount
    requires TurnReport(cfg, draws, snap, st, turn) && Roomy(st, cfg.playersCount)
    ensures ByTheRules(cfg, draws, st, snap, turn, ServerTurn(cfg, draws, snap, st), explosions, reports)
  {
    hide TurnReport, PlayerPhase, Acts, Roomy, BombsDone, BombsFollow, Seen, Destroyed, HitIds, TurnBlast, Smaller, Bombers;
    var hit, mid, n := TurnHit(BoardOf(cfg), st.world), AfterExplosions(st), cfg.playersCount;
    explosions := ReportBegins(cfg, draws, snap, st, turn);
    RoomyAfter(st, n);
    reports := PhaseActs(cfg, draws, mid, snap, hit, n);
    BombersBelow(snap, hit);
    AllSmaller(hit, n);
    SeenFromStart(st, snap, hit, n);
    var done := PlayerPhase(cfg, draws, hit, snap, mid, n).state;
    BombsAfter(cfg, st, snap, hit, done, ServerTurn(cfg, draws, snap, st));
    forall i: U8 | i < n ensures Acts(cfg, draws, st, snap, hit, i, done.world.positions[i], reports[i]) {
      ActsFromStart(cfg, draws, st, snap, hit, i, done.world.positions[i], reports[i]);
    }
  }

  /** Every turn of every game follows the rules. */
  lemma TurnByTheRules(cfg: Settings, draws: Draws, tr: Trace, k: nat)
    returns (explosions: seq<Event>, reports: seq<seq<Event>>)
    requires cfg.Playable() && ValidTrace(cfg, draws, tr) && k + 1 < |tr.turns|
    ensures |tr.snaps| == |tr.turns| - 1 && |tr.states| == |tr.turns|
    ensures ByTheRules(cfg, draws, tr.states[k], tr.snaps[k], tr.turns[k + 1], tr.states[k + 1], explosions, reports)
  {
    hide TurnReport, ServerTurn, ByTheRules, GameInit;
    BombsOverTime(cfg, draws, tr, k);
    CounterFits(cfg, tr, k);
    assert StepAt(cfg, draws, tr, k);
    explosions, reports := TurnActs(cfg, draws, tr.snaps[k], tr.states[k], tr.turns[k + 1]);
  }

  // ---------------------------------------------------------------- what a reader of the messages sees

  lemma {:induction false} FlatHas(reports: seq<seq<Event>>, e: Event)
    ensures e in Flat(reports) <==> exists j :: 0 <= j < |reports| && e in reports[j]
  {
    if reports != [] {
      var front := reports[..|reports| - 1];
      FlatHas(front, e);
      if e in Flat(front) {
        var j :| 0 <= j < |front| && e in front[j];
        assert e in reports[j];
      }
      if j :| 0 <= j < |reports| && e in reports[j] {
        assert j < |front| ==> e in front[j];
      }
    }
  }

  /** A player's part tells of his own moves only, and of a block only on his own cell. */
  lemma OwnReport(
    cfg: Settings, draws: Draws, st: ServerState, snap: seq<Slot>, hit: set<U8>, i: U8, now: Position, report: seq<Event>)
    requires cfg.Playable() && i < |snap| && i in st.world.positions
    requires Acts(cfg, draws, st, snap, hit, i, now, report)
    ensures forall e :: e in report ==>
              && !e.BombExploded? && (e.PlayerMoved? ==> e.player == i && e.position == now)
              && (e.BlockPlaced? ==> i in Builders(snap, hit) && e.position == st.world.positions[i]
                                     && e.position !in Seen(st.world, snap, hit, i))
    ensures i in hit ==> report == [PlayerMoved(i, now)]
    ensures i in Builders(snap, hit) && st.world.positions[i] !in Seen(st.world, snap, hit, i) ==>
              report == [BlockPlaced(st.world.positions[i])]
  {
    hide Smaller, Seen, Bombers;
    assert i in Builders(snap, hit) <==> Asks(snap, hit, i, PlaceBlock);
    if i !in hit && snap[i].updated && snap[i].move.Move? {
      var d, pos, seen := snap[i].move.direction, st.world.positions[i], Seen(st.world, snap, hit, i);
      if q :| Neighbour(d, pos, q) && Free(cfg, seen, q) {
        assert report == [PlayerMoved(i, q)] && now == q;
      } else {
        assert report == [];
      }
    }
  }

  /** The message names a move of player i exactly if it stands in his own part. */
  lemma MovesAreOwn(
    cfg: Settings, draws: Draws, st: ServerState, snap: seq<Slot>, turn: Turn, next: ServerState,
    explosions: seq<Event>, reports: seq<seq<Event>>, i: U8, q: Position)
    requires cfg.Playable() && ByTheRules(cfg, draws, st, snap, turn, next, explosions, reports) && i < cfg.playersCount
    ensures PlayerMoved(i, q) in turn.events <==> PlayerMoved(i, q) in reports[i]
  {
    hide Acts, BombsFollow, Seen, Destroyed, HitIds;
    FlatHas(reports, PlayerMoved(i, q));
    if j :| 0 <= j < |reports| && PlayerMoved(i, q) in reports[j] {
      OwnReport(cfg, draws, st, snap, HitIds(turn.events), j, next.world.positions[j], reports[j]);
    }
  }

  /** Player i at turn k + 1 of a game. */
  ghost predicate Playing(cfg: Settings, draws: Draws, tr: Trace, k: nat, i: U8)
    requires cfg.Playable()
  {
    && ValidTrace(cfg, draws, tr) && k + 1 < |tr.turns| && i < cfg.playersCount
  }

  /** The player was not destroyed and the game read this slot of his. */
  ghost predicate Reads(cfg: Settings, draws: Draws, tr: Trace, k: nat, i: U8, slot: Slot)
    requires cfg.Playable()
  {
    && Playing(cfg, draws, tr, k, i) && i !in HitIds(tr.turns[k + 1].events)
    && i < |tr.snaps[k]| && tr.snaps[k][i] == slot
  }

  lemma PlayerFacts(cfg: Settings, draws: Draws, tr: Trace, k: nat, i: U8) returns (report: seq<Event>)
    requires cfg.Playable() && Playing(cfg, draws, tr, k, i)
    ensures |tr.snaps| == |tr.turns| - 1 && |tr.states| == |tr.turns| && |tr.snaps[k]| == cfg.playersCount
    ensures i in tr.states[k].world.positions && i in tr.states[k + 1].world.positions
    ensures var hit := HitIds(tr.turns[k + 1].events);
            Acts(cfg, draws, tr.states[k], tr.snaps[k], hit, i, tr.states[k + 1].world.positions[i], report)
    ensures forall q :: PlayerMoved(i, q) in tr.turns[k + 1].events <==> PlayerMoved(i, q) in report
    ensures forall e :: e in report ==> e in tr.turns[k + 1].events
  {
    hide Acts, ValidTrace, BombsFollow, Seen, Destroyed, HitIds;
    var explosions, reports := TurnByTheRules(cfg, draws, tr, k);
    report := reports[i];
    forall q ensures PlayerMoved(i, q) in tr.turns[k + 1].events <==> PlayerMoved(i, q) in report {
      MovesAreOwn(cfg, draws, tr.states[k], tr.snaps[k], tr.turns[k + 1], tr.states[k + 1], explosions, reports, i, q);
    }
    forall e | e in report ensures e in tr.turns[k + 1].events {
      FlatHas(reports, e);
      assert e in reports[i];
    }
  }

  /** Where the player was and where he is after turn k + 1. */
  function Was(tr: Trace, k: nat, i: U8): Position
    requires k < |tr.states| && i in tr.states[k].world.positions
  {
    tr.states[k].world.positions[i]
  }

  /** The message of turn k + 1 tells that player i went from one cell to another, exactly if he did. */
  ghost predicate Went(tr: Trace, k: nat, i: U8, now: Position)
    requires k + 1 < |tr.states| == |tr.turns|
  {
    && i in tr.states[k].world.positions && i in tr.states[k + 1].world.positions
    && tr.states[k + 1].world.positions[i] == now
    && forall q :: PlayerMoved(i, q) in tr.turns[k + 1].events <==> q == now && now != tr.states[k].world.positions[i]
  }

  /** A player whose slot holds nothing new, or a Join, stays where he is. */
  lemma StayRule(cfg: Settings, draws: Draws, tr: Trace, k: nat, i: U8, slot: Slot)
    requires cfg.Playable() && Reads(cfg, draws, tr, k, i, slot) && (!slot.updated || !slot.move.Move?)
    ensures |tr.states| == |tr.turns| && i in tr.states[k].world.positions && Went(tr, k, i, Was(tr, k, i))
  {
    hide ValidTrace, HitIds, Smaller, Seen, Bombers;
    var report := PlayerFacts(cfg, draws, tr, k, i);
  }

  /** A player who wants to move goes to the neighbouring cell in that direction exactly if it lies on
      the board and is neither a block of the state before nor one placed by a player before him in this
      turn; otherwise he stays. The message says so. */
  lemma MoveRule(cfg: Settings, draws: Draws, tr: Trace, k: nat, i: U8, d: U8)
    requires cfg.Playable() && Reads(cfg, draws, tr, k, i, Slot(true, Move(d)))
    ensures |tr.states| == |tr.turns| && i in tr.states[k].world.positions && |tr.snaps| == |tr.turns| - 1
    ensures var pos, seen := Was(tr, k, i), Seen(tr.states[k].world, tr.snaps[k], HitIds(tr.turns[k + 1].events), i);
            && (forall q :: Neighbour(d, pos, q) && Free(cfg, seen, q) ==> Went(tr, k, i, q))
            && ((forall q :: Neighbour(d, pos, q) ==> !Free(cfg, seen, q)) ==> Went(tr, k, i, pos))
  {
    hide ValidTrace, HitIds, Smaller, Seen, Bombers, Free;
    var report := PlayerFacts(cfg, draws, tr, k, i);
  }

  /** A destroyed player comes back on the cell that the next two unused random numbers give, after
      those of the destroyed players before him, and the message says so once. */
  lemma RespawnRule(cfg: Settings, draws: Draws, tr: Trace, k: nat, i: U8)
    requires cfg.Playable() && Playing(cfg, draws, tr, k, i) && i in HitIds(tr.turns[k + 1].events)
    ensures |tr.states| == |tr.turns| && i in tr.states[k + 1].world.positions
    ensures var hit, now := HitIds(tr.turns[k + 1].events), tr.states[k + 1].world.positions[i];
            var c := tr.states[k].cursor + 2 * |Smaller(hit, i)|;
            && now == Position(draws(c) % cfg.sizeX, draws(c + 1) % cfg.sizeY)
            && (forall q :: PlayerMoved(i, q) in tr.turns[k + 1].events <==> q == now)
            && MovesOf(tr.turns[k + 1].events, i) == 1
            && tr.states[k + 1].cursor == tr.states[k].cursor + 2 * |hit|
  {
    hide ValidTrace, HitIds, Smaller, Seen, Bombers, MovesOf;
    var report := PlayerFacts(cfg, draws, tr, k, i);
    ScoreMeaning(cfg, draws, tr, k + 1, i);
    var explosions, reports := TurnByTheRules(cfg, draws, tr, k);
  }

  lemma {:induction false} PlacedHas(events: seq<Event>, p: Position)
    ensures p in Placed(events) <==> BlockPlaced(p) in events
  {
    if events != [] {
      var front, last := events[..|events| - 1], events[|events| - 1];
      PlacedHas(front, p);
      assert BlockPlaced(p) in events <==> BlockPlaced(p) in front || last == BlockPlaced(p);
    }
  }

  /** Some player the game lets act wants a block on p. */
  ghost predicate Wanted(cfg: Settings, draws: Draws, tr: Trace, k: nat, i: U8, p: Position)
    requires cfg.Playable() && k < |tr.states|
  {
    && Reads(cfg, draws, tr, k, i, Slot(true, PlaceBlock))
    && i in tr.states[k].world.positions && Was(tr, k, i) == p
  }

  lemma WantedSeen(cfg: Settings, draws: Draws, tr: Trace, k: nat, p: Position)
    requires cfg.Playable() && ValidTrace(cfg, draws, tr) && k + 1 < |tr.turns|
    ensures |tr.states| == |tr.turns| && |tr.snaps| == |tr.turns| - 1 && |tr.snaps[k]| == cfg.playersCount
    ensures p in Seen(tr.states[k].world, tr.snaps[k], HitIds(tr.turns[k + 1].events), cfg.playersCount) <==>
            p in tr.states[k].world.blocks || exists i :: Wanted(cfg, draws, tr, k, i, p)
  {
    var explosions, reports := TurnByTheRules(cfg, draws, tr, k);
    var w, snap, hit := tr.states[k].world, tr.snaps[k], HitIds(tr.turns[k + 1].events);
    hide ValidTrace, HitIds, BombsFollow, Acts;
    var builders := Smaller(Builders(snap, hit), cfg.playersCount);
    if p in Seen(w, snap, hit, cfg.playersCount) && p !in w.blocks {
      var i :| i in builders && i in w.positions && w.positions[i] == p;
      assert Wanted(cfg, draws, tr, k, i, p);
    }
    if i :| Wanted(cfg, draws, tr, k, i, p) {
      assert i in builders;
    }
  }

  /** A block is reported on a cell exactly if it was free and some player standing there wanted one, and
      a cell is a block after the turn exactly if it was one or was reported, and was not destroyed. */
  lemma BlockRule(cfg: Settings, draws: Draws, tr: Trace, k: nat, p: Position)
    requires cfg.Playable() && ValidTrace(cfg, draws, tr) && k + 1 < |tr.turns|
    ensures |tr.states| == |tr.turns|
    ensures var events, was, now := tr.turns[k + 1].events, tr.states[k].world.blocks, tr.states[k + 1].world.blocks;
            && (BlockPlaced(p) in events <==> p !in was && exists i :: Wanted(cfg, draws, tr, k, i, p))
            && (p in now <==> (p in was || BlockPlaced(p) in events) && p !in Destroyed(events))
            && Destroyed(events) <= was
  {
    hide ValidTrace, HitIds, Placed, Destroyed, Seen, Acts, BombsFollow, Flat, Wanted;
    var explosions, reports := TurnByTheRules(cfg, draws, tr, k);
    var events, was := tr.turns[k + 1].events, tr.states[k].world.blocks;
    WantedSeen(cfg, draws, tr, k, p);
    BlocksRead(cfg, draws, tr, k);
    SeenGrows(tr.states[k].world, tr.snaps[k], HitIds(events), cfg.playersCount);
    PlacedHas(events, p);
    SameBlocks(was, Placed(events), Seen(tr.states[k].world, tr.snaps[k], HitIds(events), cfg.playersCount),
               Destroyed(events), p);
  }

  lemma SameBlocks(was: set<Position>, placed: seq<Position>, seen: set<Position>, gone: set<Position>, p: Position)
    requires gone <= was <= seen && was !! ToSet(placed) && was + ToSet(placed) - gone == seen - gone
    ensures p in placed <==> p in seen && p !in was
  {
    assert p in ToSet(placed) <==> p in placed;
    assert p in was + ToSet(placed) - gone <==> p in seen - gone;
  }

  lemma SeenGrows(w: World, snap: seq<Slot>, hit: set<U8>, n: nat)
    ensures w.blocks <= Seen(w, snap, hit, n)
  {
  }

  lemma BlocksRead(cfg: Settings, draws: Draws, tr: Trace, k: nat)
    requires cfg.Playable() && ValidTrace(cfg, draws, tr) && k + 1 < |tr.turns|
    ensures |tr.states| == |tr.turns|
    ensures var events, was := tr.turns[k + 1].events, tr.states[k].world.blocks;
            && Destroyed(events) <= was && was !! ToSet(Placed(events))
            && tr.states[k + 1].world.blocks == was + ToSet(Placed(events)) - Destroyed(events)
  {
    hide TurnReport, ServerTurn, HitIds, Placed, Destroyed, GameInit;
    assert StepAt(cfg, draws, tr, k);
    TurnReads(cfg, draws, tr.snaps[k], tr.states[k], tr.turns[k + 1], 0);
  }

  /** A player who wants to place a bomb leaves one with a full fuse on his cell, under the id after
      those of the bombers before him, and the message says so. */
  lemma BombRule(cfg: Settings, draws: Draws, tr: Trace, k: nat, i: U8)
    requires cfg.Playable() && Reads(cfg, draws, tr, k, i, Slot(true, PlaceBomb))
    ensures |tr.states| == |tr.turns| && |tr.snaps| == |tr.turns| - 1 && i in tr.states[k].world.positions
    ensures var bombers, now := Bombers(tr.snaps[k], HitIds(tr.turns[k + 1].events)), tr.states[k + 1].world.bombs;
            var id := tr.states[k].bombCounter + |Smaller(bombers, i)|;
            && id <= 0xFFFF_FFFF && id in now && now[id] == Bomb(Was(tr, k, i), cfg.bombTimer)
            && BombPlaced(id, Was(tr, k, i)) in tr.turns[k + 1].events
            && tr.states[k + 1].bombCounter == tr.states[k].bombCounter + |bombers|
  {
    hide ValidTrace, HitIds, Smaller, Seen;
    var report := PlayerFacts(cfg, draws, tr, k, i);
    var explosions, reports := TurnByTheRules(cfg, draws, tr, k);
    var hit := HitIds(tr.turns[k + 1].events);
    assert i in Bombers(tr.snaps[k], hit);
    assert BombOf(cfg, tr.states[k], tr.snaps[k], hit, tr.states[k + 1].world.bombs, i);
    assert report[0] in report;
  }

  // ---------------------------------------------------------------- explosions

  /** The event tells what the bomb strikes: the players and the blocks of the state before the turn that
      share a row or a column with it, within the radius and with no block in between, each once. */
  ghost predicate Tells(cfg: Settings, w: World, e: Event) {
    && e.BombExploded? && e.id in w.bombs
    && var b, pos := Board(cfg.sizeX, cfg.sizeY, cfg.explosionRadius), w.bombs[e.id].position;
    && (forall i :: i in e.robots <==> i in w.positions && Struck(b, w.blocks, pos, w.positions[i]))
    && (forall x, y :: 0 <= x < y < |e.robots| ==> e.robots[x] < e.robots[y])
    && (forall p :: p in e.blocks <==> p in w.blocks && Struck(b, w.blocks, pos, p))
    && Distinct(e.blocks)
  }

  lemma EventTells(cfg: Settings, w: World, e: Event)
    requires AllOnBoard(BoardOf(cfg), w) && ExplosionEvent(BoardOf(cfg), TickedWorld(w), e)
    ensures Tells(cfg, w, e) && w.bombs[e.id].timer == 1
  {
    var b, pos := BoardOf(cfg), w.bombs[e.id].position;
    var cells := Blast(b, w.blocks, pos);
    hide Blast, Struck;
    KeysFromIsAscending(Hit(w.positions, cells), 0);
    forall i | i in w.positions ensures w.positions[i] in cells <==> Struck(b, w.blocks, pos, w.positions[i]) {
      BlastMembership(b, w.blocks, pos, w.positions[i]);
    }
    forall p | p in w.blocks ensures p in cells <==> Struck(b, w.blocks, pos, p) {
      BlastMembership(b, w.blocks, pos, p);
    }
    assert forall p :: p in ToSet(e.blocks) <==> p in e.blocks;
  }

  /** A turn reports exactly the bombs whose timer runs down in it, each with what it strikes. */
  lemma ExplosionRule(cfg: Settings, draws: Draws, tr: Trace, k: nat, id: U32)
    requires cfg.Playable() && ValidTrace(cfg, draws, tr) && k + 1 < |tr.turns|
    ensures |tr.states| == |tr.turns|
    ensures var w, events := tr.states[k].world, tr.turns[k + 1].events;
            && (id in ExplodedIds(events) <==> id in w.bombs && w.bombs[id].timer == 1)
            && (forall e :: e in events && e.BombExploded? ==> Tells(cfg, w, e))
  {
    hide ServerTurn, GameInit, AllOnBoard, Tells, ExplosionEvent;
    BoardInvariant(cfg, draws, tr, k);
    assert StepAt(cfg, draws, tr, k);
    var st, turn := tr.states[k], tr.turns[k + 1];
    ReportTells(cfg, draws, tr.snaps[k], st, turn, id);
  }

  lemma ReportTells(cfg: Settings, draws: Draws, snap: seq<Slot>, st: ServerState, turn: Turn, id: U32)
    requires cfg.Playable() && WellFormed(cfg, st.world) && |snap| == cfg.playersCount
    requires TurnReport(cfg, draws, snap, st, turn) && AllOnBoard(BoardOf(cfg), st.world)
    ensures id in ExplodedIds(turn.events) <==> id in st.world.bombs && st.world.bombs[id].timer == 1
    ensures forall e :: e in turn.events && e.BombExploded? ==> Tells(cfg, st.world, e)
  {
    hide AllExplosions, Tells, AllOnBoard, PlayerPhase, NoExplosions, ExplodedIds;
    var d := |Due(Ticked(st.world.bombs))|;
    PhaseReportsNoExplosions(cfg, draws, TurnHit(BoardOf(cfg), st.world), snap, AfterExplosions(st), cfg.playersCount);
    assert turn.events == turn.events[..d] + turn.events[d..];
    SameExplosions(turn.events[..d], turn.events[d..]);
    AllTell(cfg, st.world, turn.events[..d], id);
  }

  lemma AllTell(cfg: Settings, w: World, events: seq<Event>, id: U32)
    requires AllOnBoard(BoardOf(cfg), w) && AllExplosions(BoardOf(cfg), TickedWorld(w), events)
    ensures id in ExplodedIds(events) <==> id in w.bombs && w.bombs[id].timer == 1
    ensures forall e :: e in events ==> Tells(cfg, w, e)
  {
    hide ExplosionEvent, Tells, AllOnBoard, ExplodedIds;
    assert id in Due(Ticked(w.bombs)) <==> id in w.bombs && w.bombs[id].timer == 1;
    forall e | e in events ensures Tells(cfg, w, e) {
      var j :| 0 <= j < |events| && events[j] == e;
      EventTells(cfg, w, events[j]);
    }
  }

  /** A client that mirrors turn k + 1 shows an explosion on exactly the cells that some bomb whose timer ran
      down strikes. */
  lemma ExplosionsShown(cfg: Settings, draws: Draws, tr: Trace, k: nat, p: Position)
    requires cfg.Playable() && ValidTrace(cfg, draws, tr) && k + 1 < |tr.turns|
    ensures |tr.states| == |tr.turns|
    ensures var w, b := tr.states[k].world, Board(cfg.sizeX, cfg.sizeY, cfg.explosionRadius);
            p in TurnReplica(cfg, w, tr.states[k + 1].world).explosions <==>
            exists id :: id in w.bombs && w.bombs[id].timer == 1 && Struck(b, w.blocks, w.bombs[id].position, p)
  {
    hide ValidTrace, Struck, Blast;
    BoardInvariant(cfg, draws, tr, k);
    SameLength(cfg, draws, tr);
    var w, b := tr.states[k].world, BoardOf(cfg);
    forall id | id in w.bombs
      ensures p in Blast(b, w.blocks, w.bombs[id].position) <==> Struck(b, w.blocks, w.bombs[id].position, p)
    {
      BlastMembership(b, w.blocks, w.bombs[id].position, p);
    }
    if id :| id in w.bombs && w.bombs[id].timer == 1 && Struck(b, w.blocks, w.bombs[id].position, p) {
      assert id in Due(Ticked(w.bombs));
    }
  }

  lemma SameLength(cfg: Settings, draws: Draws, tr: Trace)
    requires cfg.Playable() && ValidTrace(cfg, draws, tr)
    ensures |tr.states| == |tr.turns|
  {
  }

  lemma SameExplosions(a: seq<Event>, c: seq<Event>)
    requires NoExplosions(c)
    ensures ExplodedIds(a + c) == ExplodedIds(a)
    ensures forall e :: e in a + c && e.BombExploded? ==> e in a
  {
    var all := a + c;
    forall id | id in ExplodedIds(all) ensures id in ExplodedIds(a) {
      var j :| 0 <= j < |all| && all[j].BombExploded? && all[j].id == id;
    }
    forall id | id in ExplodedIds(a) ensures id in ExplodedIds(all) {
      var j :| 0 <= j < |a| && a[j].BombExploded? && a[j].id == id;
      assert all[j] == a[j];
    }
  }

  // ---------------------------------------------------------------- turn 0

  lemma {:induction false} PlayersDrawn(cfg: Settings, draws: Draws, n: nat)
    requires cfg.Playable() && n <= cfg.playersCount
    ensures var o := InitPlayers(cfg, draws, n);
            && |o.events| == n && o.state.cursor == 2 * n
            && (forall i: U8 :: i in o.state.world.positions <==> i < n)
            && (forall i: U8 :: i < n ==> PlayerDrawn(cfg, draws, o.state.world, o.events, i))
  {
    if n > 0 {
      PlayersDrawn(cfg, draws, n - 1);
      var was := InitPlayers(cfg, draws, n - 1);
      var o := InitPlayers(cfg, draws, n);
      forall i: U8 | i < n ensures PlayerDrawn(cfg, draws, o.state.world, o.events, i) {
        assert i < n - 1 ==> PlayerDrawn(cfg, draws, was.state.world, was.events, i);
      }
    }
  }

  /** Player i stands where the i-th pair of random numbers puts him, and the i-th event says so. */
  predicate PlayerDrawn(cfg: Settings, draws: Draws, w: World, events: seq<Event>, i: U8)
    requires cfg.Playable()
  {
    var pos := Position(draws(2 * i) % cfg.sizeX, draws(2 * i + 1) % cfg.sizeY);
    i in w.positions && w.positions[i] == pos && i < |events| && events[i] == PlayerMoved(i, pos)
  }

  /** Initial block j, after the n players. */
  predicate BlockDrawn(cfg: Settings, draws: Draws, n: nat, events: seq<Event>, j: nat, p: Position)
    requires cfg.Playable()
  {
    && p == Position(draws(2 * n + 2 * j) % cfg.sizeX, draws(2 * n + 2 * j + 1) % cfg.sizeY)
    && n + j < |events| && events[n + j] == BlockPlaced(p)
  }

  /** j-th cell drawn for a block. */
  function DrawnFor(cfg: Settings, draws: Draws, j: nat): Position
    requires cfg.Playable()
  {
    var c := 2 * cfg.playersCount + 2 * j;
    Position(draws(c) % cfg.sizeX, draws(c + 1) % cfg.sizeY)
  }

  ghost predicate Drawn(cfg: Settings, draws: Draws, m: nat, o: Outcome)
    requires cfg.Playable()
  {
    var n, w := cfg.playersCount, o.state.world;
    && |o.events| == n + m && o.state.cursor == 2 * n + 2 * m
    && (forall i: U8 :: i in w.positions <==> i < n)
    && (forall i: U8 :: i < n ==> PlayerDrawn(cfg, draws, w, o.events, i))
    && (forall j: nat :: j < m ==> BlockDrawn(cfg, draws, n, o.events, j, DrawnFor(cfg, draws, j)))
    && (forall p :: p in w.blocks <==> exists j: nat :: j < m && p == DrawnFor(cfg, draws, j))
  }

  lemma {:induction false} BlocksDrawn(cfg: Settings, draws: Draws, m: nat)
    requires cfg.Playable()
    ensures Drawn(cfg, draws, m, InitBlocks(cfg, draws, m))
  {
    hide RandomPosition, Drawn;
    if m == 0 {
      NoBlocksDrawn(cfg, draws);
    } else {
      BlocksDrawn(cfg, draws, m - 1);
      NextCell(cfg, draws, m - 1, InitBlocks(cfg, draws, m - 1));
      OneMoreDrawn(cfg, draws, m - 1, InitBlocks(cfg, draws, m - 1), InitBlocks(cfg, draws, m));
    }
  }

  lemma NoBlocksDrawn(cfg: Settings, draws: Draws)
    requires cfg.Playable()
    ensures Drawn(cfg, draws, 0, InitPlayers(cfg, draws, cfg.playersCount))
  {
    hide InitPlayers, PlayerDrawn;
    PlayersDrawn(cfg, draws, cfg.playersCount);
    InitPlayersShape(cfg, draws, cfg.playersCount);
  }

  lemma NextCell(cfg: Settings, draws: Draws, m: nat, o: Outcome)
    requires cfg.Playable() && Drawn(cfg, draws, m, o)
    ensures RandomPosition(cfg, draws, o.state.cursor) == DrawnFor(cfg, draws, m)
  {
    hide PlayerDrawn, BlockDrawn;
  }

  lemma OneMoreDrawn(cfg: Settings, draws: Draws, m: nat, was: Outcome, now: Outcome)
    requires cfg.Playable() && Drawn(cfg, draws, m, was)
    requires now.events == was.events + [BlockPlaced(DrawnFor(cfg, draws, m))] && now.state.cursor == was.state.cursor + 2
    requires now.state.world == was.state.world.(blocks := was.state.world.blocks + {DrawnFor(cfg, draws, m)})
    ensures Drawn(cfg, draws, m + 1, now)
  {
    forall i: U8 | i < cfg.playersCount ensures PlayerDrawn(cfg, draws, now.state.world, now.events, i) {
      assert PlayerDrawn(cfg, draws, was.state.world, was.events, i);
    }
    forall j: nat | j < m + 1 ensures BlockDrawn(cfg, draws, cfg.playersCount, now.events, j, DrawnFor(cfg, draws, j)) {
      assert j < m ==> BlockDrawn(cfg, draws, cfg.playersCount, was.events, j, DrawnFor(cfg, draws, j));
    }
    forall p | p in now.state.world.blocks ensures exists j: nat :: j < m + 1 && p == DrawnFor(cfg, draws, j) {
      if p in was.state.world.blocks {
        var j: nat :| j < m && p == DrawnFor(cfg, draws, j);
      } else {
        assert p == DrawnFor(cfg, draws, m);
      }
    }
  }

  /** Turn 0 puts player i where random numbers 2i and 2i + 1 say, and initial block b where the numbers
      2n + 2b and 2n + 2b + 1 say, and reports them in this order. */
  lemma FirstTurnRule(cfg: Settings, draws: Draws, tr: Trace)
    requires cfg.Playable() && ValidTrace(cfg, draws, tr) && tr.turns != []
    ensures |tr.states| == |tr.turns| && Drawn(cfg, draws, cfg.initialBlocks, Outcome(tr.states[0], tr.turns[0].events))
    ensures tr.turns[0].turn == 0
  {
    hide Drawn, InitBlocks;
    BlocksDrawn(cfg, draws, cfg.initialBlocks);
    var o := GameInit(cfg, draws);
    assert o == Outcome(o.state, o.events);
  }

  // ---------------------------------------------------------------- where the messages point

  predicate Within(sizeX: nat, sizeY: nat, p: Position) {
    p.x < sizeX && p.y < sizeY
  }

  /** Every position the event names lies on a board of this size. */
  predicate EventWithin(sizeX: nat, sizeY: nat, e: Event) {
    match e
    case BombPlaced(_, p) => Within(sizeX, sizeY, p)
    case BombExploded(_, _, blocks) => forall p :: p in blocks ==> Within(sizeX, sizeY, p)
    case PlayerMoved(_, p) => Within(sizeX, sizeY, p)
    case BlockPlaced(p) => Within(sizeX, sizeY, p)
  }

  lemma ReportWithin(
    cfg: Settings, draws: Draws, st: ServerState, snap: seq<Slot>, hit: set<U8>, i: U8, now: Position,
    report: seq<Event>, e: Event)
    requires cfg.Playable() && i < |snap| && i in st.world.positions && e in report
    requires Acts(cfg, draws, st, snap, hit, i, now, report) && Within(cfg.sizeX, cfg.sizeY, st.world.positions[i])
    ensures EventWithin(cfg.sizeX, cfg.sizeY, e)
  {
    hide Smaller, Seen, Bombers;
    if i !in hit && snap[i].updated && snap[i].move.Move? {
      var d, pos, seen := snap[i].move.direction, st.world.positions[i], Seen(st.world, snap, hit, i);
      if q :| Neighbour(d, pos, q) && Free(cfg, seen, q) {
        assert report == [PlayerMoved(i, q)] && e == report[0];
      }
    } else {
      assert e == report[0];
    }
  }

  lemma BoardIs(cfg: Settings, w: World)
    requires AllOnBoard(BoardOf(cfg), w)
    ensures forall i :: i in w.positions ==> Within(cfg.sizeX, cfg.sizeY, w.positions[i])
    ensures forall p :: p in w.blocks ==> Within(cfg.sizeX, cfg.sizeY, p)
  {
  }

  lemma ExplosionWithin(cfg: Settings, draws: Draws, tr: Trace, k: nat, e: Event)
    requires cfg.Playable() && ValidTrace(cfg, draws, tr) && k + 1 < |tr.turns|
    requires e in tr.turns[k + 1].events && e.BombExploded?
    ensures EventWithin(cfg.sizeX, cfg.sizeY, e)
  {
    hide ValidTrace, AllOnBoard, Struck;
    ExplosionRule(cfg, draws, tr, k, e.id);
    BoardInvariant(cfg, draws, tr, k);
    BoardIs(cfg, tr.states[k].world);
  }

  /** No message of a game names a position off the board. */
  lemma MessagesStayOnBoard(cfg: Settings, draws: Draws, tr: Trace, t: nat, e: Event)
    requires cfg.Playable() && ValidTrace(cfg, draws, tr) && t < |tr.turns| && e in tr.turns[t].events
    ensures EventWithin(cfg.sizeX, cfg.sizeY, e)
  {
    hide ValidTrace, Acts, AllOnBoard, HitIds, BombsFollow, Seen, Destroyed, Drawn;
    if t == 0 {
      FirstTurnRule(cfg, draws, tr);
      var x :| 0 <= x < |tr.turns[0].events| && tr.turns[0].events[x] == e;
      DrawnWithin(cfg, draws, cfg.initialBlocks, Outcome(tr.states[0], tr.turns[0].events), x);
    } else if e.BombExploded? {
      ExplosionWithin(cfg, draws, tr, t - 1, e);
    } else {
      var explosions, reports := TurnByTheRules(cfg, draws, tr, t - 1);
      FlatHas(reports, e);
      var i :| 0 <= i < |reports| && e in reports[i];
      BoardInvariant(cfg, draws, tr, t - 1);
      BoardIs(cfg, tr.states[t - 1].world);
      ReportWithin(cfg, draws, tr.states[t - 1], tr.snaps[t - 1], HitIds(tr.turns[t].events), i,
                   tr.states[t].world.positions[i], reports[i], e);
    }
  }

  lemma DrawnWithin(cfg: Settings, draws: Draws, m: nat, o: Outcome, x: nat)
    requires cfg.Playable() && Drawn(cfg, draws, m, o) && x < |o.events|
    ensures EventWithin(cfg.sizeX, cfg.sizeY, o.events[x])
  {
    if x < cfg.playersCount {
      assert PlayerDrawn(cfg, draws, o.state.world, o.events, x);
    } else {
      var j := x - cfg.playersCount;
      assert BlockDrawn(cfg, draws, cfg.playersCount, o.events, j, DrawnFor(cfg, draws, j));
    }
  }
}
