/** The life of a bomb over a whole game: ids are issued in order and never repeat, every bomb lives
    for exactly its fuse, and the number of live bombs is bounded. */
module Fuses {
  import opened Types
  import opened Blasts
  import opened Engine
  import opened ReplicaProof

  /** A timer of zero wraps on its first tick and needs 65536 turns to come back to zero. */
  function Fuse(cfg: Settings): nat {
    if cfg.bombTimer == 0 then 0x1_0000 else cfg.bombTimer
  }

  /** The timer of a bomb of the given age in turns. */
  function TimerAt(cfg: Settings, age: nat): int
    requires age < Fuse(cfg)
  {
    if age <= cfg.bombTimer then cfg.bombTimer - age else cfg.bombTimer - age + 0x1_0000
  }

  function PlacedIds(events: seq<Event>): set<U32> {
    set e | e in events && e.BombPlaced? :: e.id
  }

  /** The ids are exactly lo..hi-1. */
  ghost predicate Exactly(ids: set<U32>, lo: int, hi: int) {
    forall id: U32 :: id in ids <==> lo <= id < hi
  }

  /** The ids lo..hi-1. */
  function Interval(lo: nat, hi: nat): (ids: set<U32>)
    requires lo <= hi <= 0x1_0000_0000
    ensures |ids| == hi - lo
    ensures forall i :: lo <= i < hi ==> i in ids
    ensures forall i :: i in ids ==> lo <= i < hi
    decreases hi - lo
  {
    if lo == hi then {} else {lo} + Interval(lo + 1, hi)
  }

  // ---------------------------------------------------------------- one turn

  /** How the players' moves change the bombs: `lo..hi` are the ids issued meanwhile. */
  ghost predicate IssuesBombs(cfg: Settings, was: map<U32, Bomb>, now: map<U32, Bomb>, lo: int, hi: int) {
    && (forall id :: id in now <==> id in was || lo <= id < hi)
    && (forall id :: id in was ==> now[id] == was[id])
    && (forall id :: id in now && id !in was ==> now[id].timer == cfg.bombTimer)
  }

  /** The next n bomb ids are free and do not wrap. */
  ghost predicate Roomy(st: ServerState, n: nat) {
    && st.bombCounter + n <= 0xFFFF_FFFF
    && (forall id :: id in st.world.bombs ==> id < st.bombCounter)
  }

  lemma StepBombs(cfg: Settings, draws: Draws, hit: set<U8>, slots: seq<Slot>, st: ServerState, i: U8)
    requires cfg.Playable() && i < |slots| && i in st.world.positions
    requires Roomy(st, 1)
    ensures var o := PlayerStep(cfg, draws, hit, slots, st, i);
            && st.bombCounter <= o.state.bombCounter <= st.bombCounter + 1 && |o.events| <= 1
            && IssuesBombs(cfg, st.world.bombs, o.state.world.bombs, st.bombCounter, o.state.bombCounter)
            && (o.state.bombCounter > st.bombCounter ==> o.events == [BombPlaced(st.bombCounter, st.world.positions[i])])
            && (o.state.bombCounter == st.bombCounter ==> forall e :: e in o.events ==> !e.BombPlaced?)
  {
  }

  lemma IssuesMore(cfg: Settings, a: map<U32, Bomb>, b: map<U32, Bomb>, c: map<U32, Bomb>, lo: int, mid: int, hi: int)
    requires lo <= mid <= hi && IssuesBombs(cfg, a, b, lo, mid) && IssuesBombs(cfg, b, c, mid, hi)
    ensures IssuesBombs(cfg, a, c, lo, hi)
  {
  }

  lemma {:induction false} PhaseBombs(cfg: Settings, draws: Draws, hit: set<U8>, slots: seq<Slot>, st: ServerState, n: nat)
    requires cfg.Playable() && n <= |slots| && n <= 0x100 && Ids(n) <= st.world.positions.Keys
    requires Roomy(st, n)
    ensures var o := PlayerPhase(cfg, draws, hit, slots, st, n);
            && st.bombCounter <= o.state.bombCounter <= st.bombCounter + n && |o.events| <= n
            && Roomy(o.state, 0)
            && IssuesBombs(cfg, st.world.bombs, o.state.world.bombs, st.bombCounter, o.state.bombCounter)
  {
    hide PlayerStep;
    if n > 0 {
      PhaseBombs(cfg, draws, hit, slots, st, n - 1);
      var o := PlayerPhase(cfg, draws, hit, slots, st, n - 1);
      StepBombs(cfg, draws, hit, slots, o.state, n - 1);
      var p := PlayerStep(cfg, draws, hit, slots, o.state, n - 1);
      IssuesMore(cfg, st.world.bombs, o.state.world.bombs, p.state.world.bombs,
                 st.bombCounter, o.state.bombCounter, p.state.bombCounter);
    }
  }

  lemma StepPlaces(cfg: Settings, draws: Draws, hit: set<U8>, slots: seq<Slot>, st: ServerState, i: U8)
    requires cfg.Playable() && i < |slots| && i in st.world.positions && Roomy(st, 1)
    ensures var o := PlayerStep(cfg, draws, hit, slots, st, i);
            && st.bombCounter <= o.state.bombCounter <= st.bombCounter + 1
            && Roomy(o.state, 0)
            && PlacedIds(o.events) == if o.state.bombCounter == st.bombCounter then {} else {st.bombCounter}
  {
    var o := PlayerStep(cfg, draws, hit, slots, st, i);
    if o.state.bombCounter > st.bombCounter {
      assert o.events[0] in o.events;
    }
  }

  lemma PlacesNext(a: seq<Event>, b: seq<Event>, lo: int, mid: int, hi: int)
    requires lo <= mid <= hi <= mid + 1
    requires Exactly(PlacedIds(a), lo, mid) && PlacedIds(b) == if hi == mid then {} else {mid}
    ensures Exactly(PlacedIds(a + b), lo, hi)
  {
    assert PlacedIds(a + b) == PlacedIds(a) + PlacedIds(b);
  }

  /** The player phase reports exactly the ids it issued. */
  lemma {:induction false} PhasePlaces(cfg: Settings, draws: Draws, hit: set<U8>, slots: seq<Slot>, st: ServerState, n: nat)
    requires cfg.Playable() && n <= |slots| && n <= 0x100 && Ids(n) <= st.world.positions.Keys
    requires Roomy(st, n)
    ensures var o := PlayerPhase(cfg, draws, hit, slots, st, n);
            && st.bombCounter <= o.state.bombCounter <= st.bombCounter + n
            && Roomy(o.state, 0)
            && Exactly(PlacedIds(o.events), st.bombCounter, o.state.bombCounter)
  {
    hide PlayerStep;
    if n > 0 {
      hide Exactly, PlacedIds;
      PhasePlaces(cfg, draws, hit, slots, st, n - 1);
      var o := PlayerPhase(cfg, draws, hit, slots, st, n - 1);
      StepPlaces(cfg, draws, hit, slots, o.state, n - 1);
      var p := PlayerStep(cfg, draws, hit, slots, o.state, n - 1);
      PlacesNext(o.events, p.events, st.bombCounter, o.state.bombCounter, p.state.bombCounter);
    }
  }

  // ---------------------------------------------------------------- the counter over a game

  function Counter(tr: Trace, k: int): int
    requires k < |tr.states|
  {
    if k < 0 then 0 else tr.states[k].bombCounter
  }

  /** The ids live after turn k are exactly those issued in the last Fuse turns, and each shows the
      timer of its age. */
  ghost predicate Window(cfg: Settings, tr: Trace, k: nat)
    requires k < |tr.states|
  {
    var bombs := tr.states[k].world.bombs;
    && (forall id :: id in bombs <==> Counter(tr, k - Fuse(cfg)) <= id < Counter(tr, k))
    && (forall p, id :: k - Fuse(cfg) < p <= k && id in bombs && IssuedIn(tr, p, id)
          ==> bombs[id].timer == TimerAt(cfg, k - p))
  }

  predicate IssuedIn(tr: Trace, p: int, id: int)
    requires p < |tr.states|
  {
    Counter(tr, p - 1) <= id < Counter(tr, p)
  }

  /** In turn j at most one bomb per player is issued. */
  predicate Step(cfg: Settings, tr: Trace, j: nat)
    requires j < |tr.states|
  {
    Counter(tr, j - 1) <= Counter(tr, j) <= Counter(tr, j - 1) + cfg.playersCount
  }

  ghost predicate Staircase(cfg: Settings, tr: Trace, k: nat)
    requires k < |tr.states|
  {
    && Counter(tr, 0) == 0
    && (forall j :: 1 <= j <= k ==> Step(cfg, tr, j))
  }

  lemma {:induction false} StairsRise(cfg: Settings, tr: Trace, i: int, j: int)
    requires i <= j < |tr.states| && (0 <= j ==> Staircase(cfg, tr, j))
    ensures 0 <= Counter(tr, i) <= Counter(tr, j)
    decreases j - i
  {
    if i < j && 1 <= j {
      StairsRise(cfg, tr, i, j - 1);
      assert Step(cfg, tr, j);
    }
  }

  lemma {:induction false} StairsSlope(cfg: Settings, tr: Trace, i: int, j: int)
    requires i <= j < |tr.states| && (0 <= j ==> Staircase(cfg, tr, j))
    ensures Counter(tr, j) - Counter(tr, i) <= cfg.playersCount * (j - i)
    decreases j - i
  {
    if i < j && 1 <= j {
      StairsSlope(cfg, tr, i, j - 1);
      assert Step(cfg, tr, j);
      assert cfg.playersCount * (j - i) == cfg.playersCount * (j - 1 - i) + cfg.playersCount;
    } else if i < j {
      assert cfg.playersCount * (j - i) >= 0;
    }
  }

  /** The turn in which an id was issued. */
  lemma {:induction false} IssuedWhen(cfg: Settings, tr: Trace, k: nat, id: int) returns (p: nat)
    requires k < |tr.states| && Staircase(cfg, tr, k) && 0 <= id < Counter(tr, k)
    ensures 1 <= p <= k && IssuedIn(tr, p, id)
  {
    if Counter(tr, k - 1) <= id {
      p := k;
    } else {
      p := IssuedWhen(cfg, tr, k - 1, id);
    }
  }

  lemma CounterFits(cfg: Settings, tr: Trace, k: nat)
    requires k < |tr.states| && Staircase(cfg, tr, k) && k <= 0xFFFF
    ensures Counter(tr, k) + cfg.playersCount <= 0xFFFF_FFFF
  {
    StairsSlope(cfg, tr, 0, k);
    assert cfg.playersCount * k <= 255 * k by {
      MulMono(cfg.playersCount, 255, k);
    }
  }

  lemma MulMono(a: int, b: int, k: nat)
    requires a <= b
    ensures a * k <= b * k
  {
  }

  // ---------------------------------------------------------------- one turn of the game

  lemma TimerFacts(cfg: Settings, age: nat)
    requires age < Fuse(cfg)
    ensures 0 <= TimerAt(cfg, age) <= 0xFFFF
    ensures Tick(TimerAt(cfg, age)) == 0 <==> age == Fuse(cfg) - 1
    ensures age + 1 < Fuse(cfg) ==> Tick(TimerAt(cfg, age)) == TimerAt(cfg, age + 1)
  {
  }

  lemma AgeOf(cfg: Settings, tr: Trace, k: nat, id: U32) returns (p: nat)
    requires k < |tr.states| && Staircase(cfg, tr, k) && Window(cfg, tr, k) && id in tr.states[k].world.bombs
    ensures 1 <= p <= k && k - Fuse(cfg) < p && IssuedIn(tr, p, id)
    ensures tr.states[k].world.bombs[id].timer == TimerAt(cfg, k - p)
  {
    p := IssuedWhen(cfg, tr, k, id);
    if p <= k - Fuse(cfg) {
      StairsRise(cfg, tr, p, k - Fuse(cfg));
    }
  }

  /** The bombs that explode in turn k + 1 are those issued in turn k + 1 - Fuse. */
  lemma DueIds(cfg: Settings, tr: Trace, k: nat, id: U32)
    requires k < |tr.states| && Staircase(cfg, tr, k) && Window(cfg, tr, k)
    ensures id in Due(Ticked(tr.states[k].world.bombs)) <==>
            Counter(tr, k - Fuse(cfg)) <= id < Counter(tr, k + 1 - Fuse(cfg))
  {
    if id in tr.states[k].world.bombs {
      var p := AgeOf(cfg, tr, k, id);
      TimerFacts(cfg, k - p);
      if p > k + 1 - Fuse(cfg) {
        StairsRise(cfg, tr, k + 1 - Fuse(cfg), p - 1);
      }
    } else {
      StairsRise(cfg, tr, k + 1 - Fuse(cfg), k);
    }
  }

  /** What is live after turn k + 1. */
  lemma LiveIds(cfg: Settings, tr: Trace, k: nat, id: U32)
    requires k + 1 < |tr.states| && Staircase(cfg, tr, k + 1) && Window(cfg, tr, k)
    requires var t := Ticked(tr.states[k].world.bombs);
             IssuesBombs(cfg, t - Due(t), tr.states[k + 1].world.bombs, Counter(tr, k), Counter(tr, k + 1))
    ensures id in tr.states[k + 1].world.bombs <==>
            Counter(tr, k + 1 - Fuse(cfg)) <= id < Counter(tr, k + 1)
  {
    assert Staircase(cfg, tr, k);
    StairsRise(cfg, tr, k + 1 - Fuse(cfg), k);
    StairsRise(cfg, tr, k - Fuse(cfg), k + 1 - Fuse(cfg));
    assert Step(cfg, tr, k + 1);
    DueIds(cfg, tr, k, id);
  }

  lemma LiveTimer(cfg: Settings, tr: Trace, k: nat, id: U32, p: int)
    requires k + 1 < |tr.states| && Staircase(cfg, tr, k + 1) && Window(cfg, tr, k)
    requires var t := Ticked(tr.states[k].world.bombs);
             IssuesBombs(cfg, t - Due(t), tr.states[k + 1].world.bombs, Counter(tr, k), Counter(tr, k + 1))
    requires id in tr.states[k + 1].world.bombs
    requires k + 1 - Fuse(cfg) < p <= k + 1 && IssuedIn(tr, p, id)
    ensures tr.states[k + 1].world.bombs[id].timer == TimerAt(cfg, k + 1 - p)
  {
    assert Staircase(cfg, tr, k);
    var t := Ticked(tr.states[k].world.bombs);
    if p <= k {
      StairsRise(cfg, tr, p, k);
      assert id in t - Due(t);
      assert Counter(tr, p) > id;
      TimerFacts(cfg, k - p);
    } else {
      assert id !in t;
    }
  }

  lemma WindowMoves(cfg: Settings, tr: Trace, k: nat)
    requires k + 1 < |tr.states| && Staircase(cfg, tr, k + 1) && Window(cfg, tr, k)
    requires var t := Ticked(tr.states[k].world.bombs);
             IssuesBombs(cfg, t - Due(t), tr.states[k + 1].world.bombs, Counter(tr, k), Counter(tr, k + 1))
    ensures Window(cfg, tr, k + 1)
  {
    var now := tr.states[k + 1].world.bombs;
    forall id ensures id in now <==> Counter(tr, k + 1 - Fuse(cfg)) <= id < Counter(tr, k + 1) {
      CounterRange(tr, k + 1);
      CounterRange(tr, k + 1 - Fuse(cfg));
      if 0 <= id <= 0xFFFF_FFFF {
        LiveIds(cfg, tr, k, id);
      }
    }
    forall p, id | k + 1 - Fuse(cfg) < p <= k + 1 && id in now && IssuedIn(tr, p, id)
      ensures now[id].timer == TimerAt(cfg, k + 1 - p)
    {
      LiveTimer(cfg, tr, k, id, p);
    }
  }

  lemma CounterRange(tr: Trace, k: int)
    requires k < |tr.states|
    ensures 0 <= Counter(tr, k) <= 0xFFFF_FFFF
  {
  }

  lemma TurnIssues(cfg: Settings, draws: Draws, slots: seq<Slot>, st: ServerState, turn: Turn)
    requires cfg.Playable() && WellFormed(cfg, st.world) && |slots| == cfg.playersCount
    requires TurnReport(cfg, draws, slots, st, turn) && Roomy(st, cfg.playersCount)
    ensures var t, next := Ticked(st.world.bombs), ServerTurn(cfg, draws, slots, st);
            && st.bombCounter <= next.bombCounter <= st.bombCounter + cfg.playersCount
            && IssuesBombs(cfg, t - Due(t), next.world.bombs, st.bombCounter, next.bombCounter)
            && |turn.events| <= |Due(t)| + cfg.playersCount
  {
    hide AllExplosions, IssuesBombs, PlayerPhase;
    PhaseBombs(cfg, draws, TurnHit(BoardOf(cfg), st.world), slots, AfterExplosions(st), cfg.playersCount);
    var d := |Due(Ticked(st.world.bombs))|;
    assert |turn.events| == d + |turn.events[d..]|;
  }

  lemma TurnMovesBombs(cfg: Settings, draws: Draws, tr: Trace, k: nat)
    requires cfg.Playable() && ValidTrace(cfg, draws, tr) && k + 1 < |tr.states|
    requires Staircase(cfg, tr, k) && Window(cfg, tr, k)
    ensures Staircase(cfg, tr, k + 1) && Window(cfg, tr, k + 1)
    ensures |tr.turns[k + 1].events| <= 2 * cfg.playersCount
  {
    hide TurnReport, ServerTurn, IssuesBombs, WellFormed;
    assert StepAt(cfg, draws, tr, k);
    CounterFits(cfg, tr, k);
    assert Roomy(tr.states[k], cfg.playersCount);
    hide Window, Roomy;
    TurnIssues(cfg, draws, tr.snaps[k], tr.states[k], tr.turns[k + 1]);
    assert Staircase(cfg, tr, k + 1);
    WindowMoves(cfg, tr, k);
    DueSize(cfg, tr, k);
  }

  /** Which bombs turn k + 1 reports as placed and as exploded. */
  lemma TurnReportsBombs(cfg: Settings, draws: Draws, tr: Trace, k: nat, id: U32)
    requires cfg.Playable() && ValidTrace(cfg, draws, tr) && k + 1 < |tr.states|
    requires Staircase(cfg, tr, k) && Window(cfg, tr, k)
    ensures id in PlacedIds(tr.turns[k + 1].events) <==> Counter(tr, k) <= id < Counter(tr, k + 1)
    ensures id in ExplodedIds(tr.turns[k + 1].events) <==>
              Counter(tr, k - Fuse(cfg)) <= id < Counter(tr, k + 1 - Fuse(cfg))
  {
    assert StepAt(cfg, draws, tr, k);
    CounterFits(cfg, tr, k);
    ReportBombs(cfg, draws, tr.snaps[k], tr.states[k], tr.turns[k + 1], id);
    DueIds(cfg, tr, k, id);
  }

  lemma ReportBombs(cfg: Settings, draws: Draws, slots: seq<Slot>, st: ServerState, turn: Turn, id: U32)
    requires cfg.Playable() && WellFormed(cfg, st.world) && |slots| == cfg.playersCount
    requires TurnReport(cfg, draws, slots, st, turn)
    requires Roomy(st, cfg.playersCount)
    ensures id in PlacedIds(turn.events) <==>
            st.bombCounter <= id < ServerTurn(cfg, draws, slots, st).bombCounter
    ensures id in ExplodedIds(turn.events) <==> id in Due(Ticked(st.world.bombs))
  {
    hide ExplosionEvent, PlayerPhase, IssuesBombs;
    var b, mid := BoardOf(cfg), AfterExplosions(st);
    assert Roomy(mid, cfg.playersCount);
    PhaseBombs(cfg, draws, TurnHit(b, st.world), slots, mid, cfg.playersCount);
    PhasePlaces(cfg, draws, TurnHit(b, st.world), slots, mid, cfg.playersCount);
    PhaseReportsNoExplosions(cfg, draws, TurnHit(b, st.world), slots, mid, cfg.playersCount);
    var d := |Due(Ticked(st.world.bombs))|;
    assert turn.events == turn.events[..d] + turn.events[d..];
    PrefixExplodes(b, TickedWorld(st.world), turn.events[..d], turn.events[d..]);
  }

  /** Explosions come from the prefix of a report, placements from its rest. */
  lemma PrefixExplodes(b: Board, w: World, prefix: seq<Event>, rest: seq<Event>)
    requires AllExplosions(b, w, prefix) && NoExplosions(rest)
    ensures ExplodedIds(prefix + rest) == Due(w.bombs)
    ensures PlacedIds(prefix + rest) == PlacedIds(rest)
  {
    forall e | e in prefix ensures e.BombExploded? {
      var k :| 0 <= k < |prefix| && prefix[k] == e;
      assert ExplosionEvent(b, w, prefix[k]);
    }
    var all := prefix + rest;
    forall k | 0 <= k < |all| && all[k].BombExploded? ensures all[k].id in ExplodedIds(prefix) {
      var e := all[k];
      assert e in prefix;
      var j :| 0 <= j < |prefix| && prefix[j] == e;
    }
    forall id | id in ExplodedIds(prefix) ensures id in ExplodedIds(all) {
      var k :| 0 <= k < |prefix| && prefix[k].BombExploded? && prefix[k].id == id;
      assert all[k] == prefix[k];
    }
    forall e | e in all && e.BombPlaced? ensures e in rest {
    }
  }

  lemma IntervalBounds(ids: set<U32>, lo: nat, hi: nat)
    requires lo <= hi && forall id :: id in ids ==> lo <= id < hi
    requires hi <= 0x1_0000_0000
    ensures |ids| <= hi - lo
  {
    SubsetSize(ids, Interval(lo, hi));
  }

  lemma DueSize(cfg: Settings, tr: Trace, k: nat)
    requires k < |tr.states| && Staircase(cfg, tr, k) && Window(cfg, tr, k)
    ensures |Due(Ticked(tr.states[k].world.bombs))| <= cfg.playersCount
  {
    var due := Due(Ticked(tr.states[k].world.bombs));
    var lo, hi := Counter(tr, k - Fuse(cfg)), Counter(tr, k + 1 - Fuse(cfg));
    StairsRise(cfg, tr, k - Fuse(cfg), k + 1 - Fuse(cfg));
    forall id | id in due ensures lo <= id < hi {
      DueIds(cfg, tr, k, id);
    }
    assert 1 <= k + 1 - Fuse(cfg) ==> Step(cfg, tr, k + 1 - Fuse(cfg));
    CounterRange(tr, k + 1 - Fuse(cfg));
    IntervalBounds(due, lo, hi);
  }

  // ---------------------------------------------------------------- whole games

  /** Window and staircase hold after every turn of every game, whatever the settings. */
  lemma {:induction false} BombsOverTime(cfg: Settings, draws: Draws, tr: Trace, k: nat)
    requires cfg.Playable() && ValidTrace(cfg, draws, tr) && k < |tr.states|
    ensures Staircase(cfg, tr, k) && Window(cfg, tr, k)
  {
    if k == 0 {
      InitState(cfg, draws);
    } else {
      BombsOverTime(cfg, draws, tr, k - 1);
      TurnMovesBombs(cfg, draws, tr, k - 1);
    }
  }

  predicate Places(tr: Trace, t: nat, id: U32)
    requires t < |tr.turns|
  {
    id in PlacedIds(tr.turns[t].events)
  }

  predicate Explodes(tr: Trace, t: nat, id: U32)
    requires t < |tr.turns|
  {
    id in ExplodedIds(tr.turns[t].events)
  }

  lemma {:induction false} InitReportsNoBombs(cfg: Settings, draws: Draws, n: nat)
    requires cfg.Playable()
    ensures forall e :: e in InitBlocks(cfg, draws, n).events ==> !e.BombPlaced? && !e.BombExploded?
    ensures |InitBlocks(cfg, draws, n).events| == cfg.playersCount + n
  {
    if n > 0 {
      InitReportsNoBombs(cfg, draws, n - 1);
    } else {
      InitPlayersReportNoBombs(cfg, draws, cfg.playersCount);
    }
  }

  lemma {:induction false} InitPlayersReportNoBombs(cfg: Settings, draws: Draws, n: nat)
    requires cfg.Playable() && n <= cfg.playersCount
    ensures forall e :: e in InitPlayers(cfg, draws, n).events ==> !e.BombPlaced? && !e.BombExploded?
    ensures |InitPlayers(cfg, draws, n).events| == n
  {
    if n > 0 {
      InitPlayersReportNoBombs(cfg, draws, n - 1);
    }
  }

  /** What a turn reports, for turn 0 as well. */
  lemma ReportedBombs(cfg: Settings, draws: Draws, tr: Trace, t: nat, id: U32)
    requires cfg.Playable() && ValidTrace(cfg, draws, tr) && t < |tr.turns|
    ensures Places(tr, t, id) <==> Counter(tr, t - 1) <= id < Counter(tr, t)
    ensures Explodes(tr, t, id) <==> Counter(tr, t - 1 - Fuse(cfg)) <= id < Counter(tr, t - Fuse(cfg))
  {
    BombsOverTime(cfg, draws, tr, t);
    if t == 0 {
      InitReportsNoBombs(cfg, draws, cfg.initialBlocks);
      assert forall k :: 0 <= k < |tr.turns[0].events| ==> tr.turns[0].events[k] in tr.turns[0].events;
    } else {
      BombsOverTime(cfg, draws, tr, t - 1);
      TurnReportsBombs(cfg, draws, tr, t - 1, id);
    }
  }

  lemma CountersApart(cfg: Settings, draws: Draws, tr: Trace, p: int, q: int, id: U32)
    requires cfg.Playable() && ValidTrace(cfg, draws, tr) && 0 <= p < |tr.states| && q < |tr.states|
    requires Counter(tr, p - 1) <= id < Counter(tr, p)
    ensures Counter(tr, q - 1) <= id < Counter(tr, q) <==> p == q
  {
    BombsOverTime(cfg, draws, tr, |tr.states| - 1);
    CounterBelow(cfg, tr, p, q, id);
    CounterBelow(cfg, tr, p, q - 1, id);
  }

  lemma StairsBelow(cfg: Settings, tr: Trace, p: int)
    requires p < |tr.states| && 0 < |tr.states| && Staircase(cfg, tr, |tr.states| - 1)
    ensures 0 <= p ==> Staircase(cfg, tr, p)
    ensures 0 <= p - 1 ==> Staircase(cfg, tr, p - 1)
  {
  }

  /** Exact fuse: the bomb placed in turn p explodes in turn p + Fuse and in no other. */
  lemma ExactFuse(cfg: Settings, draws: Draws, tr: Trace, p: nat, t: nat, id: U32)
    requires cfg.Playable() && ValidTrace(cfg, draws, tr) && p < |tr.turns| && t < |tr.turns|
    requires Places(tr, p, id)
    ensures Explodes(tr, t, id) <==> t == p + Fuse(cfg)
  {
    ReportedBombs(cfg, draws, tr, p, id);
    ReportedBombs(cfg, draws, tr, t, id);
    CountersApart(cfg, draws, tr, p, t - Fuse(cfg), id);
  }

  /** Bomb ids never repeat: no two turns place the same id. */
  lemma PlacedOnce(cfg: Settings, draws: Draws, tr: Trace, p: nat, q: nat, id: U32)
    requires cfg.Playable() && ValidTrace(cfg, draws, tr) && p < |tr.turns| && q < |tr.turns|
    requires Places(tr, p, id)
    ensures Places(tr, q, id) <==> p == q
  {
    ReportedBombs(cfg, draws, tr, p, id);
    ReportedBombs(cfg, draws, tr, q, id);
    CountersApart(cfg, draws, tr, p, q, id);
  }

  /** Every explosion was placed one fuse earlier. */
  lemma ExplosionWasPlaced(cfg: Settings, draws: Draws, tr: Trace, t: nat, id: U32)
    requires cfg.Playable() && ValidTrace(cfg, draws, tr) && t < |tr.turns| && Explodes(tr, t, id)
    ensures t >= Fuse(cfg) && Places(tr, t - Fuse(cfg), id)
  {
    CounterStartsAtZero(cfg, draws, tr);
    ReportedBombs(cfg, draws, tr, t, id);
    assert t - Fuse(cfg) > 0;
    ReportedBombs(cfg, draws, tr, t - Fuse(cfg), id);
  }

  lemma CounterStartsAtZero(cfg: Settings, draws: Draws, tr: Trace)
    requires cfg.Playable() && ValidTrace(cfg, draws, tr) && 0 < |tr.states|
    ensures Counter(tr, 0) == 0
  {
    BombsOverTime(cfg, draws, tr, 0);
  }

  /** The bomb placed in turn p is live after exactly the turns p..p + Fuse - 1, with the timer of its age. */
  lemma LiveSpan(cfg: Settings, draws: Draws, tr: Trace, p: nat, k: nat, id: U32)
    requires cfg.Playable() && ValidTrace(cfg, draws, tr) && p < |tr.turns| && k < |tr.turns|
    requires Places(tr, p, id)
    ensures id in tr.states[k].world.bombs <==> p <= k < p + Fuse(cfg)
    ensures id in tr.states[k].world.bombs ==> tr.states[k].world.bombs[id].timer == TimerAt(cfg, k - p)
  {
    BombsOverTime(cfg, draws, tr, |tr.states| - 1);
    BombsOverTime(cfg, draws, tr, k);
    ReportedBombs(cfg, draws, tr, p, id);
    CounterBelow(cfg, tr, p, k, id);
    CounterBelow(cfg, tr, p, k - Fuse(cfg), id);
    assert IssuedIn(tr, p, id);
  }

  lemma CounterBelow(cfg: Settings, tr: Trace, p: int, k: int, id: U32)
    requires p < |tr.states| && k < |tr.states|
    requires 0 < |tr.states| && Staircase(cfg, tr, |tr.states| - 1)
    requires Counter(tr, p - 1) <= id < Counter(tr, p)
    ensures id < Counter(tr, k) <==> p <= k
  {
    StairsBelow(cfg, tr, p);
    StairsBelow(cfg, tr, k);
    if p <= k {
      StairsRise(cfg, tr, p, k);
    } else {
      StairsRise(cfg, tr, k, p - 1);
    }
  }

  /** A timer of zero never fires within a game: its fuse is longer than any game. */
  lemma ZeroTimerNeverExplodes(cfg: Settings, draws: Draws, tr: Trace, t: nat, id: U32)
    requires cfg.Playable() && ValidTrace(cfg, draws, tr) && t < |tr.turns| && cfg.bombTimer == 0
    ensures !Explodes(tr, t, id)
  {
    if Explodes(tr, t, id) {
      ExplosionWasPlaced(cfg, draws, tr, t, id);
    }
  }

  /** The live bombs showing one timer value. */
  function TimerClass(bombs: map<U32, Bomb>, timer: U16): set<U32> {
    set id | id in bombs && bombs[id].timer == timer
  }

  /** Live-bomb bounds after every turn: every timer is one of the fuse's, at most one bomb per
      player shows the same timer, and the live bombs are at most players times fuse. */
  lemma LiveBombBounds(cfg: Settings, draws: Draws, tr: Trace, k: nat, timer: U16)
    requires cfg.Playable() && ValidTrace(cfg, draws, tr) && k < |tr.turns|
    ensures cfg.bombTimer > 0 ==> forall id :: id in tr.states[k].world.bombs ==>
                                    1 <= tr.states[k].world.bombs[id].timer <= cfg.bombTimer
    ensures |TimerClass(tr.states[k].world.bombs, timer)| <= cfg.playersCount
    ensures |tr.states[k].world.bombs| <= cfg.playersCount * Fuse(cfg)
    ensures tr.states[k].bombCounter <= cfg.playersCount * k
  {
    hide TimerClass, TraceStep, ServerTurn, GameInit;
    BombsOverTime(cfg, draws, tr, k);
    var bombs := tr.states[k].world.bombs;
    forall id | id in bombs ensures cfg.bombTimer > 0 ==> 1 <= bombs[id].timer <= cfg.bombTimer {
      var p := AgeOf(cfg, tr, k, id);
    }
    TimerClassBound(cfg, tr, k, timer);
    CounterRange(tr, k);
    StairsRise(cfg, tr, k - Fuse(cfg), k);
    StairsSlope(cfg, tr, k - Fuse(cfg), k);
    IntervalBounds(bombs.Keys, Counter(tr, k - Fuse(cfg)), Counter(tr, k));
    StairsSlope(cfg, tr, 0, k);
  }

  lemma TimerClassBound(cfg: Settings, tr: Trace, k: nat, timer: U16)
    requires k < |tr.states| && Staircase(cfg, tr, k) && Window(cfg, tr, k)
    ensures |TimerClass(tr.states[k].world.bombs, timer)| <= cfg.playersCount
  {
    var bombs := tr.states[k].world.bombs;
    var ids := TimerClass(bombs, timer);
    if ids != {} {
      var one :| one in ids;
      var p := AgeOf(cfg, tr, k, one);
      forall id | id in ids ensures Counter(tr, p - 1) <= id < Counter(tr, p) {
        var q := AgeOf(cfg, tr, k, id);
      }
      assert Step(cfg, tr, p);
      CounterRange(tr, p - 1);
      CounterRange(tr, p);
      IntervalBounds(ids, Counter(tr, p - 1), Counter(tr, p));
    }
  }

  /** The sizes of the reports: turn 0 lists players and initial blocks, a later turn at most two
      events per player. */
  lemma ReportSizes(cfg: Settings, draws: Draws, tr: Trace, t: nat)
    requires cfg.Playable() && ValidTrace(cfg, draws, tr) && t < |tr.turns|
    ensures t == 0 ==> |tr.turns[t].events| == cfg.playersCount + cfg.initialBlocks
    ensures t > 0 ==> |tr.turns[t].events| <= 2 * cfg.playersCount
    ensures t > 0 ==> |Due(Ticked(tr.states[t - 1].world.bombs))| <= cfg.playersCount
  {
    if t == 0 {
      InitReportsNoBombs(cfg, draws, cfg.initialBlocks);
    } else {
      BombsOverTime(cfg, draws, tr, t - 1);
      TurnMovesBombs(cfg, draws, tr, t - 1);
      DueSize(cfg, tr, t - 1);
    }
  }
}
