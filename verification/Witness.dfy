/** Runs that exist: every turn has a report, and every settings record has a run in which all players
    join, the game is played to its end and a client is sent all of it. */
module Witness {
  import opened Types
  import opened Blasts
  import opened Engine
  import opened ReplicaProof
  import opened Containers
  import opened Protocol
  import opened ProtocolProof
  import opened Growth
  import opened OutStream

  // ---------------------------------------------------------------- reachable states

  ghost predicate EndsIn(cfg: Settings, draws: Draws, states: seq<System>, steps: seq<Step>, s: System)
    requires cfg.Playable()
  {
    Run(cfg, draws, states, steps) && states[|states| - 1] == s
  }

  ghost predicate Reach(cfg: Settings, draws: Draws, s: System)
    requires cfg.Playable()
  {
    exists states, steps :: EndsIn(cfg, draws, states, steps, s)
  }

  function FirstSystem(cfg: Settings): System {
    System([NewVersion(cfg)], false, MainSnapshot, [])
  }

  lemma ReachFirst(cfg: Settings, draws: Draws)
    requires cfg.Playable()
    ensures Reach(cfg, draws, FirstSystem(cfg))
  {
    assert EndsIn(cfg, draws, [FirstSystem(cfg)], [], FirstSystem(cfg));
  }

  lemma ReachNext(cfg: Settings, draws: Draws, s: System, step: Step, s': System)
    requires cfg.Playable() && Reach(cfg, draws, s) && Do(cfg, draws, s, step, s')
    ensures Reach(cfg, draws, s')
  {
    hide Do, Init;
    var states, steps :| EndsIn(cfg, draws, states, steps, s);
    var states', steps' := states + [s'], steps + [step];
    forall i | 0 <= i < |steps'| ensures RunStep(cfg, draws, states', steps', i) {
      if i < |steps| {
        assert RunStep(cfg, draws, states, steps, i);
      }
    }
    assert EndsIn(cfg, draws, states', steps', s');
  }

  lemma ReachInv(cfg: Settings, draws: Draws, s: System)
    requires cfg.Playable() && Reach(cfg, draws, s)
    ensures Inv(cfg, draws, s)
  {
    hide Inv, Run;
    var states, steps :| EndsIn(cfg, draws, states, steps, s);
    RunSize(cfg, draws, states, steps);
    RunKeeps(cfg, draws, states, steps, |states| - 1);
  }

  lemma RunSize(cfg: Settings, draws: Draws, states: seq<System>, steps: seq<Step>)
    requires cfg.Playable() && Run(cfg, draws, states, steps)
    ensures |states| > 0
  {
  }

  // ---------------------------------------------------------------- every turn can be reported

  /** The elements of a set in some order. */
  lemma {:induction false} Enumerate<T>(s: set<T>) returns (xs: seq<T>)
    ensures Distinct(xs) && ToSet(xs) == s && |xs| == |s|
    decreases |s|
  {
    if s == {} {
      xs := [];
    } else {
      var x :| x in s;
      var rest := Enumerate(s - {x});
      assert x !in ToSet(rest);
      xs := [x] + rest;
      assert ToSet(xs) == {x} + ToSet(rest);
    }
  }

  lemma EventFor(b: Board, w: World, id: U32) returns (e: Event)
    requires id in Due(w.bombs)
    ensures ExplosionEvent(b, w, e) && e.id == id
  {
    var cells := Blast(b, w.blocks, w.bombs[id].position);
    var blocks := Enumerate(cells * w.blocks);
    e := BombExploded(id, AscendingKeys(Hit(w.positions, cells)), blocks);
  }

  lemma {:induction false} EventsFor(b: Board, w: World, ids: seq<U32>) returns (events: seq<Event>)
    requires Distinct(ids) && ToSet(ids) <= Due(w.bombs)
    ensures |events| == |ids| && ExplosionEvents(b, w, events)
    ensures forall k :: 0 <= k < |ids| ==> events[k].BombExploded? && events[k].id == ids[k]
  {
    hide ExplosionEvent;
    if ids == [] {
      events := [];
    } else {
      var front, id := ids[..|ids| - 1], ids[|ids| - 1];
      assert ToSet(front) <= ToSet(ids) && id in ToSet(ids);
      var es := EventsFor(b, w, front);
      var e := EventFor(b, w, id);
      assert e.BombExploded? by { OneExplosion(b, w, e); }
      events := es + [e];
    }
  }

  lemma OneExplosion(b: Board, w: World, e: Event)
    requires ExplosionEvent(b, w, e)
    ensures e.BombExploded?
  {
  }

  lemma ExplosionsExist(b: Board, w: World) returns (events: seq<Event>)
    ensures AllExplosions(b, w, events) && |events| == |Due(w.bombs)|
  {
    var ids := Enumerate(Due(w.bombs));
    events := EventsFor(b, w, ids);
    forall id | id in Due(w.bombs) ensures id in ExplodedIds(events) {
      assert id in ToSet(ids);
    }
    assert ExplodedIds(events) == Due(w.bombs);
  }

  /** Whatever the state and the moves, the server has a message to report the turn with. */
  lemma ReportExists(cfg: Settings, draws: Draws, slots: seq<Slot>, st: ServerState) returns (turn: Turn)
    requires cfg.Playable() && WellFormed(cfg, st.world) && |slots| == cfg.playersCount
    ensures TurnReport(cfg, draws, slots, st, turn)
  {
    hide AllExplosions, PlayersOutcome;
    var boom := ExplosionsExist(BoardOf(cfg), TickedWorld(st.world));
    var rest := PlayersOutcome(cfg, draws, slots, st).events;
    turn := Turn(NextTurn(st.world.turn), boom + rest);
    assert turn.events[..|boom|] == boom && turn.events[|boom|..] == rest;
  }

  // ---------------------------------------------------------------- the players join

  function NewOut(): OutThread {
    OutThread(OutHello, [], [], [])
  }

  /** n clients have connected, and those before the k-th have joined. */
  ghost predicate Gathering(cfg: Settings, s: System, n: nat, k: nat) {
    && |s.versions| == 1 && !s.gameStarted && s.main == MainSnapshot && |s.sessions| == n
    && |Ver(s, 1).players| == k && Ver(s, 1).slots == FreshSlots(cfg.playersCount)
    && (forall j: U8 :: j < n && j < k ==> s.sessions[j].inward == InThread(InRead, 1, true, j))
    && (forall j :: k <= j < n ==> s.sessions[j].inward == InThread(InRead, 0, false, 0))
    && (forall j :: 0 <= j < n ==> s.sessions[j].outward == NewOut())
  }

  lemma {:induction false} ConnectAll(cfg: Settings, draws: Draws, n: nat) returns (s: System)
    requires cfg.Playable()
    ensures Reach(cfg, draws, s) && Gathering(cfg, s, n, 0)
  {
    hide Reach;
    if n == 0 {
      s := FirstSystem(cfg);
      ReachFirst(cfg, draws);
    } else {
      var before := ConnectAll(cfg, draws, n - 1);
      s := before.(sessions := before.sessions + [NewSession([])]);
      ReachNext(cfg, draws, before, Connect([]), s);
    }
  }

  /** Session k joins: it reads the message, takes the snapshot and is admitted. */
  lemma JoinOne(cfg: Settings, draws: Draws, s: System, n: nat, k: nat) returns (s': System)
    requires cfg.Playable() && Reach(cfg, draws, s) && k < n && k < cfg.playersCount && Gathering(cfg, s, n, k)
    ensures Reach(cfg, draws, s') && Gathering(cfg, s', n, k + 1)
  {
    hide Reach, Inv, Do, Gathering;
    var s2 := JoinArrives(cfg, draws, s, n, k);
    ReachInv(cfg, draws, s2);
    RegistryIsIds(cfg, draws, s2, 1);
    s' := Admitted(cfg, s2, k);
    AdmittedNext(cfg, draws, s, s2, n, k);
    ReachNext(cfg, draws, s2, In(k, Join([])), s');
  }

  /** The state in which session k is about to call the registry. */
  ghost predicate Asking(cfg: Settings, s: System, s2: System, n: nat, k: nat) {
    && Gathering(cfg, s, n, k) && k < n
    && s2 == SetIn(s, k, InThread(InAct(Join([]), 1), 1, false, 0))
  }

  lemma JoinArrives(cfg: Settings, draws: Draws, s: System, n: nat, k: nat) returns (s2: System)
    requires cfg.Playable() && Reach(cfg, draws, s) && k < n && k < cfg.playersCount && Gathering(cfg, s, n, k)
    ensures Reach(cfg, draws, s2) && Asking(cfg, s, s2, n, k) && Exists(s2, 1) && k < |s2.sessions|
  {
    hide Reach;
    var m := Join([]);
    var s1 := SetIn(s, k, InThread(InSnapshot(m), 0, false, 0));
    ReachNext(cfg, draws, s, In(k, m), s1);
    s2 := SetIn(s1, k, InThread(InAct(m, 1), 1, false, 0));
    ReachNext(cfg, draws, s1, In(k, m), s2);
    assert s2.sessions == SetIn(s, k, InThread(InAct(m, 1), 1, false, 0)).sessions;
  }

  function Admitted(cfg: Settings, s: System, k: nat): System
    requires Exists(s, 1) && k < |s.sessions|
  {
    var ver' := Admit(cfg, Ver(s, 1), k, Player([], s.sessions[k].address));
    SetIn(Put(s, 1, ver'), k, InThread(InRead, 1, true, LastId(ver')))
  }

  lemma AdmittedNext(cfg: Settings, draws: Draws, s: System, s2: System, n: nat, k: nat)
    requires cfg.Playable() && Asking(cfg, s, s2, n, k) && Exists(s2, 1) && k < cfg.playersCount
    requires Registered(Ver(s2, 1).players, cfg.playersCount)
    ensures k < |s2.sessions| && Do(cfg, draws, s2, In(k, Join([])), Admitted(cfg, s2, k))
    ensures Gathering(cfg, Admitted(cfg, s2, k), n, k + 1)
  {
    hide Registered;
    JoinKeepsRegistered(Ver(s2, 1).players, cfg.playersCount, Player([], s2.sessions[k].address));
  }

  lemma {:induction false} JoinAll(cfg: Settings, draws: Draws, n: nat, k: nat) returns (s: System)
    requires cfg.Playable() && k <= n && k <= cfg.playersCount
    ensures Reach(cfg, draws, s) && Gathering(cfg, s, n, k)
  {
    hide Reach;
    if k == 0 {
      s := ConnectAll(cfg, draws, n);
    } else {
      var before := JoinAll(cfg, draws, n, k - 1);
      s := JoinOne(cfg, draws, before, n, k - 1);
    }
  }

  // ---------------------------------------------------------------- the game is played

  predicate Calm(slots: seq<Slot>) {
    forall j :: 0 <= j < |slots| ==> !slots[j].updated
  }

  /** The game has been played up to turn i; the i-th state has no bombs and nobody has asked for a move. */
  ghost predicate InPlay(cfg: Settings, draws: Draws, s: System, n: nat, i: nat)
    requires cfg.Playable()
  {
    && Logged(cfg, draws, s, n, i)
    && Calm(Ver(s, 1).slots) && Ver(s, 1).states[i].world.bombs == map[]
    && (0 < n && 0 < cfg.playersCount ==> s.sessions[0].inward == InThread(InRead, 1, true, 0))
  }

  /** Turns 0..i of the first game are logged and nothing has been sent. */
  ghost predicate Logged(cfg: Settings, draws: Draws, s: System, n: nat, i: nat)
    requires cfg.Playable()
  {
    && |s.versions| == 1 && s.gameStarted && |s.sessions| == n
    && var ver := Ver(s, 1);
    && |ver.players| == cfg.playersCount && |ver.slots| == cfg.playersCount
    && |ver.turns| == |ver.states| == i + 1 && s.main == MainLoop(1, ver.states[i], i)
    && WellFormed(cfg, ver.states[i].world)
    && ver.turns[0] == Turn(0, GameInit(cfg, draws).events) && ver.states[0] == GameInit(cfg, draws).state
    && (forall j :: 0 <= j < n ==> s.sessions[j].outward == NewOut())
  }

  /** The main thread sees all players and is about to set up the game. */
  lemma Gathered(cfg: Settings, draws: Draws, s: System, n: nat) returns (s': System)
    requires cfg.Playable() && Reach(cfg, draws, s) && Gathering(cfg, s, n, cfg.playersCount)
    ensures Reach(cfg, draws, s') && s' == s.(main := MainInit(1), gameStarted := true)
  {
    hide Reach;
    var s1 := s.(main := MainWait(1));
    ReachNext(cfg, draws, s, Main, s1);
    var s2 := s1.(main := MainStart(1));
    ReachNext(cfg, draws, s1, Main, s2);
    s' := s2.(main := MainInit(1), gameStarted := true);
    ReachNext(cfg, draws, s2, Main, s');
  }

  function Opened(cfg: Settings, draws: Draws, s: System): System
    requires cfg.Playable() && Exists(s, 1)
  {
    Put(s, 1, Started(cfg, draws, Ver(s, 1))).(main := MainLoop(1, GameInit(cfg, draws).state, 0))
  }

  lemma OpenedInPlay(cfg: Settings, draws: Draws, s: System, n: nat)
    requires cfg.Playable() && Gathering(cfg, s, n, cfg.playersCount)
    requires Ver(s, 1).turns == [] && Ver(s, 1).states == []
    ensures InPlay(cfg, draws, Opened(cfg, draws, s.(main := MainInit(1), gameStarted := true)), n, 0)
  {
    hide GameInit, WellFormed;
    InitState(cfg, draws);
  }

  lemma Begin(cfg: Settings, draws: Draws, n: nat) returns (s: System)
    requires cfg.Playable() && cfg.playersCount <= n
    ensures Reach(cfg, draws, s) && InPlay(cfg, draws, s, n, 0)
  {
    hide Reach, GameInit, InPlay, Inv, Started;
    var s0 := JoinAll(cfg, draws, n, cfg.playersCount);
    ReachInv(cfg, draws, s0);
    NothingPlayed(cfg, draws, s0);
    var s1 := Gathered(cfg, draws, s0, n);
    s := Opened(cfg, draws, s1);
    OpenedInPlay(cfg, draws, s0, n);
    ReachNext(cfg, draws, s1, Main, s);
  }

  lemma NothingPlayed(cfg: Settings, draws: Draws, s: System)
    requires cfg.Playable() && Inv(cfg, draws, s) && s.main.MainSnapshot? && |s.versions| == 1
    ensures Ver(s, 1).turns == [] && Ver(s, 1).states == []
  {
    assert Sound(cfg, draws, s, 1);
    assert Ver(s, 1).Game().states == Ver(s, 1).states;
  }

  /** The main thread takes its snapshot and logs the turn. */
  lemma PlayTurn(cfg: Settings, draws: Draws, s: System, n: nat, i: nat) returns (s': System)
    requires cfg.Playable() && Reach(cfg, draws, s) && Logged(cfg, draws, s, n, i) && i < cfg.gameLength
    ensures Reach(cfg, draws, s') && Logged(cfg, draws, s', n, i + 1) && s'.sessions == s.sessions
    ensures Ver(s', 1).slots == Cleared(Ver(s, 1).slots)
    ensures Ver(s', 1).states[i + 1] == ServerTurn(cfg, draws, Ver(s, 1).slots, Ver(s, 1).states[i])
  {
    hide Reach, GameInit, TurnReport, ServerTurn;
    var ver := Ver(s, 1);
    var st := ver.states[i];
    var turn := ReportExists(cfg, draws, ver.slots, st);
    var next := ServerTurn(cfg, draws, ver.slots, st);
    var s1 := Put(s, 1, Snapped(ver)).(main := MainAppend(1, next, ver.slots, turn, i));
    ReachNext(cfg, draws, s, Main, s1);
    s' := Put(s1, 1, Appended(Ver(s1, 1), next, ver.slots, turn)).(main := MainLoop(1, next, i + 1));
    ReachNext(cfg, draws, s1, Main, s');
  }

  lemma {:induction false} CalmPhase(cfg: Settings, draws: Draws, slots: seq<Slot>, st: ServerState, n: nat)
    requires cfg.Playable() && n <= |slots| && n <= 0x100 && Ids(n) <= st.world.positions.Keys && Calm(slots)
    ensures PlayerPhase(cfg, draws, {}, slots, st, n) == Outcome(st, [])
  {
    if n > 0 {
      CalmPhase(cfg, draws, slots, st, n - 1);
    }
  }

  lemma CalmTurn(cfg: Settings, draws: Draws, slots: seq<Slot>, st: ServerState)
    requires cfg.Playable() && WellFormed(cfg, st.world) && |slots| == cfg.playersCount
    requires Calm(slots) && st.world.bombs == map[]
    ensures ServerTurn(cfg, draws, slots, st).world.bombs == map[]
  {
    NoBombsNoBlast(BoardOf(cfg), st.world);
    CalmPhase(cfg, draws, slots, AfterExplosions(st), cfg.playersCount);
  }

  lemma {:induction false} PlayCalm(cfg: Settings, draws: Draws, n: nat, i: nat) returns (s: System)
    requires cfg.Playable() && cfg.playersCount <= n && i <= cfg.gameLength
    ensures Reach(cfg, draws, s) && InPlay(cfg, draws, s, n, i)
  {
    hide Reach, ServerTurn, Logged;
    if i == 0 {
      s := Begin(cfg, draws, n);
    } else {
      var before := PlayCalm(cfg, draws, n, i - 1);
      s := PlayTurn(cfg, draws, before, n, i - 1);
      LoggedState(cfg, draws, before, n, i - 1);
      CalmTurn(cfg, draws, Ver(before, 1).slots, Ver(before, 1).states[i - 1]);
    }
  }

  lemma LoggedState(cfg: Settings, draws: Draws, s: System, n: nat, i: nat)
    requires cfg.Playable() && Logged(cfg, draws, s, n, i)
    ensures |s.versions| == 1 && |Ver(s, 1).states| == i + 1 && WellFormed(cfg, Ver(s, 1).states[i].world)
    ensures |Ver(s, 1).slots| == cfg.playersCount
  {
  }

  // ---------------------------------------------------------------- a bomb in the last turn

  /** Player 0's session asks for a bomb: it reads the message, takes the snapshot, and writes it. */
  lemma AskForBomb(cfg: Settings, draws: Draws, s: System, n: nat, i: nat) returns (s': System)
    requires cfg.Playable() && Reach(cfg, draws, s) && InPlay(cfg, draws, s, n, i)
    requires 0 < n && 0 < cfg.playersCount
    ensures Reach(cfg, draws, s') && Logged(cfg, draws, s', n, i)
    ensures Ver(s', 1).slots[0] == Slot(true, PlaceBomb) && Ver(s', 1).states == Ver(s, 1).states
  {
    hide Reach, GameInit, WellFormed;
    var t := InThread(InRead, 1, true, 0);
    var s1 := SetIn(s, 0, t.(pc := InSnapshot(PlaceBomb)));
    ReachNext(cfg, draws, s, In(0, PlaceBomb), s1);
    var s2 := SetIn(s1, 0, t.(pc := InAct(PlaceBomb, 1)));
    ReachNext(cfg, draws, s1, In(0, PlaceBomb), s2);
    var s3 := SetIn(s2, 0, t.(pc := InCheck(PlaceBomb, 1)));
    ReachNext(cfg, draws, s2, In(0, PlaceBomb), s3);
    var s4 := SetIn(s3, 0, t.(pc := InUpdate(PlaceBomb, 1)));
    ReachNext(cfg, draws, s3, In(0, PlaceBomb), s4);
    s' := SetIn(Put(s4, 1, Written(Ver(s4, 1), 0, 0, PlaceBomb)), 0, t);
    ReachNext(cfg, draws, s4, In(0, PlaceBomb), s');
  }

  lemma StepKeepsBombs(cfg: Settings, draws: Draws, hit: set<U8>, slots: seq<Slot>, st: ServerState, i: U8)
    requires cfg.Playable() && i < |slots| && i in st.world.positions
    ensures st.world.bombs.Keys <= PlayerStep(cfg, draws, hit, slots, st, i).state.world.bombs.Keys
  {
    hide LegalMove, RandomPosition, Dx, Dy;
  }

  lemma {:induction false} BombInPhase(cfg: Settings, draws: Draws, slots: seq<Slot>, st: ServerState, n: nat)
    requires cfg.Playable() && 0 < n <= |slots| && n <= 0x100 && Ids(n) <= st.world.positions.Keys
    requires slots[0] == Slot(true, PlaceBomb)
    ensures PlayerPhase(cfg, draws, {}, slots, st, n).state.world.bombs.Keys != {}
  {
    hide PlayerStep;
    if n == 1 {
      assert PlayerPhase(cfg, draws, {}, slots, st, 0) == Outcome(st, []);
      BombInStep(cfg, draws, slots, st);
    } else {
      BombInPhase(cfg, draws, slots, st, n - 1);
      StepKeepsBombs(cfg, draws, {}, slots, PlayerPhase(cfg, draws, {}, slots, st, n - 1).state, n - 1);
    }
  }

  lemma BombInStep(cfg: Settings, draws: Draws, slots: seq<Slot>, st: ServerState)
    requires cfg.Playable() && 0 < |slots| && 0 in st.world.positions && slots[0] == Slot(true, PlaceBomb)
    ensures PlayerStep(cfg, draws, {}, slots, st, 0).state.world.bombs.Keys != {}
  {
    assert st.bombCounter in PlayerStep(cfg, draws, {}, slots, st, 0).state.world.bombs;
  }

  lemma BombTurn(cfg: Settings, draws: Draws, slots: seq<Slot>, st: ServerState)
    requires cfg.Playable() && WellFormed(cfg, st.world) && |slots| == cfg.playersCount && 0 < cfg.playersCount
    requires slots[0] == Slot(true, PlaceBomb) && st.world.bombs == map[]
    ensures ServerTurn(cfg, draws, slots, st).world.bombs != map[]
  {
    NoBombsNoBlast(BoardOf(cfg), st.world);
    BombInPhase(cfg, draws, slots, AfterExplosions(st), cfg.playersCount);
  }

  /** All turns are logged and, if there is a player, the last state has a bomb. */
  lemma PlayAll(cfg: Settings, draws: Draws, n: nat) returns (s: System)
    requires cfg.Playable() && cfg.playersCount < n && 0 < cfg.gameLength
    ensures Reach(cfg, draws, s) && Logged(cfg, draws, s, n, cfg.gameLength)
    ensures 0 < cfg.playersCount ==> Ver(s, 1).states[cfg.gameLength].world.bombs != map[]
  {
    hide Reach, ServerTurn, GameInit, WellFormed;
    var i := cfg.gameLength - 1;
    var before := PlayCalm(cfg, draws, n, i);
    if 0 < cfg.playersCount {
      var asked := AskForBomb(cfg, draws, before, n, i);
      s := PlayTurn(cfg, draws, asked, n, i);
      BombTurn(cfg, draws, Ver(asked, 1).slots, Ver(asked, 1).states[i]);
    } else {
      s := PlayTurn(cfg, draws, before, n, i);
    }
  }

  // ---------------------------------------------------------------- a client is sent the game

  /** What the out-thread of session k has sent after n sends of turns: the counter has 16 bits. */
  ghost predicate Sent(s: System, k: nat, n: nat) {
    && |s.versions| == 1 && k < |s.sessions| && n <= |Ver(s, 1).turns| <= 0x1_0000
    && var t := s.sessions[k].outward;
    && t.pc == OutTurns(1, false, if n == 0x1_0000 then 0 else n)
    && |t.sent| == n + 2 == |t.origin| && t.sent[0].HelloMessage? && t.sent[1] == GameStarted(Ver(s, 1).players)
    && (forall j :: 2 <= j < n + 2 ==> t.sent[j] == TurnMessage(Ver(s, 1).turns[j - 2]) && t.origin[j] == 1)
  }

  lemma {:induction false} SendTurns(cfg: Settings, draws: Draws, s: System, k: nat, i: nat, n: nat) returns (s': System)
    requires cfg.Playable() && Reach(cfg, draws, s) && Logged(cfg, draws, s, |s.sessions|, i) && k < |s.sessions|
    requires n <= i + 1 <= cfg.gameLength + 1
    ensures Reach(cfg, draws, s') && s'.versions == s.versions && |s'.sessions| == |s.sessions| && Sent(s', k, n)
  {
    hide Reach, GameInit, WellFormed, Inv;
    if n == 0 {
      s' := SendStart(cfg, draws, s, k, i);
    } else {
      var before := SendTurns(cfg, draws, s, k, i, n - 1);
      s' := SendOne(cfg, draws, before, k, n - 1);
    }
  }

  lemma SendStart(cfg: Settings, draws: Draws, s: System, k: nat, i: nat) returns (s': System)
    requires cfg.Playable() && Reach(cfg, draws, s) && Logged(cfg, draws, s, |s.sessions|, i) && k < |s.sessions|
    requires i <= cfg.gameLength
    ensures Reach(cfg, draws, s') && s'.versions == s.versions && |s'.sessions| == |s.sessions| && Sent(s', k, 0)
  {
    hide Reach, GameInit, WellFormed;
    var t0 := NewOut();
    var t1 := Sending(t0, HelloMessage(cfg.ToHello()), 0, OutSnapshot);
    var s1 := SetOut(s, k, t1);
    ReachNext(cfg, draws, s, Out(k), s1);
    var s2 := SetOut(s1, k, t1.(pc := OutCheck(1)));
    ReachNext(cfg, draws, s1, Out(k), s2);
    var s3 := SetOut(s2, k, t1.(pc := OutStarted(1, false)));
    ReachNext(cfg, draws, s2, Out(k), s3);
    var t4 := Sending(t1, GameStarted(Ver(s, 1).players), 1, OutTurns(1, false, 0));
    s' := SetOut(s3, k, t4);
    ReachNext(cfg, draws, s3, Out(k), s');
  }

  lemma SendOne(cfg: Settings, draws: Draws, s: System, k: nat, n: nat) returns (s': System)
    requires cfg.Playable() && Reach(cfg, draws, s) && Sent(s, k, n)
    requires n < |Ver(s, 1).turns| <= cfg.gameLength + 1
    ensures Reach(cfg, draws, s') && s'.versions == s.versions && |s'.sessions| == |s.sessions| && Sent(s', k, n + 1)
  {
    hide Reach;
    var t := s.sessions[k].outward;
    s' := SetOut(s, k, Sending(t, TurnMessage(Ver(s, 1).turns[n]), 1, OutTurns(1, false, NextTurn(n))));
    ReachNext(cfg, draws, s, Out(k), s');
  }
}
