/** From the server's game to the client's screen: whatever the threads do and however the bytes
    arrive, a client accepts everything it is sent and shows the server's game. */
module EndToEnd {
  import opened Types
  import opened Blasts
  import opened Engine
  import opened Game
  import opened ReplicaProof
  import opened Fuses
  import opened History
  import opened Wire
  import opened Codec
  import opened Streams
  import opened Handler
  import opened ClientFsm
  import opened Protocol
  import opened ProtocolProof
  import opened Growth
  import opened OutStream

  // ---------------------------------------------------------------- every message can be sent

  lemma ExplosionFits(b: Board, w: World, e: Event)
    requires ExplosionEvent(b, w, e)
    ensures |e.robots| <= 0x100 && |e.blocks| <= 4
  {
    var cells := Blast(b, w.blocks, w.bombs[e.id].position);
    BlastDestroysAtMostFour(b, w.blocks, w.bombs[e.id].position);
    DistinctSize(e.blocks);
    KeysSize(Hit(w.positions, cells), 0);
  }

  lemma {:induction false} KeysSize(keys: set<U8>, i: nat)
    requires i <= 0x100
    ensures |KeysFrom(keys, i)| <= 0x100 - i
    decreases 0x100 - i
  {
    if i < 0x100 {
      KeysSize(keys, i + 1);
    }
  }

  predicate AllEventsFit(events: seq<Event>) {
    forall e :: e in events ==> FitsEvent(e)
  }

  lemma ExplosionsFit(b: Board, w: World, events: seq<Event>)
    requires AllExplosions(b, w, events)
    ensures AllEventsFit(events)
  {
    hide ExplosionEvent;
    forall e | e in events ensures FitsEvent(e) {
      assert ExplosionEvent(b, w, e);
      ExplosionFits(b, w, e);
    }
  }

  lemma FitsConcat(a: seq<Event>, c: seq<Event>)
    requires AllEventsFit(a) && NoExplosions(c)
    ensures AllEventsFit(a + c)
  {
  }

  lemma ReportFits(cfg: Settings, draws: Draws, slots: seq<Slot>, st: ServerState, turn: Turn)
    requires cfg.Playable() && WellFormed(cfg, st.world) && |slots| == cfg.playersCount
    requires TurnReport(cfg, draws, slots, st, turn)
    ensures AllEventsFit(turn.events)
  {
    hide AllExplosions, PlayerPhase, AllEventsFit, NoExplosions;
    var d := |Due(Ticked(st.world.bombs))|;
    ExplosionsFit(BoardOf(cfg), TickedWorld(st.world), turn.events[..d]);
    PhaseReportsNoExplosions(cfg, draws, TurnHit(BoardOf(cfg), st.world), slots, AfterExplosions(st), cfg.playersCount);
    FitsConcat(turn.events[..d], turn.events[d..]);
    assert turn.events == turn.events[..d] + turn.events[d..];
  }

  /** No turn of a game is too long for its 32-bit length fields. */
  lemma TurnFits(cfg: Settings, draws: Draws, tr: Trace, t: nat)
    requires cfg.Playable() && ValidTrace(cfg, draws, tr) && t < |tr.turns|
    ensures FitsTurn(tr.turns[t])
  {
    hide TurnReport, ServerTurn;
    ReportSizes(cfg, draws, tr, t);
    if t == 0 {
      InitReportsNoBombs(cfg, draws, cfg.initialBlocks);
    } else {
      assert StepAt(cfg, draws, tr, t - 1);
      ReportFits(cfg, draws, tr.snaps[t - 1], tr.states[t - 1], tr.turns[t]);
    }
  }

  // ---------------------------------------------------------------- one more turn

  /** The settings under which a client that has read everything keeps showing the server's game: the
      out-thread's turn counter does not wrap, or there are no players and so nothing ever changes. */
  predicate Steady(cfg: Settings) {
    cfg.gameLength <= 0xFFFE || cfg.playersCount == 0
  }

  /** The replica is the server's state after turn t; after a later turn than 0 its explosion set is
      the union of the server's blasts, its destroyed players are those on a struck cell when the turn
      began and its destroyed blocks the struck blocks. */
  ghost predicate Mirrors(cfg: Settings, tr: Trace, t: nat, r: Replica) {
    && t < |tr.states| && r.world == tr.states[t].world
    && r == if t == 0 then Replica(r.world, {}, {}, {}) else TurnReplica(cfg, tr.states[t - 1].world, r.world)
  }

  /** The replica after the last turn of a game without players, which may be sent turn 0 again. */
  ghost predicate Idle(cfg: Settings, tr: Trace, r: Replica) {
    cfg.playersCount == 0 && Mirrors(cfg, tr, cfg.gameLength, r)
  }

  lemma NextMirrors(
    h: Hello, cfg: Settings, draws: Draws, tr: Trace, t: nat, r: Replica, players: map<U8, Player>, garbage: U16)
    requires cfg.Playable() && Greets(h, cfg) && ValidTrace(cfg, draws, tr) && t < |tr.turns|
    requires players.Keys == Ids(cfg.playersCount)
    requires if t == 0 then r == InitialReplica(players, garbage) || Idle(cfg, tr, r) else Mirrors(cfg, tr, t - 1, r)
    ensures Mirrors(cfg, tr, t, ApplyTurn(h, r, tr.turns[t]))
  {
    hide TurnReport, ServerTurn, ApplyTurn, InitialReplica, GameInit;
    if t == 0 && r == InitialReplica(players, garbage) {
      InitAgrees(h, cfg, draws, players, garbage);
    } else if t == 0 {
      IdleGame(cfg, draws, tr, cfg.gameLength);
      RestartAgrees(h, cfg, draws, r);
    } else {
      assert StepAt(cfg, draws, tr, t - 1);
      TurnAgrees(h, cfg, draws, tr.snaps[t - 1], tr.states[t - 1], tr.turns[t], r);
    }
  }

  // ---------------------------------------------------------------- what a client makes of a stream

  /** The client after the given messages have arrived. */
  ghost function View(garbage: Garbage, sent: seq<ServerMessage>): Client {
    ClientRun(garbage, AwaitHello, MapSeq(Norm, sent))
  }

  lemma {:induction false} MapAppend<T, U>(f: T -> U, xs: seq<T>, x: T)
    ensures MapSeq(f, xs + [x]) == MapSeq(f, xs) + [f(x)]
  {
    if xs == [] {
      assert xs + [x] == [x];
    } else {
      assert (xs + [x])[0] == xs[0] && (xs + [x])[1..] == xs[1..] + [x];
      MapAppend(f, xs[1..], x);
    }
  }

  lemma ViewNext(garbage: Garbage, sent: seq<ServerMessage>, m: ServerMessage)
    ensures View(garbage, sent + [m]) == ClientStep(garbage, View(garbage, sent), Norm(m))
  {
    MapAppend(Norm, sent, m);
    RunAppend(garbage, AwaitHello, MapSeq(Norm, sent), Norm(m));
  }

  /** The greeting as the client reads it. */
  function Greeting(cfg: Settings): Hello {
    NormHello(cfg.ToHello())
  }

  /** The lobby lists the first n players. */
  predicate Lists(accepted: map<U8, Player>, players: map<U8, Player>, n: nat) {
    && n <= 0x100 && accepted.Keys == Ids(n)
    && forall id :: id in accepted ==> id in players && accepted[id] == NormPlayer(players[id])
  }

  function Listed(cfg: Settings, announced: bool): nat {
    if announced then cfg.playersCount else 0
  }

  ghost predicate InGameAt(cfg: Settings, garbage: Garbage, ver: Version, c: Client, games: nat, announced: bool, i: nat) {
    && c.InGame? && c.hello == Greeting(cfg) && c.games == games + 1
    && c.players == NormPlayers(ver.players) && Lists(c.announced, ver.players, Listed(cfg, announced))
    && (Steady(cfg) ==> ShowsBefore(cfg, garbage, ver, c, games, i))
  }

  /** The replica just before turn i is applied. */
  ghost predicate ShowsBefore(cfg: Settings, garbage: Garbage, ver: Version, c: Client, games: nat, i: nat)
    requires c.InGame?
  {
    if i == 0 then c.replica == InitialReplica(c.players, garbage(games)) || Idle(cfg, ver.Game(), c.replica)
    else Mirrors(cfg, ver.Game(), i - 1, c.replica)
  }

  /** Where the client is when it has read all that the out-thread has sent. */
  ghost predicate Expected(cfg: Settings, garbage: Garbage, versions: seq<Version>, t: OutThread, c: Client)
    requires CounterOk(cfg, versions, t.pc)
  {
    var games := |t.visits|;
    match t.pc
    case OutHello => c == AwaitHello
    case OutSnapshot => c == Lobby(Greeting(cfg), map[], games)
    case OutCheck(_) => c == Lobby(Greeting(cfg), map[], games)
    case OutAccepted(v, i) =>
      c.Lobby? && c == Lobby(Greeting(cfg), c.accepted, games) && Lists(c.accepted, versions[v - 1].players, i)
    case OutStarted(v, announced) =>
      && c.Lobby? && c == Lobby(Greeting(cfg), c.accepted, games)
      && Lists(c.accepted, versions[v - 1].players, Listed(cfg, announced))
    case OutTurns(v, announced, i) => InGameAt(cfg, garbage, versions[v - 1], c, games, announced, i)
    case OutEnd(v, announced) =>
      && cfg.gameLength <= 0xFFFE
      && InGameAt(cfg, garbage, versions[v - 1], c, games, announced, cfg.gameLength + 1)
  }

  /** The client's state `now` after a message of version v, in terms of the server's game v. */
  ghost predicate Reflects(cfg: Settings, versions: seq<Version>, v: nat, before: Client, m: ServerMessage, now: Client) {
    match m
    case HelloMessage(_) => now == Lobby(Greeting(cfg), map[], 0)
    case AcceptedPlayer(id, player) =>
      && before.Lobby? && now.Lobby? && now == Lobby(Greeting(cfg), now.accepted, before.games)
      && 1 <= v <= |versions| && Lists(now.accepted, versions[v - 1].players, id + 1)
      && id in now.accepted && now.accepted[id] == NormPlayer(player)
    case GameStarted(players) =>
      && before.Lobby? && now.InGame? && now.games == before.games + 1 && now.hello == Greeting(cfg)
      && 1 <= v <= |versions| && players == versions[v - 1].players && Full(cfg, versions[v - 1])
      && now.players == NormPlayers(players) && (now.announced == map[] || now.announced == now.players)
    case TurnMessage(turn) =>
      && now.InGame? && 1 <= v <= |versions| && turn.turn < |versions[v - 1].turns|
      && turn == versions[v - 1].turns[turn.turn] && Full(cfg, versions[v - 1])
      && now.hello == Greeting(cfg) && now.players == NormPlayers(versions[v - 1].players)
      && (Steady(cfg) ==> Mirrors(cfg, versions[v - 1].Game(), turn.turn, now.replica))
    case GameEnded(scores) =>
      && before.InGame? && now == Lobby(Greeting(cfg), map[], before.games)
      && 1 <= v <= |versions| && cfg.gameLength < |versions[v - 1].states|
      && scores == before.replica.world.scores == versions[v - 1].states[cfg.gameLength].world.scores
  }

  ghost predicate ReflectsAt(
    cfg: Settings, garbage: Garbage, versions: seq<Version>, sent: seq<ServerMessage>, origin: seq<nat>, k: nat) {
    k < |sent| == |origin| &&
    Reflects(cfg, versions, origin[k], View(garbage, sent[..k]), sent[k], View(garbage, sent[..k + 1]))
  }

  ghost predicate AllReflect(
    cfg: Settings, garbage: Garbage, versions: seq<Version>, sent: seq<ServerMessage>, origin: seq<nat>) {
    forall k: nat :: k < |sent| ==> ReflectsAt(cfg, garbage, versions, sent, origin, k)
  }

  ghost predicate Told(cfg: Settings, garbage: Garbage, versions: seq<Version>, t: OutThread) {
    && CounterOk(cfg, versions, t.pc) && |t.origin| == |t.sent|
    && (t.pc.OutHello? ==> t == OutThread(OutHello, [], [], []))
    && Expected(cfg, garbage, versions, t, View(garbage, t.sent))
    && AllReflect(cfg, garbage, versions, t.sent, t.origin)
    && AllFit(t.sent)
  }

  // ---------------------------------------------------------------- stability

  lemma MirrorsStable(cfg: Settings, was: Version, now: Version, t: nat, r: Replica)
    requires VersionGrows(cfg, was, now) && Mirrors(cfg, was.Game(), t, r)
    ensures Mirrors(cfg, now.Game(), t, r)
  {
    hide TurnReplica;
    assert was.Game().states[t] == now.Game().states[t];
    if t > 0 {
      assert was.Game().states[t - 1] == now.Game().states[t - 1];
    }
  }

  lemma ReflectsStable(
    cfg: Settings, was: seq<Version>, now: seq<Version>, v: nat, before: Client, m: ServerMessage, after: Client)
    requires Grows(cfg, was, now) && Reflects(cfg, was, v, before, m, after)
    ensures Reflects(cfg, now, v, before, m, after)
  {
    hide Mirrors, Lists, VersionGrows;
    if !m.HelloMessage? {
      assert VersionGrows(cfg, was[v - 1], now[v - 1]);
      VersionKept(cfg, was[v - 1], now[v - 1]);
      if m.TurnMessage? {
        if Steady(cfg) {
          MirrorsStable(cfg, was[v - 1], now[v - 1], m.turn.turn, after.replica);
        }
      } else if m.AcceptedPlayer? {
        ListsStable(cfg, was[v - 1], now[v - 1], after.accepted, m.id + 1);
      }
    }
  }

  lemma VersionKept(cfg: Settings, was: Version, now: Version)
    requires VersionGrows(cfg, was, now)
    ensures was.turns <= now.turns && was.states <= now.states
    ensures Full(cfg, was) ==> now.players == was.players
  {
  }

  lemma InGameStable(
    cfg: Settings, garbage: Garbage, was: Version, now: Version, c: Client, games: nat, announced: bool, i: nat)
    requires VersionGrows(cfg, was, now) && Full(cfg, was) && InGameAt(cfg, garbage, was, c, games, announced, i)
    ensures InGameAt(cfg, garbage, now, c, games, announced, i)
  {
    hide Mirrors, VersionGrows, InitialReplica, NormPlayers, Lists;
    VersionKept(cfg, was, now);
    ListsStable(cfg, was, now, c.announced, Listed(cfg, announced));
    if Steady(cfg) {
      if i > 0 {
        MirrorsStable(cfg, was, now, i - 1, c.replica);
      } else if Idle(cfg, was.Game(), c.replica) {
        MirrorsStable(cfg, was, now, cfg.gameLength, c.replica);
      }
    }
  }

  lemma ListsStable(cfg: Settings, was: Version, now: Version, accepted: map<U8, Player>, n: nat)
    requires VersionGrows(cfg, was, now) && Lists(accepted, was.players, n)
    ensures Lists(accepted, now.players, n)
  {
  }

  lemma ExpectedStable(cfg: Settings, garbage: Garbage, was: seq<Version>, now: seq<Version>, t: OutThread, c: Client)
    requires Grows(cfg, was, now) && CounterOk(cfg, was, t.pc) && Expected(cfg, garbage, was, t, c)
    ensures CounterOk(cfg, now, t.pc) && Expected(cfg, garbage, now, t, c)
  {
    hide InGameAt, Lists, VersionGrows;
    PartialStable(cfg, was, now, t.pc);
    if !t.pc.OutHello? && !t.pc.OutSnapshot? {
      var v := t.pc.v - 1;
      assert VersionGrows(cfg, was[v], now[v]);
      match t.pc
      case OutAccepted(_, i) => ListsStable(cfg, was[v], now[v], c.accepted, i);
      case OutStarted(_, announced) => ListsStable(cfg, was[v], now[v], c.accepted, Listed(cfg, announced));
      case OutTurns(_, announced, i) => InGameStable(cfg, garbage, was[v], now[v], c, |t.visits|, announced, i);
      case OutEnd(_, announced) =>
        InGameStable(cfg, garbage, was[v], now[v], c, |t.visits|, announced, cfg.gameLength + 1);
      case _ =>
    }
  }

  lemma ToldStable(cfg: Settings, garbage: Garbage, was: seq<Version>, now: seq<Version>, t: OutThread)
    requires Grows(cfg, was, now) && Told(cfg, garbage, was, t)
    ensures Told(cfg, garbage, now, t)
  {
    hide Grows, CounterOk, Expected, Reflects;
    ExpectedStable(cfg, garbage, was, now, t, View(garbage, t.sent));
    forall k: nat | k < |t.sent| ensures ReflectsAt(cfg, garbage, now, t.sent, t.origin, k) {
      assert ReflectsAt(cfg, garbage, was, t.sent, t.origin, k);
      ReflectsStable(cfg, was, now, t.origin[k], View(garbage, t.sent[..k]), t.sent[k], View(garbage, t.sent[..k + 1]));
    }
  }

  // ---------------------------------------------------------------- steps

  /** The players are exactly those of a full game. */
  predicate AllJoined(cfg: Settings, players: map<U8, Player>) {
    players.Keys == Ids(cfg.playersCount)
  }

  /** One more message of version v. */
  lemma ToldNext(cfg: Settings, garbage: Garbage, versions: seq<Version>, t: OutThread, t': OutThread, m: ServerMessage, v: nat)
    requires Told(cfg, garbage, versions, t) && CounterOk(cfg, versions, t'.pc) && !t'.pc.OutHello? && Fits(m)
    requires t'.sent == t.sent + [m] && t'.origin == t.origin + [v]
    requires var c := View(garbage, t.sent);
             var c' := ClientStep(garbage, c, Norm(m));
             Expected(cfg, garbage, versions, t', c') && Reflects(cfg, versions, v, c, m, c')
    ensures Told(cfg, garbage, versions, t')
  {
    hide CounterOk, Expected, Reflects, View, ClientStep;
    ViewNext(garbage, t.sent, m);
    forall k: nat | k < |t'.sent| ensures ReflectsAt(cfg, garbage, versions, t'.sent, t'.origin, k) {
      if k < |t.sent| {
        assert ReflectsAt(cfg, garbage, versions, t.sent, t.origin, k);
        assert t'.sent[..k] == t.sent[..k] && t'.sent[..k + 1] == t.sent[..k + 1];
      } else {
        assert t'.sent[..k] == t.sent && t'.sent[..k + 1] == t'.sent;
      }
    }
  }

  lemma ListsNext(players: map<U8, Player>, accepted: map<U8, Player>, i: U8)
    requires Lists(accepted, players, i) && i in players
    ensures i !in accepted && Lists(InsertAbsent(accepted, i, NormPlayer(players[i])), players, i + 1)
  {
    hide NormPlayer;
    var next := InsertAbsent(accepted, i, NormPlayer(players[i]));
    assert i !in Ids(i);
    assert next.Keys == accepted.Keys + {i};
    assert Ids(i + 1) == Ids(i) + {i};
  }

  lemma ListsAll(cfg: Settings, players: map<U8, Player>, accepted: map<U8, Player>, announced: bool)
    requires Lists(accepted, players, Listed(cfg, announced)) && players.Keys == Ids(cfg.playersCount)
    ensures accepted == map[] || accepted == NormPlayers(players)
  {
    if announced {
      assert accepted.Keys == NormPlayers(players).Keys;
    } else {
      assert accepted.Keys == {};
    }
  }

  lemma AcceptedTold(cfg: Settings, garbage: Garbage, versions: seq<Version>, t: OutThread, t': OutThread)
    requires t.pc.OutAccepted? && t.pc.next < cfg.playersCount && 1 <= t.pc.v <= |versions|
    requires t.pc.next in versions[t.pc.v - 1].players
    requires var v, i := t.pc.v, t.pc.next;
             t' == Sending(t, AcceptedPlayer(i, versions[v - 1].players[i]), v, OutAccepted(v, i + 1))
    requires Told(cfg, garbage, versions, t)
    ensures Told(cfg, garbage, versions, t')
  {
    hide View, Lists;
    var v, i := t.pc.v, t.pc.next;
    var player := versions[v - 1].players[i];
    ListsNext(versions[v - 1].players, View(garbage, t.sent).accepted, i);
    ToldNext(cfg, garbage, versions, t, t', AcceptedPlayer(i, player), v);
  }

  lemma StartedTold(cfg: Settings, garbage: Garbage, versions: seq<Version>, t: OutThread)
    requires Told(cfg, garbage, versions, t) && t.pc.OutStarted? && Full(cfg, versions[t.pc.v - 1])
    requires AllJoined(cfg, versions[t.pc.v - 1].players)
    ensures var v := t.pc.v;
            Told(cfg, garbage, versions, Sending(t, GameStarted(versions[v - 1].players), v, OutTurns(v, t.pc.announced, 0)))
  {
    hide View, Lists, NormPlayers, InitialReplica;
    var v, a := t.pc.v, t.pc.announced;
    var players := versions[v - 1].players;
    ListsAll(cfg, players, View(garbage, t.sent).accepted, a);
    ToldNext(cfg, garbage, versions, t, Sending(t, GameStarted(players), v, OutTurns(v, a, 0)), GameStarted(players), v);
  }

  /** Cutting strings changes neither the players' ids nor the numbers of the greeting. */
  lemma NormKeeps(cfg: Settings, players: map<U8, Player>)
    ensures NormPlayers(players).Keys == players.Keys && Greets(Greeting(cfg), cfg)
  {
  }

  lemma TurnEffect(
    cfg: Settings, draws: Draws, garbage: Garbage, ver: Version, c: Client, games: nat, announced: bool, i: U16)
    requires cfg.Playable() && InGameAt(cfg, garbage, ver, c, games, announced, i) && i < |ver.turns|
    requires AllJoined(cfg, ver.players) && ValidTrace(cfg, draws, ver.Game())
    ensures var m := TurnMessage(ver.turns[i]);
            && InGameAt(cfg, garbage, ver, ClientStep(garbage, c, m), games, announced, NextTurn(i))
            && m.turn.turn == i && Fits(m) && ClientStep(garbage, c, m).InGame?
            && (Steady(cfg) ==> Mirrors(cfg, ver.Game(), i, ClientStep(garbage, c, m).replica))
  {
    hide Lists, InitialReplica, ValidTrace, Mirrors, ApplyTurn, FitsTurn, NormHello, NormPlayers;
    var tr := ver.Game();
    TraceBounds(cfg, draws, tr);
    NormKeeps(cfg, ver.players);
    if Steady(cfg) {
      NextMirrors(Greeting(cfg), cfg, draws, tr, i, c.replica, c.players, garbage(games));
    }
    TurnFits(cfg, draws, tr, i);
    TurnNumbers(cfg, draws, tr, i);
  }

  lemma TraceBounds(cfg: Settings, draws: Draws, tr: Trace)
    requires cfg.Playable() && ValidTrace(cfg, draws, tr)
    ensures |tr.states| == |tr.turns| <= cfg.gameLength + 1
  {
  }

  lemma TurnTold(cfg: Settings, draws: Draws, garbage: Garbage, versions: seq<Version>, t: OutThread, t': OutThread)
    requires cfg.Playable() && t.pc.OutTurns? && 1 <= t.pc.v <= |versions|
    requires InTurnLoop(cfg, t.pc.turn) && t.pc.turn < |versions[t.pc.v - 1].turns|
    requires var v, i := t.pc.v, t.pc.turn;
             t' == Sending(t, TurnMessage(versions[v - 1].turns[i]), v, OutTurns(v, t.pc.announced, NextTurn(i)))
    requires AllJoined(cfg, versions[t.pc.v - 1].players) && ValidTrace(cfg, draws, versions[t.pc.v - 1].Game())
    requires Told(cfg, garbage, versions, t)
    ensures Told(cfg, garbage, versions, t')
  {
    hide View, ValidTrace, Mirrors, FitsTurn, AllReflect, AllFit, Has, InGameAt, ClientStep, AllJoined;
    var v, a, i := t.pc.v, t.pc.announced, t.pc.turn;
    var c, m := View(garbage, t.sent), TurnMessage(versions[v - 1].turns[i]);
    TurnEffect(cfg, draws, garbage, versions[v - 1], c, |t.visits|, a, i);
    InGameIs(cfg, garbage, versions[v - 1], ClientStep(garbage, c, m), |t.visits|, a, NextTurn(i));
    assert Norm(m) == m;
    ToldNext(cfg, garbage, versions, t, t', m, v);
  }

  lemma InGameIs(cfg: Settings, garbage: Garbage, ver: Version, c: Client, games: nat, announced: bool, i: nat)
    requires InGameAt(cfg, garbage, ver, c, games, announced, i)
    ensures c.InGame? && c.hello == Greeting(cfg) && c.players == NormPlayers(ver.players)
  {
  }

  lemma EndTold(cfg: Settings, garbage: Garbage, versions: seq<Version>, t: OutThread)
    requires Told(cfg, garbage, versions, t) && t.pc.OutEnd?
    requires var ver := versions[t.pc.v - 1];
             |ver.states| == cfg.gameLength + 1 && ver.scoreMap == ver.states[cfg.gameLength].world.scores
    ensures var v := t.pc.v;
            Told(cfg, garbage, versions,
                 Sending(t, GameEnded(versions[v - 1].scoreMap), v, OutSnapshot).(
                   visits := t.visits + [Visit(v, t.pc.announced)]))
  {
    hide View, Lists;
    var v := t.pc.v;
    var m := GameEnded(versions[v - 1].scoreMap);
    ToldNext(cfg, garbage, versions, t, Sending(t, m, v, OutSnapshot).(visits := t.visits + [Visit(v, t.pc.announced)]), m, v);
  }

  lemma HelloTold(cfg: Settings, garbage: Garbage, versions: seq<Version>)
    ensures Told(cfg, garbage, versions, OutThread(OutHello, [], [], []))
    ensures Told(cfg, garbage, versions, Sending(OutThread(OutHello, [], [], []), HelloMessage(cfg.ToHello()), 0, OutSnapshot))
  {
    var t := OutThread(OutHello, [], [], []);
    assert View(garbage, []) == AwaitHello;
    assert Told(cfg, garbage, versions, t);
    hide View, NormHello;
    ToldNext(cfg, garbage, versions, t, Sending(t, HelloMessage(cfg.ToHello()), 0, OutSnapshot), HelloMessage(cfg.ToHello()), 0);
  }

  lemma NothingListed(players: map<U8, Player>)
    ensures Lists(map[], players, 0)
  {
  }

  lemma SilentExpected(cfg: Settings, garbage: Garbage, versions: seq<Version>, t: OutThread, pc: OutCounter, c: Client)
    requires CounterOk(cfg, versions, t.pc) && Expected(cfg, garbage, versions, t, c)
    requires Silent(cfg, versions, t.pc, pc) && CounterOk(cfg, versions, pc)
    ensures Expected(cfg, garbage, versions, t.(pc := pc), c)
  {
    hide InGameAt, Lists, Has, Full;
    if t.pc.OutCheck? {
      NothingListed(versions[t.pc.v - 1].players);
    }
  }

  lemma SilentTold(cfg: Settings, garbage: Garbage, versions: seq<Version>, t: OutThread, pc: OutCounter)
    requires Told(cfg, garbage, versions, t) && Silent(cfg, versions, t.pc, pc) && versions != []
    ensures Told(cfg, garbage, versions, t.(pc := pc))
  {
    hide View, AllReflect, AllFit, Expected, CounterOk, Silent;
    SilentCounter(cfg, versions, t.pc, pc);
    SilentExpected(cfg, garbage, versions, t, pc, View(garbage, t.sent));
  }

  lemma SilentCounter(cfg: Settings, versions: seq<Version>, pc: OutCounter, pc': OutCounter)
    requires CounterOk(cfg, versions, pc) && Silent(cfg, versions, pc, pc') && versions != []
    ensures CounterOk(cfg, versions, pc') && !pc'.OutHello?
  {
  }

  lemma VersionTells(cfg: Settings, draws: Draws, s: System, v: nat)
    requires cfg.Playable() && Inv(cfg, draws, s) && Exists(s, v)
    ensures var ver := Ver(s, v);
            && ValidTrace(cfg, draws, ver.Game()) && |ver.states| == |ver.turns|
            && (Full(cfg, ver) ==> AllJoined(cfg, ver.players))
            && (ver.finished ==> |ver.states| == cfg.gameLength + 1
                                 && ver.scoreMap == ver.states[cfg.gameLength].world.scores)
  {
    assert Sound(cfg, draws, s, v);
    assert Ver(s, v).Game().turns == Ver(s, v).turns && Ver(s, v).Game().states == Ver(s, v).states;
  }

  lemma ToldPlace(cfg: Settings, garbage: Garbage, versions: seq<Version>, t: OutThread)
    requires Told(cfg, garbage, versions, t)
    ensures CounterOk(cfg, versions, t.pc) && |t.origin| == |t.sent|
    ensures t.pc.OutHello? ==> t == OutThread(OutHello, [], [], [])
    ensures t.pc.OutTurns? || t.pc.OutEnd? ==> 1 <= t.pc.v <= |versions| && Full(cfg, versions[t.pc.v - 1])
  {
    hide Expected, AllReflect, AllFit;
  }

  lemma LobbyTold(cfg: Settings, garbage: Garbage, s: System, s': System, k: nat)
    requires k < |s.sessions| == |s'.sessions|
    requires s.sessions[k].outward.pc.OutHello?
             || (s.sessions[k].outward.pc.OutAccepted? && s.sessions[k].outward.pc.next < cfg.playersCount)
    requires OutStep(cfg, s, s', k)
    requires Told(cfg, garbage, s.versions, s.sessions[k].outward)
    ensures Told(cfg, garbage, s.versions, s'.sessions[k].outward)
  {
    hide Told, CounterOk, Full;
    var t := s.sessions[k].outward;
    ToldPlace(cfg, garbage, s.versions, t);
    if t.pc.OutHello? {
      HelloTold(cfg, garbage, s.versions);
    } else {
      AcceptedTold(cfg, garbage, s.versions, t, s'.sessions[k].outward);
    }
  }

  lemma GameTold(cfg: Settings, draws: Draws, garbage: Garbage, s: System, s': System, k: nat)
    requires k < |s.sessions| == |s'.sessions| && cfg.Playable()
    requires var pc := s.sessions[k].outward.pc;
             pc.OutStarted? || pc.OutEnd? || (pc.OutTurns? && InTurnLoop(cfg, pc.turn))
    requires Inv(cfg, draws, s) && OutStep(cfg, s, s', k)
    requires Told(cfg, garbage, s.versions, s.sessions[k].outward)
    ensures Told(cfg, garbage, s.versions, s'.sessions[k].outward)
  {
    hide Inv, OutStep, Told, ValidTrace, CounterOk, AllJoined, Full;
    var t := s.sessions[k].outward;
    ToldPlace(cfg, garbage, s.versions, t);
    StepSendsMessage(cfg, s, s', k);
    VersionTells(cfg, draws, s, t.pc.v);
    if t.pc.OutStarted? {
      StartedTold(cfg, garbage, s.versions, t);
    } else if t.pc.OutTurns? {
      TurnTold(cfg, draws, garbage, s.versions, t, s'.sessions[k].outward);
    } else {
      EndTold(cfg, garbage, s.versions, t);
    }
  }

  lemma SpokenTold(cfg: Settings, draws: Draws, garbage: Garbage, s: System, s': System, k: nat)
    requires k < |s.sessions| == |s'.sessions| && cfg.Playable()
    requires s'.sessions[k].outward.sent != s.sessions[k].outward.sent
    requires Inv(cfg, draws, s) && OutStep(cfg, s, s', k)
    requires Told(cfg, garbage, s.versions, s.sessions[k].outward)
    ensures Told(cfg, garbage, s.versions, s'.sessions[k].outward)
  {
    hide Inv, Told;
    var pc := s.sessions[k].outward.pc;
    if pc.OutHello? || pc.OutAccepted? {
      LobbyTold(cfg, garbage, s, s', k);
    } else {
      GameTold(cfg, draws, garbage, s, s', k);
    }
  }

  lemma SomeVersion(cfg: Settings, draws: Draws, s: System)
    requires cfg.Playable() && Inv(cfg, draws, s)
    ensures s.versions != []
  {
  }

  lemma ToldAdvance(cfg: Settings, draws: Draws, garbage: Garbage, s: System, step: Step, s': System)
    requires cfg.Playable() && Inv(cfg, draws, s) && Do(cfg, draws, s, step, s')
    requires forall k :: 0 <= k < |s.sessions| ==> Told(cfg, garbage, s.versions, s.sessions[k].outward)
    ensures forall k :: 0 <= k < |s'.sessions| ==> Told(cfg, garbage, s'.versions, s'.sessions[k].outward)
  {
    hide Inv, Grows, Told;
    StepGrows(cfg, draws, s, step, s');
    Outward(cfg, draws, s, step, s');
    SomeVersion(cfg, draws, s);
    hide Do;
    forall k | 0 <= k < |s'.sessions| ensures Told(cfg, garbage, s'.versions, s'.sessions[k].outward) {
      if step == Out(k) {
        if s'.sessions[k].outward.sent == s.sessions[k].outward.sent {
          QuietStepIsSilent(cfg, s, s', k);
          SilentTold(cfg, garbage, s.versions, s.sessions[k].outward, s'.sessions[k].outward.pc);
        } else {
          SpokenTold(cfg, draws, garbage, s, s', k);
        }
      } else if k < |s.sessions| {
        ToldStable(cfg, garbage, s.versions, s'.versions, s.sessions[k].outward);
      } else {
        HelloTold(cfg, garbage, s'.versions);
      }
    }
  }

  // ---------------------------------------------------------------- the main theorems

  /** In every run, at every moment, every client that has read what it was sent, message by message,
      is where the server's game is. */
  lemma {:induction false} ClientsFollow(
    cfg: Settings, draws: Draws, garbage: Garbage, states: seq<System>, steps: seq<Step>, i: nat)
    requires cfg.Playable() && Run(cfg, draws, states, steps) && i < |states|
    ensures forall k :: 0 <= k < |states[i].sessions| ==> Told(cfg, garbage, states[i].versions, states[i].sessions[k].outward)
  {
    hide Inv, Do, Told;
    if i > 0 {
      ClientsFollow(cfg, draws, garbage, states, steps, i - 1);
      RunKeeps(cfg, draws, states, steps, i - 1);
      assert RunStep(cfg, draws, states, steps, i - 1);
      ToldAdvance(cfg, draws, garbage, states[i - 1], steps[i - 1], states[i]);
    }
  }

  lemma {:induction false} MapPrefix<T, U>(f: T -> U, xs: seq<T>, n: nat)
    requires n <= |xs|
    ensures MapSeq(f, xs)[..n] == MapSeq(f, xs[..n])
  {
    if n > 0 {
      assert xs[..n][0] == xs[0] && xs[..n][1..] == xs[1..][..n - 1];
      MapPrefix(f, xs[1..], n - 1);
    }
  }

  lemma NeverFails(cfg: Settings, versions: seq<Version>, v: nat, before: Client, m: ServerMessage, now: Client)
    requires Reflects(cfg, versions, v, before, m, now)
    ensures !now.Failed?
  {
    hide Mirrors;
  }

  /** What the arrived bytes of one stream amount to. */
  ghost predicate ArrivedReflects(
    cfg: Settings, garbage: Garbage, versions: seq<Version>, t: OutThread, d: Decoded<ServerMessage>)
  {
    var n, c := |d.messages|, ClientRun(garbage, AwaitHello, d.messages);
    && n <= |t.sent| && d.messages == MapSeq(Norm, t.sent[..n])
    && !c.Failed? && EndingOf(c, d) == ConnectionLost
    && (n > 0 ==> ReflectsAt(cfg, garbage, versions, t.sent, t.origin, n - 1))
  }

  lemma ArrivedIsShown(cfg: Settings, garbage: Garbage, versions: seq<Version>, t: OutThread, arrived: Bytes)
    requires Told(cfg, garbage, versions, t) && arrived <= EncodeStream(t.sent)
    ensures ArrivedReflects(cfg, garbage, versions, t, Decode(ParseServer, arrived))
  {
    hide Reflects, Expected, CounterOk, AllFit, Decode;
    PrefixDecodes(t.sent, arrived);
    var d := Decode(ParseServer, arrived);
    var n := |d.messages|;
    MapPrefix(Norm, t.sent, n);
    if n > 0 {
      assert ReflectsAt(cfg, garbage, versions, t.sent, t.origin, n - 1);
      NeverFails(cfg, versions, t.origin[n - 1], View(garbage, t.sent[..n - 1]), t.sent[n - 1], View(garbage, t.sent[..n]));
    }
  }

  /** End to end: whatever part of a client's byte stream has arrived, in whatever chunks, the client
      has decoded exactly the messages that arrived whole, has rejected none, and its state after the
      last of them reflects the server's game: after turn i of game v its replica is the server's
      state after turn i of game v, and the scores of GameEnded are the replica's scores. */
  lemma ClientShowsServer(
    cfg: Settings, draws: Draws, garbage: Garbage, states: seq<System>, steps: seq<Step>, i: nat, k: nat, arrived: Bytes)
    requires cfg.Playable() && Run(cfg, draws, states, steps) && i < |states|
    requires k < |states[i].sessions| && arrived <= EncodeStream(states[i].sessions[k].outward.sent)
    ensures var t := states[i].sessions[k].outward;
            && ArrivedReflects(cfg, garbage, states[i].versions, t, Decode(ParseServer, arrived))
            && (arrived == EncodeStream(t.sent) ==> |Decode(ParseServer, arrived).messages| == |t.sent|)
  {
    hide ArrivedReflects, Run, Decode;
    var t := states[i].sessions[k].outward;
    ClientsFollow(cfg, draws, garbage, states, steps, i);
    ArrivedIsShown(cfg, garbage, states[i].versions, t, arrived);
    if arrived == EncodeStream(t.sent) {
      assert AllFit(t.sent);
      StreamRoundTrip(t.sent);
    }
  }
}
