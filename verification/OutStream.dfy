/** The stream an out-thread sends: Hello, then whole games in the order in which they were played,
    each taken from one version of the containers and none of them twice. */
module OutStream {
  import opened Types
  import opened Engine
  import opened ReplicaProof
  import opened Containers
  import opened Protocol
  import opened ProtocolProof
  import opened Growth

  // ---------------------------------------------------------------- the shape

  /** The players 0..n-1 have joined. */
  predicate Has(players: map<U8, Player>, n: nat) {
    n <= 0x100 && forall i: U8 :: i < n ==> i in players
  }

  function Announcements(players: map<U8, Player>, n: nat): (ms: seq<ServerMessage>)
    requires Has(players, n)
    ensures |ms| == n
  {
    if n == 0 then [] else Announcements(players, n - 1) + [AcceptedPlayer(n - 1, players[n - 1])]
  }

  function Turns(turns: seq<Turn>): (ms: seq<ServerMessage>)
    ensures |ms| == |turns|
  {
    if turns == [] then [] else Turns(turns[..|turns| - 1]) + [TurnMessage(turns[|turns| - 1])]
  }

  function Opening(cfg: Settings, ver: Version, announced: bool): seq<ServerMessage>
    requires announced ==> Has(ver.players, cfg.playersCount)
  {
    if announced then Announcements(ver.players, cfg.playersCount) else []
  }

  /** A game up to and including turn i - 1. */
  function Playing(cfg: Settings, ver: Version, announced: bool, i: nat): seq<ServerMessage>
    requires Has(ver.players, cfg.playersCount) && i <= |ver.turns|
  {
    Opening(cfg, ver, announced) + [GameStarted(ver.players)] + Turns(ver.turns[..i])
  }

  /** A whole game: all the players or none of them, the start, every turn, and the scores. */
  function Block(cfg: Settings, ver: Version, announced: bool): seq<ServerMessage>
    requires Over(cfg, ver)
  {
    Playing(cfg, ver, announced, cfg.gameLength + 1) + [GameEnded(ver.scoreMap)]
  }

  predicate Over(cfg: Settings, ver: Version) {
    ver.finished && Has(ver.players, cfg.playersCount) && Complete(cfg, ver)
  }

  predicate OverAt(cfg: Settings, versions: seq<Version>, v: nat) {
    1 <= v <= |versions| && Over(cfg, versions[v - 1])
  }

  predicate AllOver(cfg: Settings, versions: seq<Version>, visits: seq<Visit>) {
    forall i :: 0 <= i < |visits| ==> OverAt(cfg, versions, visits[i].version)
  }

  predicate Increasing(visits: seq<Visit>) {
    forall i, j :: 0 <= i < j < |visits| ==> visits[i].version < visits[j].version
  }

  predicate Before(visits: seq<Visit>, v: nat) {
    forall i :: 0 <= i < |visits| ==> visits[i].version < v
  }

  function Blocks(cfg: Settings, versions: seq<Version>, visits: seq<Visit>): seq<ServerMessage>
    requires AllOver(cfg, versions, visits)
  {
    if visits == [] then []
    else
      var last := visits[|visits| - 1];
      assert OverAt(cfg, versions, last.version);
      Blocks(cfg, versions, visits[..|visits| - 1]) + Block(cfg, versions[last.version - 1], last.announced)
  }

  /** What the thread has sent of the game it is at. */
  function Partial(cfg: Settings, versions: seq<Version>, pc: OutCounter): seq<ServerMessage>
    requires CounterOk(cfg, versions, pc)
  {
    match pc
    case OutHello => []
    case OutSnapshot => []
    case OutCheck(_) => []
    case OutAccepted(v, i) => Announcements(versions[v - 1].players, i)
    case OutStarted(v, announced) => Opening(cfg, versions[v - 1], announced)
    case OutTurns(v, announced, i) => Playing(cfg, versions[v - 1], announced, i)
    case OutEnd(v, announced) => Playing(cfg, versions[v - 1], announced, cfg.gameLength + 1)
  }

  predicate CounterOk(cfg: Settings, versions: seq<Version>, pc: OutCounter) {
    match pc
    case OutHello => true
    case OutSnapshot => true
    case OutCheck(v) => 1 <= v <= |versions|
    case OutAccepted(v, i) => 1 <= v <= |versions| && i <= cfg.playersCount && Has(versions[v - 1].players, i)
    case OutStarted(v, announced) =>
      1 <= v <= |versions| && (announced ==> Has(versions[v - 1].players, cfg.playersCount))
    case OutTurns(v, _, i) =>
      && 1 <= v <= |versions| && i <= cfg.gameLength + 1 && i <= |versions[v - 1].turns|
      && Has(versions[v - 1].players, cfg.playersCount) && Full(cfg, versions[v - 1])
    case OutEnd(v, _) =>
      && 1 <= v <= |versions| && cfg.gameLength + 1 <= |versions[v - 1].turns|
      && Has(versions[v - 1].players, cfg.playersCount) && Full(cfg, versions[v - 1])
  }

  /** The version the thread is at lies after all the games it has sent. */
  predicate Fresher(visits: seq<Visit>, pc: OutCounter) {
    match pc
    case OutHello => true
    case OutSnapshot => true
    case OutCheck(v) => Before(visits, v)
    case OutAccepted(v, _) => Before(visits, v)
    case OutStarted(v, _) => Before(visits, v)
    case OutTurns(v, _, _) => Before(visits, v)
    case OutEnd(v, _) => Before(visits, v)
  }

  /** The greeting of a server with these settings. */
  function GreetingOf(cfg: Settings): Hello {
    Hello(cfg.serverName, cfg.playersCount, cfg.sizeX, cfg.sizeY, cfg.gameLength, cfg.explosionRadius, cfg.bombTimer)
  }

  predicate Shaped(cfg: Settings, versions: seq<Version>, t: OutThread) {
    && CounterOk(cfg, versions, t.pc) && AllOver(cfg, versions, t.visits)
    && if t.pc.OutHello? then t.sent == [] && t.visits == []
       else t.sent == [HelloMessage(GreetingOf(cfg))] + Blocks(cfg, versions, t.visits) + Partial(cfg, versions, t.pc)
  }

  predicate OutOk(cfg: Settings, versions: seq<Version>, t: OutThread) {
    Shaped(cfg, versions, t) && Increasing(t.visits) && Fresher(t.visits, t.pc)
  }

  /** A stream a client may get: nothing yet, or Hello, whole games with increasing versions, and a
      part of one later game. */
  ghost predicate WellShaped(cfg: Settings, versions: seq<Version>, sent: seq<ServerMessage>) {
    exists pc, visits :: OutOk(cfg, versions, OutThread(pc, sent, [], visits))
  }

  lemma OutOkIsWellShaped(cfg: Settings, versions: seq<Version>, t: OutThread)
    requires OutOk(cfg, versions, t)
    ensures WellShaped(cfg, versions, t.sent)
  {
    assert OutOk(cfg, versions, OutThread(t.pc, t.sent, [], t.visits));
  }

  // ---------------------------------------------------------------- stability

  lemma {:induction false} AnnouncementsStable(was: map<U8, Player>, now: map<U8, Player>, n: nat)
    requires Has(was, n) && forall id :: id in was ==> id in now && now[id] == was[id]
    ensures Has(now, n) && Announcements(now, n) == Announcements(was, n)
  {
    if n > 0 {
      AnnouncementsStable(was, now, n - 1);
    }
  }

  lemma OverStable(cfg: Settings, was: seq<Version>, now: seq<Version>, v: nat, announced: bool)
    requires Grows(cfg, was, now) && OverAt(cfg, was, v)
    ensures OverAt(cfg, now, v) && Block(cfg, now[v - 1], announced) == Block(cfg, was[v - 1], announced)
  {
    assert VersionGrows(cfg, was[v - 1], now[v - 1]);
    assert was[v - 1].Game().turns == now[v - 1].Game().turns;
  }

  lemma {:induction false} BlocksStable(cfg: Settings, was: seq<Version>, now: seq<Version>, visits: seq<Visit>)
    requires Grows(cfg, was, now) && AllOver(cfg, was, visits)
    ensures AllOver(cfg, now, visits) && Blocks(cfg, now, visits) == Blocks(cfg, was, visits)
  {
    hide Grows, Block, Over;
    if visits != [] {
      var front, last := visits[..|visits| - 1], visits[|visits| - 1];
      BlocksStable(cfg, was, now, front);
      assert OverAt(cfg, was, last.version);
      OverStable(cfg, was, now, last.version, last.announced);
      forall i | 0 <= i < |visits| ensures OverAt(cfg, now, visits[i].version) {
        if i < |front| {
          assert OverAt(cfg, now, front[i].version);
        }
      }
    }
  }

  lemma PartialStable(cfg: Settings, was: seq<Version>, now: seq<Version>, pc: OutCounter)
    requires Grows(cfg, was, now) && CounterOk(cfg, was, pc)
    ensures CounterOk(cfg, now, pc) && Partial(cfg, now, pc) == Partial(cfg, was, pc)
  {
    if !pc.OutHello? && !pc.OutSnapshot? {
      var v := pc.v - 1;
      assert VersionGrows(cfg, was[v], now[v]);
      match pc
      case OutAccepted(_, i) => AnnouncementsStable(was[v].players, now[v].players, i);
      case OutStarted(_, announced) =>
        if announced { AnnouncementsStable(was[v].players, now[v].players, cfg.playersCount); }
      case OutTurns(_, _, i) => assert was[v].turns[..i] == now[v].turns[..i];
      case OutEnd(_, _) => assert was[v].turns[..cfg.gameLength + 1] == now[v].turns[..cfg.gameLength + 1];
      case _ =>
    }
  }

  lemma OutStable(cfg: Settings, was: seq<Version>, now: seq<Version>, t: OutThread)
    requires Grows(cfg, was, now) && OutOk(cfg, was, t)
    ensures OutOk(cfg, now, t)
  {
    hide Grows, AllOver, CounterOk, Fresher, Increasing, Partial;
    BlocksStable(cfg, was, now, t.visits);
    PartialStable(cfg, was, now, t.pc);
  }

  // ---------------------------------------------------------------- steps

  lemma FullHas(cfg: Settings, ver: Version)
    requires Registered(ver.players, cfg.playersCount) && Full(cfg, ver)
    ensures Has(ver.players, cfg.playersCount)
  {
  }

  /** One more message, and the thread is at pc' of the same game. */
  lemma Extended(cfg: Settings, versions: seq<Version>, t: OutThread, t': OutThread, more: seq<ServerMessage>)
    requires Shaped(cfg, versions, t) && !t.pc.OutHello? && !t'.pc.OutHello? && t'.visits == t.visits
    requires CounterOk(cfg, versions, t'.pc) && t'.sent == t.sent + more
    requires Partial(cfg, versions, t'.pc) == Partial(cfg, versions, t.pc) + more
    ensures Shaped(cfg, versions, t')
  {
    hide CounterOk, Partial, AllOver;
  }

  /** The end of a game completes its block. */
  lemma Completed(cfg: Settings, versions: seq<Version>, t: OutThread, t': OutThread)
    requires OutOk(cfg, versions, t) && t.pc.OutEnd?
    requires Over(cfg, versions[t.pc.v - 1])
    requires t'.pc == OutSnapshot && t'.visits == t.visits + [Visit(t.pc.v, t.pc.announced)]
    requires t'.sent == t.sent + [GameEnded(versions[t.pc.v - 1].scoreMap)]
    ensures OutOk(cfg, versions, t')
  {
    hide Playing, Over;
    var v, a := t.pc.v, t.pc.announced;
    assert OverAt(cfg, versions, v);
    assert AllOver(cfg, versions, t'.visits);
    assert t'.visits[..|t'.visits| - 1] == t.visits;
    assert Blocks(cfg, versions, t'.visits) == Blocks(cfg, versions, t.visits) + Block(cfg, versions[v - 1], a);
  }

  lemma AcceptedNext(cfg: Settings, versions: seq<Version>, t: OutThread, t': OutThread)
    requires OutOk(cfg, versions, t) && t.pc.OutAccepted? && t.pc.next < cfg.playersCount
    requires var players := versions[t.pc.v - 1].players;
             && t.pc.next in players
             && t' == Sending(t, AcceptedPlayer(t.pc.next, players[t.pc.next]), t.pc.v, OutAccepted(t.pc.v, t.pc.next + 1))
    ensures OutOk(cfg, versions, t')
  {
    Extended(cfg, versions, t, t', [t'.sent[|t.sent|]]);
  }

  lemma StartedNext(cfg: Settings, versions: seq<Version>, t: OutThread, t': OutThread)
    requires OutOk(cfg, versions, t) && t.pc.OutStarted?
    requires var ver := versions[t.pc.v - 1];
             && Full(cfg, ver) && Has(ver.players, cfg.playersCount)
             && t' == Sending(t, GameStarted(ver.players), t.pc.v, OutTurns(t.pc.v, t.pc.announced, 0))
    ensures OutOk(cfg, versions, t')
  {
    var ver := versions[t.pc.v - 1];
    assert ver.turns[..0] == [];
    assert Playing(cfg, ver, t.pc.announced, 0) == Opening(cfg, ver, t.pc.announced) + [GameStarted(ver.players)];
    Extended(cfg, versions, t, t', [GameStarted(ver.players)]);
  }

  lemma TurnNext(cfg: Settings, versions: seq<Version>, t: OutThread, t': OutThread)
    requires OutOk(cfg, versions, t) && t.pc.OutTurns? && t.pc.turn < cfg.gameLength + 1 <= 0xFFFF
    requires var ver := versions[t.pc.v - 1];
             && t.pc.turn < |ver.turns|
             && t' == Sending(t, TurnMessage(ver.turns[t.pc.turn]), t.pc.v, OutTurns(t.pc.v, t.pc.announced, NextTurn(t.pc.turn)))
    ensures OutOk(cfg, versions, t')
  {
    var ver, a, i := versions[t.pc.v - 1], t.pc.announced, t.pc.turn;
    assert ver.turns[..i + 1][..i] == ver.turns[..i];
    assert Playing(cfg, ver, a, i + 1) == Playing(cfg, ver, a, i) + [TurnMessage(ver.turns[i])];
    Extended(cfg, versions, t, t', [TurnMessage(ver.turns[i])]);
  }

  /** The thread moves on without a message. */
  lemma QuietNext(cfg: Settings, versions: seq<Version>, t: OutThread, pc: OutCounter)
    requires OutOk(cfg, versions, t) && !t.pc.OutHello? && !pc.OutHello?
    requires CounterOk(cfg, versions, pc) && Fresher(t.visits, pc)
    requires Partial(cfg, versions, pc) == Partial(cfg, versions, t.pc)
    ensures OutOk(cfg, versions, t.(pc := pc))
  {
    hide CounterOk, AllOver, Increasing, Fresher;
    Extended(cfg, versions, t, t.(pc := pc), []);
  }

  lemma VersionFacts(cfg: Settings, draws: Draws, s: System, v: nat)
    requires cfg.Playable() && Inv(cfg, draws, s) && Exists(s, v)
    ensures var ver := Ver(s, v);
            && |ver.turns| <= cfg.gameLength + 1
            && (Full(cfg, ver) ==> Has(ver.players, cfg.playersCount))
            && (ver.finished ==> Over(cfg, ver) && v < |s.versions|)
  {
    assert Sound(cfg, draws, s, v);
    if Full(cfg, Ver(s, v)) {
      FullHas(cfg, Ver(s, v));
    }
    assert Ver(s, v).Game().turns == Ver(s, v).turns;
  }

  lemma CurrentIsFresh(cfg: Settings, draws: Draws, s: System, visits: seq<Visit>)
    requires cfg.Playable() && Inv(cfg, draws, s) && AllOver(cfg, s.versions, visits)
    ensures Before(visits, |s.versions|)
  {
    hide Inv;
    forall i | 0 <= i < |visits| ensures visits[i].version < |s.versions| {
      assert OverAt(cfg, s.versions, visits[i].version);
      VersionFacts(cfg, draws, s, visits[i].version);
    }
  }

  /** The choices the thread makes without a message, at pc' next. */
  predicate Silent(cfg: Settings, versions: seq<Version>, pc: OutCounter, pc': OutCounter) {
    match pc
    case OutSnapshot => pc' == OutCheck(|versions|)
    case OutCheck(v) => pc' == OutStarted(v, false) || pc' == OutAccepted(v, 0)
    case OutAccepted(v, i) => i >= cfg.playersCount && pc' == OutStarted(v, true)
    case OutTurns(v, announced, i) => i >= cfg.gameLength + 1 && pc' == OutEnd(v, announced)
    case _ => false
  }

  lemma QuietStepIsSilent(cfg: Settings, s: System, s': System, k: nat)
    requires OutStep(cfg, s, s', k) && s'.sessions[k].outward.sent == s.sessions[k].outward.sent
    ensures var t, t' := s.sessions[k].outward, s'.sessions[k].outward;
            t' == t.(pc := t'.pc) && Silent(cfg, s.versions, t.pc, t'.pc)
  {
  }

  lemma StepSendsMessage(cfg: Settings, s: System, s': System, k: nat)
    requires OutStep(cfg, s, s', k)
    ensures var t, t' := s.sessions[k].outward, s'.sessions[k].outward;
            match t.pc
            case OutStarted(v, a) =>
              && Exists(s, v) && Full(cfg, Ver(s, v))
              && t' == Sending(t, GameStarted(Ver(s, v).players), v, OutTurns(v, a, 0))
            case OutTurns(v, a, i) =>
              i < cfg.gameLength + 1 ==>
                && Exists(s, v) && i < |Ver(s, v).turns|
                && t' == Sending(t, TurnMessage(Ver(s, v).turns[i]), v, OutTurns(v, a, NextTurn(i)))
            case OutEnd(v, a) =>
              && Exists(s, v) && Ver(s, v).finished
              && t' == Sending(t, GameEnded(Ver(s, v).scoreMap), v, OutSnapshot).(visits := t.visits + [Visit(v, a)])
            case _ => true
  {
  }

  lemma SilentNext(cfg: Settings, versions: seq<Version>, t: OutThread, pc: OutCounter)
    requires OutOk(cfg, versions, t) && Silent(cfg, versions, t.pc, pc) && versions != []
    requires Before(t.visits, |versions|) || !t.pc.OutSnapshot?
    ensures OutOk(cfg, versions, t.(pc := pc))
  {
    assert CounterOk(cfg, versions, pc);
    assert Partial(cfg, versions, pc) == Partial(cfg, versions, t.pc);
    QuietNext(cfg, versions, t, pc);
  }

  lemma SilentAdvance(cfg: Settings, draws: Draws, s: System, s': System, k: nat)
    requires cfg.Playable() && Inv(cfg, draws, s) && OutStep(cfg, s, s', k) && cfg.gameLength <= 0xFFFE
    requires OutOk(cfg, s.versions, s.sessions[k].outward)
    requires s'.sessions[k].outward.sent == s.sessions[k].outward.sent
    ensures OutOk(cfg, s.versions, s'.sessions[k].outward)
  {
    var t, t' := s.sessions[k].outward, s'.sessions[k].outward;
    assert |s.versions| >= 1;
    CurrentIsFresh(cfg, draws, s, t.visits);
    hide Inv, OutOk, Before;
    QuietStepIsSilent(cfg, s, s', k);
    hide OutStep;
    SilentNext(cfg, s.versions, t, t'.pc);
  }

  lemma FirstMessage(cfg: Settings, versions: seq<Version>, t: OutThread)
    requires t.pc.OutHello? && OutOk(cfg, versions, t)
    ensures OutOk(cfg, versions, Sending(t, HelloMessage(cfg.ToHello()), 0, OutSnapshot))
  {
    assert Blocks(cfg, versions, []) == [];
  }

  lemma SpokenAdvance(cfg: Settings, draws: Draws, s: System, s': System, k: nat)
    requires cfg.Playable() && Inv(cfg, draws, s) && OutStep(cfg, s, s', k) && cfg.gameLength <= 0xFFFE
    requires OutOk(cfg, s.versions, s.sessions[k].outward)
    requires s'.sessions[k].outward.sent != s.sessions[k].outward.sent
    ensures OutOk(cfg, s.versions, s'.sessions[k].outward)
  {
    hide Inv, OutOk;
    var t, t' := s.sessions[k].outward, s'.sessions[k].outward;
    match t.pc
    case OutHello => FirstMessage(cfg, s.versions, t);
    case OutAccepted(v, i) => AcceptedNext(cfg, s.versions, t, t');
    case OutStarted(v, a) =>
      VersionFacts(cfg, draws, s, v);
      StartedNext(cfg, s.versions, t, t');
    case OutTurns(v, a, i) => TurnNext(cfg, s.versions, t, t');
    case OutEnd(v, a) =>
      VersionFacts(cfg, draws, s, v);
      Completed(cfg, s.versions, t, t');
    case _ =>
  }

  // ---------------------------------------------------------------- runs

  lemma NewThreadOk(cfg: Settings, versions: seq<Version>)
    ensures OutOk(cfg, versions, OutThread(OutHello, [], [], []))
  {
  }

  ghost predicate OutsOk(cfg: Settings, s: System) {
    forall k :: 0 <= k < |s.sessions| ==> OutOk(cfg, s.versions, s.sessions[k].outward)
  }

  lemma OutsAdvance(cfg: Settings, draws: Draws, s: System, step: Step, s': System)
    requires cfg.Playable() && Inv(cfg, draws, s) && Do(cfg, draws, s, step, s') && cfg.gameLength <= 0xFFFE
    requires OutsOk(cfg, s)
    ensures OutsOk(cfg, s')
  {
    hide Inv, OutOk, Grows;
    StepGrows(cfg, draws, s, step, s');
    Outward(cfg, draws, s, step, s');
    forall k | 0 <= k < |s'.sessions| ensures OutOk(cfg, s'.versions, s'.sessions[k].outward) {
      if step == Out(k) {
        hide Do;
        assert OutOk(cfg, s.versions, s.sessions[k].outward);
        if s'.sessions[k].outward.sent == s.sessions[k].outward.sent {
          SilentAdvance(cfg, draws, s, s', k);
        } else {
          SpokenAdvance(cfg, draws, s, s', k);
        }
      } else if k < |s.sessions| {
        assert OutOk(cfg, s.versions, s.sessions[k].outward);
        OutStable(cfg, s.versions, s'.versions, s.sessions[k].outward);
      } else {
        NewThreadOk(cfg, s'.versions);
      }
    }
  }

  /** Only its own steps change an out-thread, and those change no container. */
  lemma Outward(cfg: Settings, draws: Draws, s: System, step: Step, s': System)
    requires cfg.Playable() && Do(cfg, draws, s, step, s')
    ensures |s.sessions| <= |s'.sessions|
    ensures step.Out? ==> OutStep(cfg, s, s', step.k) && s'.versions == s.versions && |s'.sessions| == |s.sessions|
    ensures forall k :: 0 <= k < |s.sessions| && step != Out(k) ==> s'.sessions[k].outward == s.sessions[k].outward
    ensures forall k :: |s.sessions| <= k < |s'.sessions| ==> s'.sessions[k].outward == OutThread(OutHello, [], [], [])
  {
    hide TraceStep, Full, Started, Appended, Admit, Updated, Cleared, GameInit, NewVersion;
  }

  /** The shape of every client's stream in every run, at every moment: Hello, then blocks of finished
      games with strictly increasing versions, then the part already sent of one later game. */
  lemma {:induction false} StreamShape(cfg: Settings, draws: Draws, states: seq<System>, steps: seq<Step>, i: nat)
    requires cfg.Playable() && Run(cfg, draws, states, steps) && i < |states| && cfg.gameLength <= 0xFFFE
    ensures forall k :: 0 <= k < |states[i].sessions| ==> OutOk(cfg, states[i].versions, states[i].sessions[k].outward)
  {
    hide Inv, Do, OutOk;
    if i > 0 {
      StreamShape(cfg, draws, states, steps, i - 1);
      RunKeeps(cfg, draws, states, steps, i - 1);
      assert RunStep(cfg, draws, states, steps, i - 1);
      OutsAdvance(cfg, draws, states[i - 1], steps[i - 1], states[i]);
    }
  }

  // ---------------------------------------------------------------- the 16-bit turn counter

  /** No value of the 16-bit counter ends the loop exactly when game_length is 65535. */
  lemma TurnLoopIsEndless(cfg: Settings)
    ensures (forall turn: U16 :: InTurnLoop(cfg, turn)) <==> cfg.gameLength == 0xFFFF
  {
    if cfg.gameLength < 0xFFFF {
      assert !InTurnLoop(cfg, cfg.gameLength + 1);
    }
  }

  predicate Endless(t: OutThread) {
    && !t.pc.OutEnd? && t.visits == []
    && forall m :: m in t.sent ==> !m.GameEnded?
  }

  lemma NewThreadEndless()
    ensures Endless(OutThread(OutHello, [], [], []))
  {
  }

  lemma EndlessStep(cfg: Settings, s: System, s': System, k: nat)
    requires OutStep(cfg, s, s', k) && cfg.gameLength == 0xFFFF && Endless(s.sessions[k].outward)
    ensures Endless(s'.sessions[k].outward)
  {
  }

  /** With game_length 65535 no client is ever told that a game has ended: the counter wraps after the
      last turn and the thread starts again with turn 0 of the same game. */
  lemma {:induction false} EndlessGame(cfg: Settings, draws: Draws, states: seq<System>, steps: seq<Step>, i: nat)
    requires cfg.Playable() && Run(cfg, draws, states, steps) && i < |states| && cfg.gameLength == 0xFFFF
    ensures forall k :: 0 <= k < |states[i].sessions| ==> Endless(states[i].sessions[k].outward)
  {
    hide Do, Endless;
    if i == 0 {
    } else {
      EndlessGame(cfg, draws, states, steps, i - 1);
      assert RunStep(cfg, draws, states, steps, i - 1);
      var s, s', step := states[i - 1], states[i], steps[i - 1];
      Outward(cfg, draws, s, step, s');
      forall k | 0 <= k < |s'.sessions| ensures Endless(s'.sessions[k].outward) {
        if step == Out(k) {
          EndlessStep(cfg, s, s', k);
        } else if k >= |s.sessions| {
          NewThreadEndless();
        }
      }
    }
  }
}
