/** What a client can rely on about the messages it is sent, in terms of the greeting alone: which message
    may follow which, how many turns a game has, who plays, and which positions occur. */
module Ordering {
  import opened Types
  import opened Engine
  import opened ReplicaProof
  import opened History
  import Rules
  import opened Protocol
  import opened ProtocolProof
  import opened OutStream
  import opened Witness
  import opened EndToEnd
  import opened Exactness

  // ---------------------------------------------------------------- the order

  /** Between two games. */
  predicate Idles(m: ServerMessage) {
    m.HelloMessage? || m.GameEnded?
  }

  /** Message m may follow `before` on a stream that began with the greeting h. */
  predicate MayFollow(h: Hello, before: ServerMessage, m: ServerMessage) {
    match m
    case HelloMessage(_) => false
    case AcceptedPlayer(id, _) =>
      id < h.playersCount && if id == 0 then Idles(before) else before.AcceptedPlayer? && before.id == id - 1
    case GameStarted(players) =>
      && (forall i: U8 :: i in players <==> i < h.playersCount)
      && (Idles(before) || (before.AcceptedPlayer? && before.id == h.playersCount - 1))
    case TurnMessage(t) =>
      && t.turn <= h.gameLength
      && (if t.turn == 0 then before.GameStarted? else before.TurnMessage? && before.turn.turn == t.turn - 1)
      && (forall e :: e in t.events ==> Rules.EventWithin(h.sizeX, h.sizeY, e))
    case GameEnded(scores) =>
      && before.TurnMessage? && before.turn.turn == h.gameLength
      && (forall i: U8 :: i in scores <==> i < h.playersCount)
  }

  predicate OrderAt(h: Hello, sent: seq<ServerMessage>, j: nat) {
    0 < j < |sent| ==> MayFollow(h, sent[j - 1], sent[j])
  }

  /** A stream that has begun begins with a greeting and goes on in order. */
  ghost predicate InOrder(sent: seq<ServerMessage>) {
    sent != [] ==> sent[0].HelloMessage? && forall j: nat :: OrderAt(sent[0].hello, sent, j)
  }

  /** The greeting tells the settings, field by field. */
  predicate GreetsWith(cfg: Settings, h: Hello) {
    && h.serverName == cfg.serverName && h.playersCount == cfg.playersCount
    && h.sizeX == cfg.sizeX && h.sizeY == cfg.sizeY && h.gameLength == cfg.gameLength
    && h.explosionRadius == cfg.explosionRadius && h.bombTimer == cfg.bombTimer
  }

  // ---------------------------------------------------------------- every thread keeps it

  /** The last message sent fits the place the thread is at. */
  predicate LastOk(cfg: Settings, t: OutThread)
    requires t.sent != []
  {
    var last := t.sent[|t.sent| - 1];
    match t.pc
    case OutHello => false
    case OutSnapshot => Idles(last)
    case OutCheck(_) => Idles(last)
    case OutAccepted(_, i) =>
      i <= cfg.playersCount && if i == 0 then Idles(last) else last.AcceptedPlayer? && last.id == i - 1
    case OutStarted(_, announced) =>
      if announced && cfg.playersCount > 0 then last.AcceptedPlayer? && last.id == cfg.playersCount - 1 else Idles(last)
    case OutTurns(_, _, i) =>
      i <= cfg.gameLength + 1 && if i == 0 then last.GameStarted? else last.TurnMessage? && last.turn.turn == i - 1
    case OutEnd(_, _) => last.TurnMessage? && last.turn.turn == cfg.gameLength
  }

  ghost predicate Tidy(cfg: Settings, t: OutThread) {
    if t.pc.OutHello? then t.sent == []
    else
      && t.sent != [] && t.sent[0].HelloMessage? && GreetsWith(cfg, t.sent[0].hello)
      && InOrder(t.sent) && LastOk(cfg, t)
  }

  lemma OneMoreInOrder(sent: seq<ServerMessage>, m: ServerMessage)
    requires sent != [] && InOrder(sent) && MayFollow(sent[0].hello, sent[|sent| - 1], m)
    ensures InOrder(sent + [m])
  {
    hide MayFollow;
    forall j: nat ensures OrderAt(sent[0].hello, sent + [m], j) {
      assert OrderAt(sent[0].hello, sent, j);
    }
  }

  /** What a version of a reachable state can contribute to a stream. */
  ghost predicate Sendable(cfg: Settings, ver: Version) {
    && (Full(cfg, ver) ==> forall i: U8 :: i in ver.players <==> i < cfg.playersCount)
    && (ver.finished ==> forall i: U8 :: i in ver.scoreMap <==> i < cfg.playersCount)
    && (forall i: nat :: i < |ver.turns| ==> SendableTurn(cfg, ver.turns[i], i))
  }

  predicate SendableTurn(cfg: Settings, turn: Turn, i: nat) {
    turn.turn == i && forall e :: e in turn.events ==> Rules.EventWithin(cfg.sizeX, cfg.sizeY, e)
  }

  lemma AllSendable(cfg: Settings, draws: Draws, s: System, v: nat)
    requires cfg.Playable() && Inv(cfg, draws, s) && Exists(s, v)
    ensures Sendable(cfg, Ver(s, v))
  {
    hide Inv, ValidTrace, Rules.EventWithin;
    var ver := Ver(s, v);
    VersionTells(cfg, draws, s, v);
    forall i: nat | i < |ver.turns| ensures SendableTurn(cfg, ver.turns[i], i) {
      TurnNumbers(cfg, draws, ver.Game(), i);
      forall e | e in ver.turns[i].events ensures Rules.EventWithin(cfg.sizeX, cfg.sizeY, e) {
        Rules.MessagesStayOnBoard(cfg, draws, ver.Game(), i, e);
      }
    }
    if ver.finished {
      TurnNumbers(cfg, draws, ver.Game(), cfg.gameLength);
    }
  }

  lemma TidyStep(cfg: Settings, s: System, s': System, k: nat)
    requires OutStep(cfg, s, s', k) && cfg.gameLength <= 0xFFFE && Tidy(cfg, s.sessions[k].outward)
    requires forall v: nat :: Exists(s, v) ==> Sendable(cfg, Ver(s, v))
    ensures Tidy(cfg, s'.sessions[k].outward)
  {
    hide InOrder, Rules.EventWithin;
    var t, t' := s.sessions[k].outward, s'.sessions[k].outward;
    if t.pc.OutHello? {
      assert t'.sent == [t'.sent[0]];
      FirstInOrder(t'.sent[0]);
    } else if t'.sent != t.sent {
      var m := t'.sent[|t.sent|];
      assert t'.sent == t.sent + [m];
      if t.pc.OutTurns? {
        assert SendableTurn(cfg, Ver(s, t.pc.v).turns[t.pc.turn], t.pc.turn);
      }
      OneMoreInOrder(t.sent, m);
    }
  }

  lemma FirstInOrder(m: ServerMessage)
    requires m.HelloMessage?
    ensures InOrder([m])
  {
  }

  lemma NewThreadTidy(cfg: Settings)
    ensures Tidy(cfg, OutThread(OutHello, [], [], []))
  {
  }

  lemma {:induction false} RunTidy(cfg: Settings, draws: Draws, states: seq<System>, steps: seq<Step>, i: nat)
    requires cfg.Playable() && Run(cfg, draws, states, steps) && i < |states| && cfg.gameLength <= 0xFFFE
    ensures forall k :: 0 <= k < |states[i].sessions| ==> Tidy(cfg, states[i].sessions[k].outward)
  {
    hide Inv, Do, Tidy, Sendable;
    if i > 0 {
      RunTidy(cfg, draws, states, steps, i - 1);
      RunKeeps(cfg, draws, states, steps, i - 1);
      assert RunStep(cfg, draws, states, steps, i - 1);
      var s, s', step := states[i - 1], states[i], steps[i - 1];
      Outward(cfg, draws, s, step, s');
      forall v: nat | Exists(s, v) ensures Sendable(cfg, Ver(s, v)) {
        AllSendable(cfg, draws, s, v);
      }
      forall k | 0 <= k < |s'.sessions| ensures Tidy(cfg, s'.sessions[k].outward) {
        if step == Out(k) {
          TidyStep(cfg, s, s', k);
        } else if k >= |s.sessions| {
          NewThreadTidy(cfg);
        }
      }
    }
  }

  // ---------------------------------------------------------------- what the order means

  /** The game that ends at position e: it began with a start message naming the players 0..n-1, and all
      turns 0..gameLength lie in between, each once and in order. */
  ghost predicate WholeGame(h: Hello, sent: seq<ServerMessage>, e: nat) {
    && h.gameLength + 2 <= e < |sent| && sent[e].GameEnded?
    && var start := e - h.gameLength - 2;
    && sent[start].GameStarted? && |sent[start].players| == h.playersCount
    && forall j :: start < j < e ==> sent[j].TurnMessage? && sent[j].turn.turn == j - start - 1
  }

  lemma {:induction false} TurnsBefore(h: Hello, sent: seq<ServerMessage>, j: nat, i: nat)
    requires (forall x: nat :: OrderAt(h, sent, x)) && sent != [] && sent[0].HelloMessage?
    requires j < |sent| && sent[j].TurnMessage? && i <= sent[j].turn.turn
    ensures sent[j].turn.turn < j && sent[j - sent[j].turn.turn - 1].GameStarted?
    ensures sent[j - i].TurnMessage? && sent[j - i].turn.turn == sent[j].turn.turn - i
    decreases j
  {
    hide Rules.EventWithin;
    assert OrderAt(h, sent, j);
    if sent[j].turn.turn > 0 {
      TurnsBefore(h, sent, j - 1, if i > 0 then i - 1 else 0);
    }
  }

  lemma PlayersCounted(h: Hello, players: map<U8, Player>)
    requires forall i: U8 :: i in players <==> i < h.playersCount
    ensures |players| == h.playersCount
  {
    assert players.Keys == Ids(h.playersCount);
  }

  lemma EndsAreWhole(h: Hello, sent: seq<ServerMessage>, e: nat)
    requires (forall x: nat :: OrderAt(h, sent, x)) && sent != [] && sent[0].HelloMessage?
    requires e < |sent| && sent[e].GameEnded?
    ensures WholeGame(h, sent, e)
  {
    hide Rules.EventWithin;
    assert e > 0;
    assert OrderAt(h, sent, e);
    TurnsBefore(h, sent, e - 1, 0);
    var start := e - h.gameLength - 2;
    assert start > 0;
    assert OrderAt(h, sent, start);
    PlayersCounted(h, sent[start].players);
    forall j | start < j < e ensures sent[j].TurnMessage? && sent[j].turn.turn == j - start - 1 {
      TurnsBefore(h, sent, e - 1, e - 1 - j);
    }
  }

  /** What the greeting promises: every stream that has begun greets with the settings; whatever follows
      is in order; every game that has ended has exactly the turns 0..gameLength of the greeting and its
      number of players, and no turn names a position off the greeting's board. */
  ghost predicate Promised(cfg: Settings, sent: seq<ServerMessage>) {
    sent != [] ==>
      && sent[0].HelloMessage? && GreetsWith(cfg, sent[0].hello) && InOrder(sent)
      && forall e: nat :: e < |sent| && sent[e].GameEnded? ==> WholeGame(sent[0].hello, sent, e)
  }

  ghost predicate AllPromised(cfg: Settings, s: System) {
    forall k :: 0 <= k < |s.sessions| ==> Promised(cfg, s.sessions[k].outward.sent)
  }

  lemma PromisedWhenReached(cfg: Settings, draws: Draws, s: System)
    requires cfg.Playable() && Reach(cfg, draws, s) && cfg.gameLength <= 0xFFFE
    ensures AllPromised(cfg, s)
  {
    hide Run, WholeGame;
    var states, steps :| EndsIn(cfg, draws, states, steps, s);
    RunSize(cfg, draws, states, steps);
    RunTidy(cfg, draws, states, steps, |states| - 1);
    forall k | 0 <= k < |s.sessions| ensures Promised(cfg, s.sessions[k].outward.sent) {
      var sent := s.sessions[k].outward.sent;
      assert Tidy(cfg, s.sessions[k].outward);
      forall e: nat | e < |sent| && sent[e].GameEnded? ensures WholeGame(sent[0].hello, sent, e) {
        EndsAreWhole(sent[0].hello, sent, e);
      }
    }
  }

  lemma WrappedIsOutOfOrder(cfg: Settings, draws: Draws, s: System, k: nat)
    requires cfg.Playable() && Wrapped(cfg, draws, s, k)
    ensures !AllPromised(cfg, s)
  {
    hide GameInit;
    var sent := s.sessions[k].outward.sent;
    var j: nat := 0x1_0002;
    assert sent[j].turn.turn == 0 && sent[j - 1].TurnMessage?;
    assert !OrderAt(sent[0].hello, sent, j);
    assert !Promised(cfg, sent);
  }

  /** The greeting keeps its promises to every client in every reachable state exactly if game_length is
      at most 65534. */
  lemma GreetingKeepsItsWord(cfg: Settings)
    requires cfg.Playable()
    ensures (forall draws: Draws, s :: Reach(cfg, draws, s) ==> AllPromised(cfg, s)) <==> cfg.gameLength <= 0xFFFE
  {
    hide Reach, AllPromised, Wrapped;
    if cfg.gameLength <= 0xFFFE {
      forall draws: Draws, s | Reach(cfg, draws, s) ensures AllPromised(cfg, s) {
        PromisedWhenReached(cfg, draws, s);
      }
    } else {
      var draws := (n: nat) => 0;
      var s, k := CounterWraps(cfg, draws);
      WrappedIsOutOfOrder(cfg, draws, s, k);
    }
  }

  // ---------------------------------------------------------------- who is told the players

  /** When the thread looked, with version v at hand, the game had not started exactly if it announces. */
  ghost predicate Decided(states: seq<System>, k: nat, i: nat, v: nat, announced: bool) {
    exists c :: 0 <= c < i < |states| && k < |states[c].sessions|
                && states[c].sessions[k].outward.pc == OutCheck(v) && states[c].gameStarted != announced
  }

  ghost predicate Decisions(states: seq<System>, k: nat, i: nat, t: OutThread) {
    && (forall x :: 0 <= x < |t.visits| ==> Decided(states, k, i, t.visits[x].version, t.visits[x].announced))
    && match t.pc
       case OutAccepted(v, _) => Decided(states, k, i, v, true)
       case OutStarted(v, announced) => Decided(states, k, i, v, announced)
       case OutTurns(v, announced, _) => Decided(states, k, i, v, announced)
       case OutEnd(v, announced) => Decided(states, k, i, v, announced)
       case _ => true
  }

  lemma DecidedLonger(states: seq<System>, k: nat, i: nat, v: nat, announced: bool)
    requires i + 1 < |states| && Decided(states, k, i, v, announced)
    ensures Decided(states, k, i + 1, v, announced)
  {
  }

  lemma DecisionsStay(states: seq<System>, k: nat, i: nat, t: OutThread)
    requires i + 1 < |states| && Decisions(states, k, i, t)
    ensures Decisions(states, k, i + 1, t)
  {
    hide Decided;
    forall v: nat, a: bool | Decided(states, k, i, v, a) ensures Decided(states, k, i + 1, v, a) {
      DecidedLonger(states, k, i, v, a);
    }
  }

  lemma DecisionsNext(cfg: Settings, states: seq<System>, k: nat, i: nat)
    requires i + 1 < |states| && OutStep(cfg, states[i], states[i + 1], k)
    requires Decisions(states, k, i + 1, states[i].sessions[k].outward)
    ensures Decisions(states, k, i + 1, states[i + 1].sessions[k].outward)
  {
    hide Full, InTurnLoop, NextTurn;
    var t, t' := states[i].sessions[k].outward, states[i + 1].sessions[k].outward;
    if t.pc.OutCheck? {
      assert Decided(states, k, i + 1, t.pc.v, !states[i].gameStarted);
    }
    hide Decided;
  }

  /** Every client is listed the players of a game before its start message exactly if the game had not
      started when its thread looked. */
  lemma {:induction false} AnnouncedWhenLooked(cfg: Settings, draws: Draws, states: seq<System>, steps: seq<Step>, i: nat)
    requires cfg.Playable() && Run(cfg, draws, states, steps) && i < |states|
    ensures forall k: nat :: k < |states[i].sessions| ==> Decisions(states, k, i, states[i].sessions[k].outward)
  {
    hide Do, Decisions, OutStep;
    if i == 0 {
    } else {
      AnnouncedWhenLooked(cfg, draws, states, steps, i - 1);
      assert RunStep(cfg, draws, states, steps, i - 1);
      var s, s', step := states[i - 1], states[i], steps[i - 1];
      Outward(cfg, draws, s, step, s');
      forall k: nat | k < |s'.sessions| ensures Decisions(states, k, i, s'.sessions[k].outward) {
        if k < |s.sessions| {
          DecisionsStay(states, k, i - 1, s.sessions[k].outward);
          if step == Out(k) {
            DecisionsNext(cfg, states, k, i - 1);
          }
        } else {
          NothingDecided(states, k, i);
        }
      }
    }
  }

  lemma NothingDecided(states: seq<System>, k: nat, i: nat)
    ensures Decisions(states, k, i, OutThread(OutHello, [], [], []))
  {
  }
}
