/** The bodies of the server's three kinds of threads (`server.cpp`), on the game, container and handler
    objects: a whole game of the main thread, one message of an in-thread, one game of an out-thread. */
module Server {
  import opened Types
  import opened Engine
  import opened ReplicaProof
  import opened Game
  import opened Containers
  import opened Codec
  import opened Streams
  import Gui
  import opened Handler
  import opened Messages
  import opened Protocol
  import opened ProtocolProof
  import opened OutStream

  /** Between two turns the in-threads may have written anything into the slots. */
  method LetOthersWrite(moves: MoveContainer)
    modifies moves
    ensures |moves.slots| == |old(moves.slots)|
  {
    assert |moves.slots| == |moves.slots|;
    var slots: seq<Slot> :| |slots| == |moves.slots|;
    moves.slots := slots;
  }

  /** Plays a whole game. The turns it logs and the snapshots it took form a game in the sense of the
      protocol and of the replica's agreement, whatever the in-threads write meanwhile. */
  method PlayGame(cfg: Settings, draws: Draws, moves: MoveContainer, turns: TurnContainer) returns (ghost tr: Trace)
    requires cfg.Playable() && |moves.slots| == cfg.playersCount && turns.turns == []
    modifies moves, turns
    ensures ValidTrace(cfg, draws, tr) && turns.turns == tr.turns && |tr.turns| == cfg.gameLength + 1
    ensures turns.finished && turns.scoreMap == tr.states[cfg.gameLength].world.scores
  {
    hide GameInit, TurnReport, ServerTurn, InitPlayers, ValidTrace;
    var game := new GameServer(cfg, draws);
    var turn := game.Init();
    InitState(cfg, draws);
    turns.AppendNewTurn(turn);
    tr := Trace([turn], [game.State()], []);
    FirstTrace(cfg, draws);
    var i: nat := 0;
    while i < cfg.gameLength
      invariant fresh(game) && fresh(game.game) && game.cfg == cfg && game.draws == draws && game.Valid()
      invariant |moves.slots| == cfg.playersCount && turns.turns == tr.turns
      invariant ValidTrace(cfg, draws, tr) && |tr.turns| == |tr.states| == i + 1 <= cfg.gameLength + 1
      invariant game.State() == tr.states[i] && WellFormed(cfg, game.game.View())
    {
      LetOthersWrite(moves);
      ghost var st, slots := game.State(), moves.slots;
      turn := game.ApplyMoves(moves);
      LongerTrace(cfg, draws, tr, slots, turn, game.State());
      turns.AppendNewTurn(turn);
      tr := Trace(tr.turns + [turn], tr.states + [game.State()], tr.snaps + [slots]);
      i := i + 1;
    }
    var scores := game.GetScoreMap();
    turns.MarkTheGameAsFinished(scores);
  }

  // ---------------------------------------------------------------- one message of an in-thread

  /** What the in-thread does with a message once it has read the shared pointers, the version they belong
      to, and whether the game has started. `last`, `joined` and `id` are its local variables; it throws
      only for a slot that does not exist. */
  method HandleMessage(
    msg: ClientMessage, address: Bytes, version: nat, started: bool, players: AcceptedPlayerContainer,
    moves: MoveContainer, last: nat, joined: bool, id: U8)
    returns (last': nat, joined': bool, id': U8, thrown: bool)
    requires players.Valid()
    modifies players, moves
    ensures players.Valid() && last' == version
    ensures var known := joined && last == version;
            var next, room := |old(players.accepted)|, |old(players.accepted)| != players.target;
            && joined' == (known || (msg.Join? && room))
            && id' == (if joined' && !known then next else id)
            && players.accepted ==
               (if joined' && !known then old(players.accepted)[next := Player(msg.name, address)]
                else old(players.accepted))
            && moves.slots ==
               (if !msg.Join? && known && started && id < |old(moves.slots)| then old(moves.slots)[id := Slot(true, msg)]
                else old(moves.slots))
            && (thrown <==> !msg.Join? && known && started && id >= |old(moves.slots)|)
  {
    last', joined', id', thrown := last, joined, id, false;
    if last' != version {
      last', joined' := version, false;
    }
    match msg
    case Join(name) =>
      if !joined' {
        var r := players.AddNewPlayer(Player(name, address));
        if r.Admitted? {
          id', joined' := r.id, true;
        }
      }
    case _ =>
      if joined' && started {
        var ok := moves.UpdateSlot(id', msg);
        thrown := !ok;
      }
  }

  // ---------------------------------------------------------------- one game of an out-thread

  /** The containers an out-thread reads, as a version of the protocol. */
  function AsVersion(accepted: map<U8, Player>, turns: seq<Turn>, finished: bool, scores: map<U8, U32>): Version {
    Version(accepted, [], turns, finished, scores, [], [], [], [], [], [])
  }

  lemma StreamSnoc(ms: seq<ServerMessage>, m: ServerMessage)
    ensures EncodeStream(ms + [m]) == EncodeStream(ms) + EncodeServer(m)
  {
    EncodeSnoc(EncodeServer, ms, m);
  }

  /** Lists the accepted players up to the first one that has not joined yet. */
  method SendPlayersJoined(h: TCPHandler, players: AcceptedPlayerContainer)
    returns (done: bool, ghost n: nat)
    requires players.Valid()
    modifies h`outbound
    ensures n <= players.target && Has(players.accepted, n) && (done <==> n == players.target)
    ensures h.outbound == old(h.outbound) + EncodeStream(Announcements(players.accepted, n))
  {
    hide EncodeServer;
    n := 0;
    for i := 0 to players.target
      invariant n == i && Has(players.accepted, i)
      invariant h.outbound == old(h.outbound) + EncodeStream(Announcements(players.accepted, i))
    {
      var never, player := players.GetAcceptedPlayer(i);
      if player.None? {
        return false, i;
      }
      var ok := SendServerMessage(h, AcceptedPlayer(i, player.value));
      StreamSnoc(Announcements(players.accepted, i), AcceptedPlayer(i, player.value));
      n := i + 1;
    }
    done := true;
  }

  /** Sends the turns up to the first one that is not available yet; the counter has 16 bits. */
  method SendTurnsPlayed(h: TCPHandler, cfg: Settings, turns: TurnContainer) returns (done: bool, ghost n: nat)
    requires cfg.gameLength <= 0xFFFE && forall t :: t in turns.turns ==> FitsTurn(t)
    modifies h`outbound
    ensures n <= |turns.turns| && n <= cfg.gameLength + 1 && (done <==> n == cfg.gameLength + 1)
    ensures h.outbound == old(h.outbound) + EncodeStream(OutStream.Turns(turns.turns[..n]))
  {
    hide EncodeServer, FitsTurn;
    var i: U16 := 0;
    assert OutStream.Turns(turns.turns[..0]) == [];
    while InTurnLoop(cfg, i)
      invariant i <= |turns.turns| && i <= cfg.gameLength + 1
      invariant h.outbound == old(h.outbound) + EncodeStream(OutStream.Turns(turns.turns[..i]))
      decreases cfg.gameLength + 1 - i
    {
      var turn := turns.GetTurn(i);
      if turn.None? {
        return false, i;
      }
      assert turns.turns[i] in turns.turns;
      var ok := SendServerMessage(h, TurnMessage(turn.value));
      assert turns.turns[..i + 1][..i] == turns.turns[..i];
      StreamSnoc(OutStream.Turns(turns.turns[..i]), TurnMessage(turn.value));
      i := NextTurn(i);
    }
    return true, i;
  }

  lemma AtAccepted(cfg: Settings, ver: Version, n: U8)
    requires Has(ver.players, n) && n <= cfg.playersCount
    ensures CounterOk(cfg, [ver], OutAccepted(1, n)) && Partial(cfg, [ver], OutAccepted(1, n)) == Announcements(ver.players, n)
  {
  }

  lemma AtStarted(cfg: Settings, ver: Version, announced: bool)
    requires announced ==> Has(ver.players, cfg.playersCount)
    ensures CounterOk(cfg, [ver], OutStarted(1, announced))
    ensures Partial(cfg, [ver], OutStarted(1, announced)) ==
            if announced then Announcements(ver.players, cfg.playersCount) else []
  {
  }

  lemma AtTurns(cfg: Settings, ver: Version, announced: bool, n: U16)
    requires Full(cfg, ver) && Has(ver.players, cfg.playersCount) && n <= |ver.turns| && n <= cfg.gameLength + 1
    ensures var before := Partial(cfg, [ver], OutStarted(1, announced)) + [GameStarted(ver.players)];
            && CounterOk(cfg, [ver], OutTurns(1, announced, n))
            && Partial(cfg, [ver], OutTurns(1, announced, n)) == before + OutStream.Turns(ver.turns[..n])
    ensures n == cfg.gameLength + 1 ==>
              && CounterOk(cfg, [ver], OutEnd(1, announced))
              && Partial(cfg, [ver], OutEnd(1, announced)) == Partial(cfg, [ver], OutTurns(1, announced, n))
  {
  }

  /** The players, or none of them, up to the first that has not joined. */
  method SendOpening(h: TCPHandler, cfg: Settings, players: AcceptedPlayerContainer, started: bool, ghost ver: Version)
    returns (done: bool, ghost pc: OutCounter)
    requires players.Valid() && players.target == cfg.playersCount && ver.players == players.accepted
    modifies h`outbound
    ensures CounterOk(cfg, [ver], pc) && (done ==> pc == OutStarted(1, !started))
    ensures h.outbound == old(h.outbound) + EncodeStream(Partial(cfg, [ver], pc))
  {
    hide EncodeServer, Announcements, CounterOk, Partial, EncodeStream, Has;
    if started {
      AtStarted(cfg, ver, false);
      NothingEncoded();
      return true, OutStarted(1, false);
    }
    ghost var n: nat;
    done, n := SendPlayersJoined(h, players);
    if done {
      AtStarted(cfg, ver, true);
      pc := OutStarted(1, true);
    } else {
      AtAccepted(cfg, ver, n);
      pc := OutAccepted(1, n);
    }
  }

  /** One pass of the out-thread's loop, up to the first wait that is not satisfied: what has gone out is
      the part of the game that the counter pc stands for, or the whole game with its end. */
  method SendGame(h: TCPHandler, cfg: Settings, players: AcceptedPlayerContainer, turns: TurnContainer, started: bool)
    returns (done: bool, ghost pc: OutCounter)
    requires players.Valid() && players.target == cfg.playersCount
    requires cfg.gameLength <= 0xFFFE && forall t :: t in turns.turns ==> FitsTurn(t)
    modifies h`outbound
    ensures var versions := [AsVersion(players.accepted, turns.turns, turns.finished, turns.scoreMap)];
            && CounterOk(cfg, versions, pc) && (done ==> pc.OutEnd? && turns.finished)
            && h.outbound == old(h.outbound) + EncodeStream(
                 Partial(cfg, versions, pc) + if done then [GameEnded(turns.scoreMap)] else [])
  {
    hide EncodeServer, FitsTurn, OutStream.Turns, EncodeStream, CounterOk, Partial, Has, Registered;
    ghost var ver := AsVersion(players.accepted, turns.turns, turns.finished, turns.scoreMap);
    done, pc := SendOpening(h, cfg, players, started, ver);
    assert Partial(cfg, [ver], pc) + [] == Partial(cfg, [ver], pc);
    if !done {
      return;
    }
    var joined := players.ReturnWhenTargetPlayersJoined();
    if joined.None? {
      done := false;
      return;
    }
    FullHas(cfg, ver);
    ghost var opening := Partial(cfg, [ver], pc);
    var ok := SendServerMessage(h, GameStarted(joined.value));
    StreamSnoc(opening, GameStarted(joined.value));
    ghost var m: nat;
    done, m := SendTurnsPlayed(h, cfg, turns);
    EncodeSplitStream(opening + [GameStarted(joined.value)], OutStream.Turns(turns.turns[..m]));
    AtTurns(cfg, ver, !started, m);
    pc := OutTurns(1, !started, m);
    assert Partial(cfg, [ver], pc) + [] == Partial(cfg, [ver], pc);
    if !done {
      return;
    }
    pc := OutEnd(1, !started);
    var scores := turns.ReturnWhenGameFinished();
    if scores.None? {
      done := false;
      return;
    }
    ok := SendServerMessage(h, GameEnded(scores.value));
    StreamSnoc(Partial(cfg, [ver], pc), GameEnded(scores.value));
  }

  lemma NothingEncoded()
    ensures EncodeStream([]) == []
  {
  }

  lemma EncodeSplitStream(a: seq<ServerMessage>, c: seq<ServerMessage>)
    ensures EncodeStream(a + c) == EncodeStream(a) + EncodeStream(c)
  {
    Gui.EncodeSplit(EncodeServer, a, c);
  }
}
