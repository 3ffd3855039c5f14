/** The client's side of the protocol: the lobby and game loops that consume the server's stream
    (`client.cpp`, `lobby.cpp`). */
module ClientFsm {
  import opened Types
  import opened Engine
  import opened Game
  import opened Codec
  import opened Streams
  import opened Handler
  import opened Messages
  import opened Gui
  import opened Wire

  /** The client between two messages. `games` counts the game objects created so far; `announced` are
      the players the lobby had listed and `players` those of the start message. */
  datatype Client =
    | AwaitHello
    | Lobby(hello: Hello, accepted: map<U8, Player>, games: nat)
    | InGame(hello: Hello, announced: map<U8, Player>, players: map<U8, Player>, replica: Replica, games: nat)
    | Failed

  /** What a new game object finds in its uninitialised turn field. */
  type Garbage = nat -> U16

  /** The effect of one message: the lobby accepts two kinds of messages and throws on the others, a game
      uses two kinds and ignores the others, and the first message must be the greeting. */
  ghost function ClientStep(garbage: Garbage, c: Client, m: ServerMessage): Client {
    match c
    case AwaitHello => if m.HelloMessage? then Lobby(m.hello, map[], 0) else Failed
    case Lobby(hello, accepted, games) => (
      match m
      case GameStarted(players) =>
        InGame(hello, accepted, players, InitialReplica(players, garbage(games)), games + 1)
      case AcceptedPlayer(id, player) => Lobby(hello, InsertAbsent(accepted, id, player), games)
      case _ => Failed)
    case InGame(hello, announced, players, replica, games) => (
      match m
      case GameEnded(_) => Lobby(hello, map[], games)
      case TurnMessage(turn) => InGame(hello, announced, players, ApplyTurn(hello, replica, turn), games)
      case _ => c)
    case Failed => Failed
  }

  ghost function ClientRun(garbage: Garbage, c: Client, ms: seq<ServerMessage>): Client
    decreases ms
  {
    if ms == [] then c else ClientRun(garbage, ClientStep(garbage, c, ms[0]), ms[1..])
  }

  lemma {:induction false} RunAppend(garbage: Garbage, c: Client, ms: seq<ServerMessage>, m: ServerMessage)
    ensures ClientRun(garbage, c, ms + [m]) == ClientStep(garbage, ClientRun(garbage, c, ms), m)
    decreases ms
  {
    if ms == [] {
      assert ms + [m] == [m] && [m][1..] == [];
    } else {
      assert (ms + [m])[0] == ms[0] && (ms + [m])[1..] == ms[1..] + [m];
      RunAppend(garbage, ClientStep(garbage, c, ms[0]), ms[1..], m);
    }
  }

  lemma {:induction false} FailureIsFinal(garbage: Garbage, ms: seq<ServerMessage>)
    ensures ClientRun(garbage, Failed, ms) == Failed
  {
    if ms != [] {
      FailureIsFinal(garbage, ms[1..]);
    }
  }

  /** The client after the first n messages. */
  ghost function StateAt(garbage: Garbage, ms: seq<ServerMessage>, n: nat): Client
    requires n <= |ms|
  {
    ClientRun(garbage, AwaitHello, ms[..n])
  }

  lemma StateNext(garbage: Garbage, ms: seq<ServerMessage>, n: nat)
    requires n < |ms|
    ensures StateAt(garbage, ms, n + 1) == ClientStep(garbage, StateAt(garbage, ms, n), ms[n])
  {
    assert ms[..n + 1] == ms[..n] + [ms[n]];
    RunAppend(garbage, AwaitHello, ms[..n], ms[n]);
  }

  lemma {:induction false} FailedStays(garbage: Garbage, ms: seq<ServerMessage>, n: nat, j: nat)
    requires n <= j <= |ms| && StateAt(garbage, ms, n).Failed?
    ensures StateAt(garbage, ms, j).Failed?
    decreases j
  {
    if n < j {
      FailedStays(garbage, ms, n, j - 1);
      StateNext(garbage, ms, j - 1);
    }
  }

  // ---------------------------------------------------------------- the state in terms of the whole stream

  /** After n messages a game is on: of the start and end messages so far the last one is a start. */
  predicate Plays(ms: seq<ServerMessage>, n: nat)
    requires n <= |ms|
  {
    n > 1 && (ms[n - 1].GameStarted? || (!ms[n - 1].GameEnded? && Plays(ms, n - 1)))
  }

  /** The position of the start message of the game that is on. */
  function StartOf(ms: seq<ServerMessage>, n: nat): (g: nat)
    requires n <= |ms| && Plays(ms, n)
    ensures 0 < g < n && ms[g].GameStarted? && !Plays(ms, g)
  {
    if Plays(ms, n - 1) then StartOf(ms, n - 1) else n - 1
  }

  /** The position after the last end message, or after the greeting. */
  function LobbyOf(ms: seq<ServerMessage>, n: nat): (a: nat)
    requires 0 < n <= |ms| && !Plays(ms, n)
    ensures a <= n
  {
    if n == 1 || ms[n - 1].GameEnded? then n else LobbyOf(ms, n - 1)
  }

  /** Message j is one the client does not take: no greeting at first, or anything but players and a start
      between games. */
  predicate Refused(ms: seq<ServerMessage>, j: nat) {
    && j < |ms|
    && if j == 0 then !ms[0].HelloMessage? else !Plays(ms, j) && !ms[j].GameStarted? && !ms[j].AcceptedPlayer?
  }

  function TurnsIn(ms: seq<ServerMessage>, a: nat, b: nat): seq<Turn>
    requires a <= b <= |ms|
    decreases b - a
  {
    if a == b then [] else TurnsIn(ms, a, b - 1) + if ms[b - 1].TurnMessage? then [ms[b - 1].turn] else []
  }

  function PlayersIn(ms: seq<ServerMessage>, a: nat, b: nat): seq<Pair<Player>>
    requires a <= b <= |ms|
    decreases b - a
  {
    if a == b then []
    else PlayersIn(ms, a, b - 1) + if ms[b - 1].AcceptedPlayer? then [Pair(ms[b - 1].id, ms[b - 1].player)] else []
  }

  /** How many games the first n messages have started; a start during a game does not count. */
  function GamesIn(ms: seq<ServerMessage>, n: nat): nat
    requires n <= |ms|
  {
    if n <= 1 then 0 else GamesIn(ms, n - 1) + if ms[n - 1].GameStarted? && !Plays(ms, n - 1) then 1 else 0
  }

  /** The lobby lists the players accepted since it opened. */
  ghost function LobbyAfter(ms: seq<ServerMessage>, n: nat): Client
    requires 0 < n <= |ms| && !Plays(ms, n) && ms[0].HelloMessage?
  {
    Lobby(ms[0].hello, FromPairs(PlayersIn(ms, LobbyOf(ms, n), n)), GamesIn(ms, n))
  }

  /** The game holds the players of its start message and the replay of the turns since. */
  ghost function GameAfter(garbage: Garbage, ms: seq<ServerMessage>, n: nat): Client
    requires 0 < n <= |ms| && Plays(ms, n) && ms[0].HelloMessage?
  {
    var g := StartOf(ms, n);
    InGame(ms[0].hello, FromPairs(PlayersIn(ms, LobbyOf(ms, g), g)), ms[g].players,
           Replay(ms[0].hello, InitialReplica(ms[g].players, garbage(GamesIn(ms, g))), TurnsIn(ms, g + 1, n)),
           GamesIn(ms, n))
  }

  /** The state after n messages, whatever they are: the client has failed exactly if it was sent one it
      does not take; otherwise it is in the lobby or in the game that the messages describe. */
  lemma {:induction false} ClientMeaning(garbage: Garbage, ms: seq<ServerMessage>, n: nat)
    requires 0 < n <= |ms|
    ensures StateAt(garbage, ms, n).Failed? <==> exists j: nat :: j < n && Refused(ms, j)
    ensures !StateAt(garbage, ms, n).Failed? ==>
              && ms[0].HelloMessage?
              && StateAt(garbage, ms, n) == if Plays(ms, n) then GameAfter(garbage, ms, n) else LobbyAfter(ms, n)
  {
    hide StateAt;
    StateNext(garbage, ms, n - 1);
    if n == 1 {
      NothingRead(garbage, ms);
      assert Refused(ms, 0) <==> !ms[0].HelloMessage?;
    } else {
      ClientMeaning(garbage, ms, n - 1);
      if StateAt(garbage, ms, n - 1).Failed? {
        var j: nat :| j < n - 1 && Refused(ms, j);
      } else {
        MeaningNext(garbage, ms, n - 1, StateAt(garbage, ms, n - 1));
      }
    }
  }

  lemma NothingRead(garbage: Garbage, ms: seq<ServerMessage>)
    ensures StateAt(garbage, ms, 0) == AwaitHello
  {
    assert ms[..0] == [];
  }

  lemma ReplayOne(h: Hello, r: Replica, turns: seq<Turn>, turn: Turn)
    ensures Replay(h, r, turns + [turn]) == ApplyTurn(h, Replay(h, r, turns), turn)
  {
    assert (turns + [turn])[..|turns|] == turns;
  }

  lemma FromOneMore(ps: seq<Pair<Player>>, p: Pair<Player>)
    ensures FromPairs(ps + [p]) == InsertAbsent(FromPairs(ps), p.key, p.val)
  {
    assert (ps + [p])[..|ps|] == ps;
  }

  lemma MeaningNext(garbage: Garbage, ms: seq<ServerMessage>, n: nat, c: Client)
    requires 0 < n < |ms| && ms[0].HelloMessage?
    requires c == if Plays(ms, n) then GameAfter(garbage, ms, n) else LobbyAfter(ms, n)
    ensures var now := ClientStep(garbage, c, ms[n]);
            && (now.Failed? <==> Refused(ms, n))
            && (!now.Failed? ==> now == if Plays(ms, n + 1) then GameAfter(garbage, ms, n + 1) else LobbyAfter(ms, n + 1))
  {
    hide ApplyTurn, InitialReplica, Replay, FromPairs, InsertAbsent;
    if Plays(ms, n) {
      var g := StartOf(ms, n);
      if ms[n].TurnMessage? {
        ReplayOne(ms[0].hello, InitialReplica(ms[g].players, garbage(GamesIn(ms, g))), TurnsIn(ms, g + 1, n), ms[n].turn);
      } else if ms[n].GameEnded? {
        EmptyLobby();
      } else {
        assert TurnsIn(ms, g + 1, n + 1) == TurnsIn(ms, g + 1, n);
      }
    } else if ms[n].AcceptedPlayer? {
      FromOneMore(PlayersIn(ms, LobbyOf(ms, n), n), Pair(ms[n].id, ms[n].player));
    } else if ms[n].GameStarted? {
      NothingReplayed(ms[0].hello, InitialReplica(ms[n].players, garbage(GamesIn(ms, n))));
    }
  }

  lemma EmptyLobby()
    ensures FromPairs<Player>([]) == map[]
  {
  }

  lemma NothingReplayed(h: Hello, r: Replica)
    ensures Replay(h, r, []) == r
  {
  }

  // ---------------------------------------------------------------- what the GUI is sent

  /** The size of the packet that shows a replica. */
  function GameSize(h: Hello, players: map<U8, Player>, r: Replica): nat {
    30 + |Truncate(h.serverName)| + PlayersSize(players) + 5 * |r.world.positions| + 5 * |r.world.scores|
    + 4 * |r.world.blocks| + 6 * |r.world.bombs| + 4 * |r.explosions|
  }

  lemma DepictedSize(h: Hello, players: map<U8, Player>, r: Replica, m: GameMessage)
    requires Depicts(h, players, r, m)
    ensures MessageSize(m) == GameSize(h, players, r)
  {
    hide Truncate, PlayersSize;
    DistinctSize(m.blocks);
    DistinctSize(m.explosions);
    var ids: seq<U32> :| ListsBombs(r.world.bombs, ids, m.bombs);
    DistinctSize(ids);
  }

  /** The state is shown: when a lobby opens or grows, and after every turn. */
  ghost predicate ShowsAt(garbage: Garbage, ms: seq<ServerMessage>, j: nat) {
    && 0 < j <= |ms|
    && (StateAt(garbage, ms, j).Lobby? || (StateAt(garbage, ms, j).InGame? && ms[j - 1].TurnMessage?))
  }

  function FrameSize(c: Client): nat
    requires c.Lobby? || c.InGame?
  {
    if c.Lobby? then LobbySize(c.hello, c.accepted) else GameSize(c.hello, c.players, c.replica)
  }

  ghost predicate IsFrame(c: Client, packet: Bytes) {
    match c
    case Lobby(hello, accepted, _) => packet == EncodeLobby(hello, accepted)
    case InGame(hello, _, players, replica, _) =>
      exists m :: Depicts(hello, players, replica, m) && packet == EncodeGame(m)
    case _ => false
  }

  /** The state after message j is shown and its packet is larger than the limit. */
  ghost predicate TooBigAt(limit: nat, garbage: Garbage, ms: seq<ServerMessage>, j: nat) {
    ShowsAt(garbage, ms, j) && FrameSize(StateAt(garbage, ms, j)) > limit
  }

  /** None of the first n messages leads to too big a packet. */
  ghost predicate Clean(limit: nat, garbage: Garbage, ms: seq<ServerMessage>, n: nat) {
    forall j: nat :: j <= n ==> !TooBigAt(limit, garbage, ms, j)
  }

  /** The packets are one for each shown state of the first n messages, in order, each showing it. */
  ghost predicate Shown(garbage: Garbage, ms: seq<ServerMessage>, n: nat, packets: seq<Bytes>) {
    if n == 0 then packets == []
    else if ShowsAt(garbage, ms, n) then
      && n <= |ms| && packets != [] && IsFrame(StateAt(garbage, ms, n), packets[|packets| - 1])
      && Shown(garbage, ms, n - 1, packets[..|packets| - 1])
    else Shown(garbage, ms, n - 1, packets)
  }

  // ---------------------------------------------------------------- the loops

  /** Why the client stopped: a message it may not get now, an unknown tag, the end of the stream, or a
      packet for the GUI that is too big. */
  datatype Ending = Forbidden | BadTag | ConnectionLost | GuiTooBig

  function EndingOf(c: Client, d: Decoded<ServerMessage>): Ending {
    if c.Failed? then Forbidden else if d.bad then BadTag else ConnectionLost
  }

  /** n messages of the stream have been read, c is the state they lead to and the bytes hold the rest. */
  ghost predicate Reading(garbage: Garbage, d: Decoded<ServerMessage>, n: nat, c: Client, bytes: Bytes) {
    && n <= |d.messages| && c == StateAt(garbage, d.messages, n)
    && Decode(ParseServer, bytes) == Decoded(d.messages[n..], d.left, d.bad)
  }

  lemma FirstReading(garbage: Garbage, bytes: Bytes)
    ensures Reading(garbage, Decode(ParseServer, bytes), 0, AwaitHello, bytes)
  {
    var d := Decode(ParseServer, bytes);
    assert d.messages[0..] == d.messages && d.messages[..0] == [];
  }

  lemma ReadingState(garbage: Garbage, d: Decoded<ServerMessage>, n: nat, c: Client, bytes: Bytes)
    requires Reading(garbage, d, n, c, bytes)
    ensures n <= |d.messages| && StateAt(garbage, d.messages, n) == c
  {
  }

  lemma GotMessage(
    garbage: Garbage, d: Decoded<ServerMessage>, n: nat, c: Client, before: Bytes, after: Bytes, r: Read<ServerMessage>)
    requires Reading(garbage, d, n, c, before) && Follows(r, ParseServer(before), after)
    ensures n <= |d.messages| && StateAt(garbage, d.messages, n) == c
    ensures r.Got? ==> n < |d.messages| && d.messages[n] == r.value && |after| < |before|
    ensures r.Got? ==> StateAt(garbage, d.messages, n + 1) == ClientStep(garbage, c, r.value)
    ensures r.Got? ==> Reading(garbage, d, n + 1, ClientStep(garbage, c, r.value), after)
    ensures !r.Got? ==> n == |d.messages| && d.bad == r.UnknownTag?
  {
    ServerStable(before, []);
    if r.Got? {
      var rest := Decode(ParseServer, after);
      assert Decode(ParseServer, before) == Decoded([r.value] + rest.messages, rest.left, rest.bad);
      assert d.messages[n..][0] == d.messages[n] && d.messages[n..][1..] == d.messages[n + 1..];
      assert ([r.value] + rest.messages)[1..] == rest.messages;
      StateNext(garbage, d.messages, n);
    }
  }

  function Stopped(r: Read<ServerMessage>): Ending
    requires !r.Got?
  {
    if r.UnknownTag? then BadTag else ConnectionLost
  }

  /** The GUI is up to date with the first n messages. */
  ghost predicate UpToDate(
    limit: nat, garbage: Garbage, ms: seq<ServerMessage>, n: nat, base: seq<Bytes>, sent: seq<Bytes>)
  {
    Clean(limit, garbage, ms, n) && base <= sent && Shown(garbage, ms, n, sent[|base|..])
  }

  lemma FirstUpToDate(limit: nat, garbage: Garbage, ms: seq<ServerMessage>, base: seq<Bytes>)
    ensures UpToDate(limit, garbage, ms, 0, base, base)
  {
  }

  /** A message that shows nothing. */
  lemma Unshown(limit: nat, garbage: Garbage, ms: seq<ServerMessage>, n: nat, base: seq<Bytes>, sent: seq<Bytes>)
    requires n > 0 && UpToDate(limit, garbage, ms, n - 1, base, sent) && !ShowsAt(garbage, ms, n)
    ensures UpToDate(limit, garbage, ms, n, base, sent)
  {
  }

  /** A state that is shown: either its packet went out or it was too big. */
  lemma FrameSent(
    limit: nat, garbage: Garbage, ms: seq<ServerMessage>, n: nat, base: seq<Bytes>, was: seq<Bytes>, sent: seq<Bytes>,
    c: Client, packet: Bytes, ok: bool)
    requires 0 < n <= |ms| && c == StateAt(garbage, ms, n) && ShowsAt(garbage, ms, n)
    requires UpToDate(limit, garbage, ms, n - 1, base, was)
    requires (ok <==> FrameSize(c) <= limit) && sent == (if ok then was + [packet] else was)
    requires ok ==> IsFrame(c, packet)
    ensures if ok then UpToDate(limit, garbage, ms, n, base, sent)
            else TooBigAt(limit, garbage, ms, n) && UpToDate(limit, garbage, ms, n - 1, base, sent)
  {
    hide IsFrame, FrameSize, StateAt;
    if ok {
      var packets := sent[|base|..];
      assert packets == was[|base|..] + [packet];
      assert packets[..|packets| - 1] == was[|base|..];
    }
  }

  /** How the loops have ended after n messages. */
  ghost predicate Ended(
    limit: nat, garbage: Garbage, d: Decoded<ServerMessage>, n: nat, ending: Ending, base: seq<Bytes>, sent: seq<Bytes>)
  {
    && n <= |d.messages|
    && match ending
       case GuiTooBig =>
         n > 0 && TooBigAt(limit, garbage, d.messages, n) && UpToDate(limit, garbage, d.messages, n - 1, base, sent)
       case Forbidden =>
         StateAt(garbage, d.messages, n).Failed? && UpToDate(limit, garbage, d.messages, n, base, sent)
       case _ =>
         && n == |d.messages| && !StateAt(garbage, d.messages, n).Failed?
         && d.bad == ending.BadTag? && UpToDate(limit, garbage, d.messages, n, base, sent)
  }

  /** The client ends for the GUI's sake exactly if some shown state is too big, and otherwise exactly as
      the messages of the stream say. */
  lemma EndedMeans(
    limit: nat, garbage: Garbage, d: Decoded<ServerMessage>, n: nat, ending: Ending, base: seq<Bytes>, sent: seq<Bytes>)
    requires Ended(limit, garbage, d, n, ending, base, sent)
    ensures ending == GuiTooBig <==> exists j: nat :: TooBigAt(limit, garbage, d.messages, j)
    ensures ending != GuiTooBig ==> ending == EndingOf(StateAt(garbage, d.messages, |d.messages|), d)
  {
    hide FrameSize, StateAt, Shown;
    if ending == Forbidden {
      forall j: nat ensures !TooBigAt(limit, garbage, d.messages, j) {
        if n <= j <= |d.messages| {
          FailedStays(garbage, d.messages, n, j);
        }
      }
      FailedStays(garbage, d.messages, n, |d.messages|);
    }
  }

  /** Shows the lobby after message n. */
  method ShowLobby(
    u: UDPHandler, garbage: Garbage, hello: Hello, accepted: map<U8, Player>, ghost games: nat,
    ghost d: Decoded<ServerMessage>, ghost n: nat, ghost base: seq<Bytes>)
    returns (ok: bool)
    requires 0 < n <= |d.messages| && StateAt(garbage, d.messages, n) == Lobby(hello, accepted, games)
    requires u.packet == [] && UpToDate(u.Limit(), garbage, d.messages, n - 1, base, u.sent)
    modifies u`packet, u`sent
    ensures if ok then u.packet == [] && UpToDate(u.Limit(), garbage, d.messages, n, base, u.sent)
            else Ended(u.Limit(), garbage, d, n, GuiTooBig, base, u.sent)
  {
    hide StateAt, UpToDate, LobbySize;
    ghost var was := u.sent;
    ok := SendLobby(u, hello, accepted);
    FrameSent(u.Limit(), garbage, d.messages, n, base, was, u.sent,
              Lobby(hello, accepted, games), EncodeLobby(hello, accepted), ok);
  }

  /** The lobby: it is shown when it opens and whenever a player was accepted, until a game starts. */
  method WaitInLobby(
    h: TCPHandler, u: UDPHandler, garbage: Garbage, hello: Hello, games: nat, ghost d: Decoded<ServerMessage>,
    ghost from: nat, ghost base: seq<Bytes>)
    returns (stop: Option<Ending>, accepted: map<U8, Player>, players: map<U8, Player>, ghost n: nat)
    requires 0 < from && Reading(garbage, d, from, Lobby(hello, map[], games), h.Pending())
    requires u.packet == [] && UpToDate(u.Limit(), garbage, d.messages, from - 1, base, u.sent)
    modifies h`recvDeque, h`inbound, u`packet, u`sent
    ensures n <= |d.messages|
    ensures stop.None? ==>
              && |h.Pending()| < |old(h.Pending())| && u.packet == [] && 0 < n
              && Reading(garbage, d, n, InGame(hello, accepted, players, InitialReplica(players, garbage(games)), games + 1),
                         h.Pending())
              && UpToDate(u.Limit(), garbage, d.messages, n, base, u.sent)
    ensures stop.Some? ==> Ended(u.Limit(), garbage, d, n, stop.value, base, u.sent)
    ensures stop.Some? ==> var c := StateAt(garbage, d.messages, n); c == Lobby(hello, accepted, games) || c == Failed
  {
    hide InitialReplica, ParseServer, Decode, ClientRun, Reading, StateAt, UpToDate;
    accepted, players, n := map[], map[], from;
    ReadingState(garbage, d, n, Lobby(hello, accepted, games), h.Pending());
    var ok := ShowLobby(u, garbage, hello, accepted, games, d, n, base);
    if !ok {
      stop := Some(GuiTooBig);
      return;
    }
    while true
      invariant u.packet == [] && n <= |d.messages| && StateAt(garbage, d.messages, n) == Lobby(hello, accepted, games)
      invariant Reading(garbage, d, n, Lobby(hello, accepted, games), h.Pending())
      invariant UpToDate(u.Limit(), garbage, d.messages, n, base, u.sent)
      invariant |h.Pending()| <= |old(h.Pending())|
      decreases |h.Pending()|
    {
      ghost var before := h.Pending();
      var message := ReadServerMessage(h);
      GotMessage(garbage, d, n, Lobby(hello, accepted, games), before, h.Pending(), message);
      if !message.Got? {
        stop := Some(Stopped(message));
        return;
      }
      n := n + 1;
      if message.value.GameStarted? {
        Unshown(u.Limit(), garbage, d.messages, n, base, u.sent);
        stop, players := None, message.value.players;
        return;
      } else if message.value.AcceptedPlayer? {
        accepted := InsertAbsent(accepted, message.value.id, message.value.player);
        ok := ShowLobby(u, garbage, hello, accepted, games, d, n, base);
        if !ok {
          stop := Some(GuiTooBig);
          return;
        }
      } else {
        Unshown(u.Limit(), garbage, d.messages, n, base, u.sent);
        stop := Some(Forbidden);
        return;
      }
    }
  }

  /** Sends the state of the game to the GUI. */
  method SendState(u: UDPHandler, game: GameClient) returns (ok: bool, ghost packet: Bytes)
    requires u.packet == []
    modifies u`packet, u`sent
    ensures ok <==> GameSize(game.hello, game.players, game.State()) <= u.Limit()
    ensures if ok then u.packet == [] && u.sent == old(u.sent) + [packet] else u.sent == old(u.sent)
    ensures ok ==> exists m :: Depicts(game.hello, game.players, game.State(), m) && packet == EncodeGame(m)
  {
    hide GameSize, MessageSize, EncodeGame, Depicts;
    var m := game.GetGameState();
    DepictedSize(game.hello, game.players, game.State(), m);
    packet := EncodeGame(m);
    ok := SendGame(u, m);
  }

  /** The game loop: turns are replayed and shown until the game ends, all other messages are ignored. */
  method FollowGame(
    h: TCPHandler, u: UDPHandler, garbage: Garbage, game: GameClient, ghost announced: map<U8, Player>,
    ghost games: nat, ghost d: Decoded<ServerMessage>, ghost from: nat, ghost base: seq<Bytes>)
    returns (stop: Option<Ending>, ghost n: nat)
    requires game.Valid() && u.packet == []
    requires Reading(garbage, d, from, InGame(game.hello, announced, game.players, game.State(), games), h.Pending())
    requires UpToDate(u.Limit(), garbage, d.messages, from, base, u.sent)
    modifies h`recvDeque, h`inbound, u`packet, u`sent, game.game
    ensures n <= |d.messages|
    ensures stop.None? ==>
              && |h.Pending()| < |old(h.Pending())| && u.packet == [] && 0 < n
              && Reading(garbage, d, n, Lobby(game.hello, map[], games), h.Pending())
              && UpToDate(u.Limit(), garbage, d.messages, n - 1, base, u.sent)
    ensures stop.Some? ==> Ended(u.Limit(), garbage, d, n, stop.value, base, u.sent)
    ensures stop.Some? ==> StateAt(garbage, d.messages, n) == InGame(game.hello, announced, game.players, game.State(), games)
  {
    hide ApplyTurn, ParseServer, Decode, ClientRun, Reading, StateAt, UpToDate, GameSize, Depicts, EncodeGame;
    n := from;
    ReadingState(garbage, d, n, InGame(game.hello, announced, game.players, game.State(), games), h.Pending());
    while true
      invariant u.packet == [] && n <= |d.messages|
      invariant StateAt(garbage, d.messages, n) == InGame(game.hello, announced, game.players, game.State(), games)
      invariant Reading(garbage, d, n, InGame(game.hello, announced, game.players, game.State(), games), h.Pending())
      invariant UpToDate(u.Limit(), garbage, d.messages, n, base, u.sent)
      invariant |h.Pending()| <= |old(h.Pending())|
      decreases |h.Pending()|
    {
      ghost var before, shown := h.Pending(), game.State();
      var message := ReadServerMessage(h);
      GotMessage(garbage, d, n, InGame(game.hello, announced, game.players, shown, games), before, h.Pending(), message);
      if !message.Got? {
        stop := Some(Stopped(message));
        return;
      }
      n := n + 1;
      if message.value.GameEnded? {
        stop := None;
        return;
      } else if message.value.TurnMessage? {
        game.ApplyTurnMessage(message.value.turn);
        ghost var c := InGame(game.hello, announced, game.players, game.State(), games);
        ghost var was, packet := u.sent, [];
        var ok;
        ok, packet := SendState(u, game);
        FrameSent(u.Limit(), garbage, d.messages, n, base, was, u.sent, c, packet, ok);
        if !ok {
          stop := Some(GuiTooBig);
          return;
        }
      } else {
        Unshown(u.Limit(), garbage, d.messages, n, base, u.sent);
      }
    }
  }

  /** Runs until the stream ends or is refused, or until a packet for the GUI is too big: the first such
      packet stops the client. Otherwise the result is that of the messages in the stream, however its
      bytes arrive. The GUI has been sent one packet for each shown state, and the game object shows the
      last state reached. */
  method ServerClientGuiStream(h: TCPHandler, u: UDPHandler, garbage: Garbage)
    returns (ending: Ending, games: nat, accepted: map<U8, Player>, game: GameClient?, ghost n: nat)
    requires u.packet == []
    modifies h`recvDeque, h`inbound, u`packet, u`sent
    ensures Ended(u.Limit(), garbage, Decode(ParseServer, old(h.Pending())), n, ending, old(u.sent), u.sent)
    ensures var d := Decode(ParseServer, old(h.Pending()));
            && (ending == GuiTooBig <==> exists j: nat :: TooBigAt(u.Limit(), garbage, d.messages, j))
            && (ending != GuiTooBig ==> ending == EndingOf(StateAt(garbage, d.messages, |d.messages|), d))
    ensures var last := StateAt(garbage, Decode(ParseServer, old(h.Pending())).messages, n);
            && (last.Lobby? ==> games == last.games && accepted == last.accepted)
            && (last.InGame? ==> games == last.games && accepted == last.announced
                                 && game != null && game.hello == last.hello && game.players == last.players
                                 && game.State() == last.replica)
  {
    hide InitialReplica, ParseServer, Decode, UpToDate, TooBigAt, ClientRun;
    ghost var d, base := Decode(ParseServer, h.Pending()), u.sent;
    games, accepted, game, n := 0, map[], null, 0;
    FirstReading(garbage, h.Pending());
    FirstUpToDate(u.Limit(), garbage, d.messages, base);
    ghost var before := h.Pending();
    var message := ReadServerMessage(h);
    GotMessage(garbage, d, n, AwaitHello, before, h.Pending(), message);
    if !message.Got? {
      ending := Stopped(message);
      EndedMeans(u.Limit(), garbage, d, n, ending, base, u.sent);
      return;
    }
    n := 1;
    if !message.value.HelloMessage? {
      ending := Forbidden;
      Unshown(u.Limit(), garbage, d.messages, n, base, u.sent);
      EndedMeans(u.Limit(), garbage, d, n, ending, base, u.sent);
      return;
    }
    var hello := message.value.hello;
    while true
      invariant 0 < n && u.packet == []
      invariant Reading(garbage, d, n, Lobby(hello, map[], games), h.Pending())
      invariant UpToDate(u.Limit(), garbage, d.messages, n - 1, base, u.sent)
      decreases |h.Pending()|
    {
      var stop, players;
      stop, accepted, players, n := WaitInLobby(h, u, garbage, hello, games, d, n, base);
      if stop.Some? {
        ending := stop.value;
        EndedMeans(u.Limit(), garbage, d, n, ending, base, u.sent);
        return;
      }
      game := new GameClient(hello, players, garbage(games));
      games := games + 1;
      stop, n := FollowGame(h, u, garbage, game, accepted, games, d, n, base);
      if stop.Some? {
        ending := stop.value;
        EndedMeans(u.Limit(), garbage, d, n, ending, base, u.sent);
        return;
      }
    }
  }
}
