/** A client watching a game: what its own loops do with the stream of a reachable server, and when the
    packets for its GUI fit. */
module Watching {
  import opened Types
  import opened Blasts
  import opened Engine
  import opened Game
  import opened ReplicaProof
  import opened Fuses
  import opened History
  import opened Containers
  import opened Wire
  import opened Codec
  import opened Streams
  import opened Handler
  import Messages
  import opened Gui
  import opened ClientFsm
  import opened Protocol
  import opened ProtocolProof
  import opened Growth
  import opened OutStream
  import opened EndToEnd

  // ---------------------------------------------------------------- what a decoded stream shows

  /** What a game object shows is the server's world of the turn that message n - 1 carries. */
  ghost predicate ShowsTurn(versions: seq<Version>, t: OutThread, n: nat, shown: World)
    requires 0 < n <= |t.sent| == |t.origin| && t.sent[n - 1].TurnMessage?
  {
    var v, turn := t.origin[n - 1], t.sent[n - 1].turn;
    1 <= v <= |versions| && turn.turn < |versions[v - 1].states| && shown == versions[v - 1].states[turn.turn].world
  }

  /** The state after n decoded messages is the view of the first n messages sent. */
  lemma DecodedView(garbage: Garbage, t: OutThread, arrived: Bytes, n: nat)
    requires AllFit(t.sent) && arrived <= EncodeStream(t.sent)
    requires n <= |Decode(ParseServer, arrived).messages|
    ensures var d := Decode(ParseServer, arrived);
            && |d.messages| <= |t.sent| && !d.bad && d.messages == MapSeq(Norm, t.sent)[..|d.messages|]
            && StateAt(garbage, d.messages, n) == View(garbage, t.sent[..n])
  {
    hide Decode, AllFit, ClientRun, Norm;
    PrefixDecodes(t.sent, arrived);
    var d := Decode(ParseServer, arrived);
    MapPrefix(Norm, t.sent, n);
    assert d.messages[..n] == MapSeq(Norm, t.sent)[..n];
  }

  /** After n messages of a stream that was told, if the last one is a turn. */
  lemma TurnShown(cfg: Settings, garbage: Garbage, versions: seq<Version>, t: OutThread, n: nat)
    requires Told(cfg, garbage, versions, t) && Steady(cfg) && 0 < n <= |t.sent| && t.sent[n - 1].TurnMessage?
    ensures |t.origin| == |t.sent| && View(garbage, t.sent[..n]).InGame?
    ensures ShowsTurn(versions, t, n, View(garbage, t.sent[..n]).replica.world)
  {
    hide Expected, CounterOk, AllFit, View, TurnReplica;
    assert ReflectsAt(cfg, garbage, versions, t.sent, t.origin, n - 1);
  }

  lemma NotFailed(cfg: Settings, garbage: Garbage, versions: seq<Version>, t: OutThread, n: nat)
    requires Told(cfg, garbage, versions, t) && n <= |t.sent|
    ensures !View(garbage, t.sent[..n]).Failed?
  {
    hide Expected, CounterOk, AllFit, Reflects;
    if n > 0 {
      assert ReflectsAt(cfg, garbage, versions, t.sent, t.origin, n - 1);
      NeverFails(cfg, versions, t.origin[n - 1], View(garbage, t.sent[..n - 1]), t.sent[n - 1], View(garbage, t.sent[..n]));
    }
  }

  lemma ToldFits(cfg: Settings, garbage: Garbage, versions: seq<Version>, t: OutThread)
    requires Told(cfg, garbage, versions, t)
    ensures AllFit(t.sent) && |t.origin| == |t.sent|
  {
    hide Expected, CounterOk, AllReflect;
  }

  // ---------------------------------------------------------------- when the packets fit

  /** No packet is larger than this: strings of at most 255 bytes for each player, and a full board of
      blocks, explosions, and the bombs the players can have live. */
  function GuiBound(cfg: Settings): nat {
    34 + |Truncate(cfg.serverName)| + 523 * cfg.playersCount + 8 * Product(cfg.sizeX, cfg.sizeY)
    + 6 * Product(cfg.playersCount, Fuse(cfg))
  }

  function Product(a: nat, b: nat): nat {
    a * b
  }

  lemma {:induction false} EntriesBound(ps: seq<Pair<Player>>)
    ensures EntriesSize(ps) <= 513 * |ps|
  {
    if ps != [] {
      EntriesBound(ps[1..]);
    }
  }

  lemma PlayersBound(players: map<U8, Player>)
    ensures PlayersSize(players) <= 4 + 513 * |players|
  {
    Messages.MapSize(players);
    EntriesBound(PairsFrom(players, 0));
  }

  /** A row of positions. */
  lemma {:induction false} RowSize(row: set<Position>, y: U16, width: nat)
    requires forall p :: p in row ==> p.y == y && p.x < width
    ensures |row| <= width
  {
    if width == 0 {
      assert row == {};
    } else if width <= 0x1_0000 {
      var last := Position(width - 1, y);
      RowSize(row - {last}, y, width - 1);
      assert |row| <= |(row - {last}) + {last}|  by { SubsetSize(row, (row - {last}) + {last}); }
    } else {
      RowSize(row, y, width - 1);
    }
  }

  lemma {:induction false} BoardSize(ps: set<Position>, width: nat, height: nat)
    requires forall p :: p in ps ==> p.x < width && p.y < height
    ensures |ps| <= width * height
  {
    if height == 0 {
      assert ps == {};
    } else {
      var row, rest := set p | p in ps && p.y == height - 1, set p | p in ps && p.y < height - 1;
      assert ps == row + rest;
      BoardSize(rest, width, height - 1);
      if row == {} {
        assert ps == rest;
      } else {
        var q :| q in row;
        RowSize(row, q.y, width);
        UnionSize(row, rest);
      }
      OneMore(width, height - 1);
    }
  }

  /** Every state of the game and every explosion set stays small. */
  lemma GameBound(cfg: Settings, draws: Draws, tr: Trace, t: nat, h: Hello, players: map<U8, Player>, r: Replica)
    requires cfg.Playable() && ValidTrace(cfg, draws, tr) && t < |tr.turns| && Mirrors(cfg, tr, t, r)
    requires |Truncate(h.serverName)| == |Truncate(cfg.serverName)| && |players| == cfg.playersCount
    ensures GameSize(h, players, r) <= GuiBound(cfg)
  {
    hide PlayersSize, Truncate, Mirrors, ValidTrace, AllOnBoard, Fuse;
    PlayersBound(players);
    MirrorWorld(cfg, tr, t, r);
    TurnNumbers(cfg, draws, tr, t);
    BoardInvariant(cfg, draws, tr, t);
    LiveBombBounds(cfg, draws, tr, t, 0);
    var w := r.world;
    assert |w.positions| == |w.positions.Keys| == cfg.playersCount && |w.scores| == |w.scores.Keys| == cfg.playersCount;
    BlocksOnBoard(cfg, w);
    BoardSize(w.blocks, cfg.sizeX, cfg.sizeY);
    ExplosionsOnBoard(cfg, draws, tr, t, r);
    BoardSize(r.explosions, cfg.sizeX, cfg.sizeY);
  }

  lemma MirrorWorld(cfg: Settings, tr: Trace, t: nat, r: Replica)
    requires Mirrors(cfg, tr, t, r)
    ensures t < |tr.states| && r.world == tr.states[t].world
  {
  }

  lemma BlocksOnBoard(cfg: Settings, w: World)
    requires AllOnBoard(BoardOf(cfg), w)
    ensures forall p :: p in w.blocks ==> p.x < cfg.sizeX && p.y < cfg.sizeY
  {
  }

  lemma ExplosionsOnBoard(cfg: Settings, draws: Draws, tr: Trace, t: nat, r: Replica)
    requires cfg.Playable() && ValidTrace(cfg, draws, tr) && t < |tr.turns| && Mirrors(cfg, tr, t, r)
    ensures forall p :: p in r.explosions ==> OnBoard(BoardOf(cfg), p)
  {
    if t > 0 {
      var b, w := BoardOf(cfg), tr.states[t - 1].world;
      forall p | p in TurnBlast(b, w) ensures OnBoard(b, p) {
        var bombs := Ticked(w.bombs);
        var id :| id in Due(bombs) && p in Blast(b, w.blocks, bombs[id].position);
        BlastOnBoard(b, w.blocks, bombs[id].position);
      }
    }
  }

  /** No shown state of a told stream is larger than the bound. */
  lemma FrameBound(
    cfg: Settings, draws: Draws, s: System, v: nat, before: Client, m: ServerMessage, now: Client)
    requires cfg.Playable() && Inv(cfg, draws, s) && Steady(cfg)
    requires Reflects(cfg, s.versions, v, before, m, now) && (now.Lobby? || (now.InGame? && m.TurnMessage?))
    ensures FrameSize(now) <= GuiBound(cfg)
  {
    hide Inv, Mirrors, FrameSize, GuiBound, Lists, NormPlayers, Greeting, Full;
    match m
    case TurnMessage(turn) =>
      TurnBound(cfg, draws, s, v, turn.turn, now);
    case AcceptedPlayer(id, _) =>
      RegistryIsIds(cfg, draws, s, v);
      ListsBound(cfg, Ver(s, v).players, now.accepted, id);
      LobbyBound(cfg, now);
    case _ =>
      LobbyBound(cfg, now);
  }

  lemma LobbyBound(cfg: Settings, c: Client)
    requires c.Lobby? && c.hello == Greeting(cfg) && |c.accepted| <= cfg.playersCount
    ensures FrameSize(c) <= GuiBound(cfg)
  {
    hide PlayersSize, Greeting, Truncate, Product, Fuse;
    GreetingName(cfg);
    PlayersBound(c.accepted);
  }

  lemma TurnBound(cfg: Settings, draws: Draws, s: System, v: nat, turn: nat, c: Client)
    requires cfg.Playable() && Inv(cfg, draws, s) && Exists(s, v) && Full(cfg, Ver(s, v))
    requires c.InGame? && c.hello == Greeting(cfg) && c.players == NormPlayers(Ver(s, v).players)
    requires turn < |Ver(s, v).turns| && Mirrors(cfg, Ver(s, v).Game(), turn, c.replica)
    ensures FrameSize(c) <= GuiBound(cfg)
  {
    hide Inv, Mirrors, GameSize, GuiBound, ValidTrace, NormPlayers, Greeting, Truncate;
    VersionTells(cfg, draws, s, v);
    NormSize(Ver(s, v).players);
    GreetingName(cfg);
    GameBound(cfg, draws, Ver(s, v).Game(), turn, c.hello, c.players, c.replica);
  }

  lemma GreetingName(cfg: Settings)
    ensures Greeting(cfg).serverName == Truncate(cfg.serverName)
    ensures |Truncate(Greeting(cfg).serverName)| == |Truncate(cfg.serverName)|
  {
  }

  lemma NormSize(players: map<U8, Player>)
    ensures |NormPlayers(players)| == |players|
  {
    assert NormPlayers(players).Keys == players.Keys;
  }

  lemma ListsBound(cfg: Settings, players: map<U8, Player>, accepted: map<U8, Player>, id: U8)
    requires Registered(players, cfg.playersCount) && Lists(accepted, players, id + 1)
    ensures |accepted| <= cfg.playersCount
  {
    assert id in accepted.Keys && id in players.Keys;
    assert |accepted| == |accepted.Keys| == id + 1;
  }

  /** With settings that keep all packets small, no message of a reachable stream is too much. */
  lemma NothingTooBig(
    cfg: Settings, draws: Draws, garbage: Garbage, s: System, k: nat, arrived: Bytes, limit: nat, j: nat)
    requires cfg.Playable() && Inv(cfg, draws, s) && k < |s.sessions| && Steady(cfg) && GuiBound(cfg) <= limit
    requires Told(cfg, garbage, s.versions, s.sessions[k].outward)
    requires arrived <= EncodeStream(s.sessions[k].outward.sent)
    ensures !TooBigAt(limit, garbage, Decode(ParseServer, arrived).messages, j)
  {
    hide Decode, ClientRun, Reflects, Inv, GuiBound, FrameSize, Told, View, AllFit;
    var t := s.sessions[k].outward;
    ToldFits(cfg, garbage, s.versions, t);
    var d := Decode(ParseServer, arrived);
    if 0 < j <= |d.messages| {
      DecodedView(garbage, t, arrived, j);
      var m := t.sent[j - 1];
      MapAt(Norm, t.sent, j - 1);
      ToldAt(cfg, garbage, s.versions, t, j - 1);
      if ShowsAt(garbage, d.messages, j) {
        FrameBound(cfg, draws, s, t.origin[j - 1], View(garbage, t.sent[..j - 1]), m, View(garbage, t.sent[..j]));
      }
    }
  }

  lemma {:induction false} MapAt<T, U>(f: T -> U, xs: seq<T>, i: nat)
    requires i < |xs|
    ensures MapSeq(f, xs)[i] == f(xs[i])
  {
    if i > 0 {
      MapAt(f, xs[1..], i - 1);
    }
  }

  lemma ToldAt(cfg: Settings, garbage: Garbage, versions: seq<Version>, t: OutThread, k: nat)
    requires Told(cfg, garbage, versions, t) && k < |t.sent|
    ensures |t.origin| == |t.sent|
    ensures Reflects(cfg, versions, t.origin[k], View(garbage, t.sent[..k]), t.sent[k], View(garbage, t.sent[..k + 1]))
  {
    hide Expected, CounterOk, AllFit, Reflects;
    assert ReflectsAt(cfg, garbage, versions, t.sent, t.origin, k);
  }

  // ---------------------------------------------------------------- the loops on a reachable stream

  /** The client's loops, run on whatever part of its stream has arrived, never refuse anything: they
      end because the stream ends, or, exactly if some shown state is too big for a packet, because of
      the GUI; in particular never if the settings keep all packets small. If the last message read is
      a turn, the game object shows the server's world after it. */
  method Watch(
    cfg: Settings, draws: Draws, garbage: Garbage, h: TCPHandler, u: UDPHandler,
    ghost states: seq<System>, ghost steps: seq<Step>, ghost i: nat, ghost k: nat)
    returns (ending: Ending, games: nat, accepted: map<U8, Player>, game: GameClient?, ghost n: nat)
    requires cfg.Playable() && i < |states| && k < |states[i].sessions| && u.packet == []
    requires Run(cfg, draws, states, steps)
    requires h.Pending() <= EncodeStream(states[i].sessions[k].outward.sent)
    modifies h`recvDeque, h`inbound, u`packet, u`sent
    ensures ending == ConnectionLost || ending == GuiTooBig
    ensures var d := Decode(ParseServer, old(h.Pending()));
            && n <= |d.messages| && (ending == ConnectionLost ==> n == |d.messages|)
            && (ending == GuiTooBig <==> exists j: nat :: TooBigAt(u.Limit(), garbage, d.messages, j))
    ensures Steady(cfg) && GuiBound(cfg) <= u.Limit() ==> ending == ConnectionLost
    ensures var t := states[i].sessions[k].outward;
            0 < n <= |t.sent| == |t.origin| && t.sent[n - 1].TurnMessage? && Steady(cfg) ==>
              game != null && ShowsTurn(states[i].versions, t, n, game.State().world)
  {
    hide Run, Decode, ClientRun, ShowsTurn, Told, TooBigAt, UpToDate, View, GuiBound, Inv;
    ghost var t, bytes := states[i].sessions[k].outward, h.Pending();
    ghost var d := Decode(ParseServer, bytes);
    ClientsFollow(cfg, draws, garbage, states, steps, i);
    ToldFits(cfg, garbage, states[i].versions, t);
    DecodedView(garbage, t, bytes, |d.messages|);
    NotFailed(cfg, garbage, states[i].versions, t, |d.messages|);
    ending, games, accepted, game, n := ServerClientGuiStream(h, u, garbage);
    DecodedView(garbage, t, bytes, n);
    if 0 < n && t.sent[n - 1].TurnMessage? && Steady(cfg) {
      TurnShown(cfg, garbage, states[i].versions, t, n);
    }
    if Steady(cfg) && GuiBound(cfg) <= u.Limit() {
      RunKeeps(cfg, draws, states, steps, i);
      forall j: nat ensures !TooBigAt(u.Limit(), garbage, d.messages, j) {
        NothingTooBig(cfg, draws, garbage, states[i], k, bytes, u.Limit(), j);
      }
    }
  }
}
