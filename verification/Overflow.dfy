/** Settings with which a well-formed stream stops the client: so many blocks that turn 0 does not fit
    into a packet for the GUI. */
module Overflow {
  import opened Types
  import opened Blasts
  import opened Engine
  import opened ReplicaProof
  import opened Wire
  import opened Codec
  import opened Streams
  import opened Gui
  import opened ClientFsm
  import opened Protocol
  import opened ProtocolProof
  import opened Witness
  import opened EndToEnd
  import opened Watching
  import opened Exactness

  // ---------------------------------------------------------------- a board full of blocks

  /** Random numbers that put the initial blocks on the cells of the board row by row. */
  function CellDraw(cfg: Settings, c: nat): nat {
    var start := 2 * cfg.playersCount;
    if c < start || cfg.sizeX == 0 then 0
    else
      var i := (c - start) / 2;
      if (c - start) % 2 == 0 then i % cfg.sizeX else i / cfg.sizeX
  }

  function CellDraws(cfg: Settings): Draws {
    (c: nat) => CellDraw(cfg, c)
  }

  /** The number of a cell, row by row. */
  function Index(cfg: Settings, p: Position): nat {
    Product(cfg.sizeX, p.y) + p.x
  }

  lemma Divided(i: nat, x: nat, y: nat)
    requires x > 0 && i < Product(x, y)
    ensures i % x < x && i / x < y && i == Product(x, i / x) + i % x
  {
    if i / x >= y {
      Above(x, y, i / x);
    }
  }

  lemma Above(x: nat, y: nat, q: nat)
    requires y <= q
    ensures Product(x, y) <= Product(x, q)
  {
  }

  lemma Small(i: nat, m: nat)
    requires i < m
    ensures i % m == i
  {
  }

  /** The position drawn for block i is cell number i. */
  lemma DrawnCell(cfg: Settings, i: nat)
    requires cfg.Playable() && i < Product(cfg.sizeX, cfg.sizeY)
    ensures Index(cfg, RandomPosition(cfg, CellDraws(cfg), 2 * cfg.playersCount + 2 * i)) == i
  {
    hide Product;
    var c := 2 * cfg.playersCount + 2 * i;
    Divided(i, cfg.sizeX, cfg.sizeY);
    assert (c - 2 * cfg.playersCount) / 2 == i && (c + 1 - 2 * cfg.playersCount) / 2 == i;
    assert CellDraw(cfg, c) == i % cfg.sizeX && CellDraw(cfg, c + 1) == i / cfg.sizeX;
    Small(i % cfg.sizeX, cfg.sizeX);
    Small(i / cfg.sizeX, cfg.sizeY);
  }

  lemma {:induction false} PlayerCursor(cfg: Settings, draws: Draws, n: nat)
    requires cfg.Playable() && n <= cfg.playersCount
    ensures InitPlayers(cfg, draws, n).state.cursor == 2 * n
  {
    hide RandomPosition;
    if n > 0 {
      PlayerCursor(cfg, draws, n - 1);
    }
  }

  /** As long as there is room, every block is put on a new cell. */
  lemma {:induction false} BlocksFill(cfg: Settings, n: nat)
    requires cfg.Playable() && n <= Product(cfg.sizeX, cfg.sizeY)
    ensures var st := InitBlocks(cfg, CellDraws(cfg), n).state;
            && st.cursor == 2 * cfg.playersCount + 2 * n && |st.world.blocks| == n
            && forall p :: p in st.world.blocks ==> Index(cfg, p) < n
  {
    hide RandomPosition, CellDraws, Index, Product;
    if n == 0 {
      PlayerCursor(cfg, CellDraws(cfg), cfg.playersCount);
      InitPlayersShape(cfg, CellDraws(cfg), cfg.playersCount);
    } else {
      BlocksFill(cfg, n - 1);
      DrawnCell(cfg, n - 1);
    }
  }

  lemma {:induction false} BlocksStay(cfg: Settings, draws: Draws, m: nat, n: nat)
    requires cfg.Playable() && m <= n
    ensures InitBlocks(cfg, draws, m).state.world.blocks <= InitBlocks(cfg, draws, n).state.world.blocks
  {
    hide RandomPosition;
    if m < n {
      BlocksStay(cfg, draws, m, n - 1);
    }
  }

  /** The number of blocks whose positions alone fill a packet. */
  const PACKET_OF_BLOCKS: nat := 16384

  lemma ManyBlocks(cfg: Settings)
    requires cfg.Playable() && PACKET_OF_BLOCKS <= Product(cfg.sizeX, cfg.sizeY) && PACKET_OF_BLOCKS <= cfg.initialBlocks
    ensures |GameInit(cfg, CellDraws(cfg)).state.world.blocks| >= PACKET_OF_BLOCKS
  {
    hide InitBlocks, CellDraws, Product;
    BlocksFill(cfg, PACKET_OF_BLOCKS);
    BlocksStay(cfg, CellDraws(cfg), PACKET_OF_BLOCKS, cfg.initialBlocks);
    SubsetSize(InitBlocks(cfg, CellDraws(cfg), PACKET_OF_BLOCKS).state.world.blocks,
               InitBlocks(cfg, CellDraws(cfg), cfg.initialBlocks).state.world.blocks);
  }

  // ---------------------------------------------------------------- the client stops

  /** Session k has been sent Hello, the start and turn 0 of the first game. */
  ghost predicate SentTurnZero(cfg: Settings, draws: Draws, s: System, k: nat)
    requires cfg.Playable()
  {
    && Sent(s, k, 1) && |s.versions| == 1 && Full(cfg, Ver(s, 1))
    && Ver(s, 1).turns != [] && Ver(s, 1).turns[0] == Turn(0, GameInit(cfg, draws).events)
  }

  lemma TurnZeroIsSent(cfg: Settings, draws: Draws) returns (s: System, k: nat)
    requires cfg.Playable()
    ensures Reach(cfg, draws, s) && k < |s.sessions| && SentTurnZero(cfg, draws, s, k)
  {
    hide Reach, GameInit, WellFormed;
    k := cfg.playersCount;
    var begun := Begin(cfg, draws, k + 1);
    s := SendTurns(cfg, draws, begun, k, 0, 1);
  }

  /** The client that has read turn 0 holds the first state of the game. */
  lemma FirstView(cfg: Settings, draws: Draws, garbage: Garbage, s: System, k: nat)
    requires cfg.Playable() && k < |s.sessions| && SentTurnZero(cfg, draws, s, k)
    requires Told(cfg, garbage, s.versions, s.sessions[k].outward) && AllJoined(cfg, Ver(s, 1).players)
    ensures var c := View(garbage, s.sessions[k].outward.sent);
            c.InGame? && c.replica.world == GameInit(cfg, draws).state.world
  {
    hide Told, View, GameInit, NormHello, NormPlayers, InitialReplica, ApplyTurn;
    var t, players := s.sessions[k].outward, Ver(s, 1).players;
    ToldAt(cfg, garbage, s.versions, t, 0);
    assert t.sent[..2] == t.sent[..1] + [t.sent[1]] && t.sent == t.sent[..2] + [t.sent[2]];
    ViewNext(garbage, t.sent[..1], t.sent[1]);
    ViewNext(garbage, t.sent[..2], t.sent[2]);
    NormKeeps(cfg, players);
    InitAgrees(Greeting(cfg), cfg, draws, NormPlayers(players), garbage(0));
  }

  lemma BlocksAlone(c: Client)
    requires c.InGame? && |c.replica.world.blocks| >= PACKET_OF_BLOCKS
    ensures FrameSize(c) > UDP_BUFF_SIZE
  {
    hide PlayersSize, Truncate;
  }

  /** On a board with room for 16384 blocks and with as many initial blocks there is a run in which a
      client that has read Hello, GameStarted and turn 0 ends because of its GUI. */
  lemma GuiOverflows(cfg: Settings) returns (draws: Draws, s: System, k: nat)
    requires cfg.Playable()
    requires PACKET_OF_BLOCKS <= Product(cfg.sizeX, cfg.sizeY) && PACKET_OF_BLOCKS <= cfg.initialBlocks
    ensures Reach(cfg, draws, s) && k < |s.sessions|
    ensures forall garbage: Garbage, limit: nat :: limit <= UDP_BUFF_SIZE ==>
              TooBigAt(limit, garbage, Decode(ParseServer, EncodeStream(s.sessions[k].outward.sent)).messages, 3)
  {
    hide Reach, GameInit, Decode, TooBigAt, Product, CellDraws;
    draws := CellDraws(cfg);
    ManyBlocks(cfg);
    s, k := TurnZeroIsSent(cfg, draws);
    var sent := s.sessions[k].outward.sent;
    forall garbage: Garbage, limit: nat | limit <= UDP_BUFF_SIZE
      ensures TooBigAt(limit, garbage, Decode(ParseServer, EncodeStream(sent)).messages, 3)
    {
      TurnZeroStops(cfg, draws, garbage, limit, s, k);
    }
  }

  lemma TurnZeroStops(cfg: Settings, draws: Draws, garbage: Garbage, limit: nat, s: System, k: nat)
    requires cfg.Playable() && Reach(cfg, draws, s) && k < |s.sessions|
    requires SentTurnZero(cfg, draws, s, k) && limit <= UDP_BUFF_SIZE
    requires |GameInit(cfg, draws).state.world.blocks| >= PACKET_OF_BLOCKS
    ensures TooBigAt(limit, garbage, Decode(ParseServer, EncodeStream(s.sessions[k].outward.sent)).messages, 3)
  {
    hide Reach, GameInit, Decode, Told, View, FrameSize, Inv, AllJoined;
    var t := s.sessions[k].outward;
    ToldWhenReached(cfg, draws, garbage, s, k);
    ToldFits(cfg, garbage, s.versions, t);
    StreamRoundTrip(t.sent);
    DecodedView(garbage, t, EncodeStream(t.sent), 3);
    assert t.sent[..3] == t.sent;
    MapAt(Norm, t.sent, 2);
    ReachInv(cfg, draws, s);
    VersionTells(cfg, draws, s, 1);
    FirstView(cfg, draws, garbage, s, k);
    BlocksAlone(View(garbage, t.sent));
  }

  /** For instance 60000 initial blocks on a board of 200 by 200. */
  lemma BlocksEverywhere(cfg: Settings) returns (draws: Draws, s: System, k: nat)
    requires cfg.sizeX == cfg.sizeY == 200 && cfg.initialBlocks == 60000
    ensures Reach(cfg, draws, s) && k < |s.sessions|
    ensures forall garbage: Garbage, limit: nat :: limit <= UDP_BUFF_SIZE ==>
              TooBigAt(limit, garbage, Decode(ParseServer, EncodeStream(s.sessions[k].outward.sent)).messages, 3)
  {
    hide Reach, Decode, TooBigAt;
    assert Product(200, 200) == 40000;
    draws, s, k := GuiOverflows(cfg);
  }
}
