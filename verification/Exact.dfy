/** Exactly when the promises about streams hold: for which settings every stream has its shape, and for
    which every client that has read its stream shows the server's game. */
module Exactness {
  import opened Types
  import opened Engine
  import opened ReplicaProof
  import opened Fuses
  import opened History
  import opened Wire
  import opened Codec
  import opened Streams
  import opened Gui
  import opened ClientFsm
  import opened Protocol
  import opened ProtocolProof
  import opened OutStream
  import opened Witness
  import opened EndToEnd
  import opened Watching

  // ---------------------------------------------------------------- the counter wraps

  /** Session k has been sent all turns of the first game and then its turn 0 again. */
  ghost predicate Wrapped(cfg: Settings, draws: Draws, s: System, k: nat)
    requires cfg.Playable()
  {
    && |s.versions| == 1 && k < |s.sessions|
    && var ver, t := Ver(s, 1), s.sessions[k].outward;
    && |ver.turns| == |ver.states| == 0x1_0000 && |t.sent| == |t.origin| == 0x1_0003
    && t.sent[0].HelloMessage? && t.sent[1] == GameStarted(ver.players)
    && (forall j :: 2 <= j < 0x1_0002 ==> t.sent[j] == TurnMessage(ver.turns[j - 2]) && t.origin[j] == 1)
    && t.sent[0x1_0002] == TurnMessage(ver.turns[0]) && t.origin[0x1_0002] == 1
    && ver.turns[0] == Turn(0, GameInit(cfg, draws).events) && ver.states[0] == GameInit(cfg, draws).state
    && (0 < cfg.playersCount ==> ver.states[0xFFFF].world.bombs != map[])
  }

  /** With game_length 65535 such a state is reachable, whatever the other settings and the random numbers. */
  lemma CounterWraps(cfg: Settings, draws: Draws) returns (s: System, k: nat)
    requires cfg.Playable() && cfg.gameLength == 0xFFFF
    ensures Reach(cfg, draws, s) && Wrapped(cfg, draws, s, k)
  {
    hide Reach, GameInit, WellFormed;
    k := cfg.playersCount;
    var played := PlayAll(cfg, draws, cfg.playersCount + 1);
    var full := SendTurns(cfg, draws, played, k, cfg.gameLength, 0x1_0000);
    s := SendAgain(cfg, draws, full, k);
  }

  lemma SendAgain(cfg: Settings, draws: Draws, s: System, k: nat) returns (s': System)
    requires cfg.Playable() && cfg.gameLength == 0xFFFF && Reach(cfg, draws, s) && Sent(s, k, 0x1_0000)
    ensures Reach(cfg, draws, s') && s'.versions == s.versions && |s'.sessions| == |s.sessions|
    ensures var t := s.sessions[k].outward;
            s'.sessions[k].outward == Sending(t, TurnMessage(Ver(s, 1).turns[0]), 1, OutTurns(1, false, 1))
  {
    hide Reach;
    var t := s.sessions[k].outward;
    s' := SetOut(s, k, Sending(t, TurnMessage(Ver(s, 1).turns[0]), 1, OutTurns(1, false, 1)));
    ReachNext(cfg, draws, s, Out(k), s');
  }

  // ---------------------------------------------------------------- the shape of the streams

  ghost predicate StreamsShaped(cfg: Settings, s: System) {
    forall k :: 0 <= k < |s.sessions| ==> WellShaped(cfg, s.versions, s.sessions[k].outward.sent)
  }

  /** A block contains the end of its game. */
  lemma BlocksEnd(cfg: Settings, versions: seq<Version>, visits: seq<Visit>)
    requires AllOver(cfg, versions, visits) && visits != []
    ensures var bs := Blocks(cfg, versions, visits); bs != [] && bs[|bs| - 1].GameEnded?
  {
    assert OverAt(cfg, versions, visits[|visits| - 1].version);
  }

  lemma OpeningStarts(cfg: Settings, ver: Version, announced: bool)
    requires announced ==> Has(ver.players, cfg.playersCount)
    ensures |Opening(cfg, ver, announced)| <= 0xFF
    ensures Opening(cfg, ver, announced) == [] || Opening(cfg, ver, announced)[0].AcceptedPlayer?
  {
    if announced {
      AnnouncementsStart(ver.players, cfg.playersCount);
    }
  }

  lemma {:induction false} AnnouncementsStart(players: map<U8, Player>, n: nat)
    requires Has(players, n)
    ensures n > 0 ==> Announcements(players, n)[0].AcceptedPlayer?
  {
    if n > 1 {
      AnnouncementsStart(players, n - 1);
    }
  }

  /** What a thread can have sent of a game: at most 65537 messages if it begins with the start. */
  lemma PartialIsShort(cfg: Settings, versions: seq<Version>, pc: OutCounter)
    requires CounterOk(cfg, versions, pc)
    ensures var p := Partial(cfg, versions, pc); p != [] && p[0].GameStarted? ==> |p| <= 0x1_0001
  {
    match pc
    case OutAccepted(v, i) => AnnouncementsStart(versions[v - 1].players, i);
    case OutStarted(v, a) => OpeningStarts(cfg, versions[v - 1], a);
    case OutTurns(v, a, i) => OpeningStarts(cfg, versions[v - 1], a);
    case OutEnd(v, a) => OpeningStarts(cfg, versions[v - 1], a);
    case _ =>
  }

  /** A stream without an end of a game, too long for a single game, has not the shape. */
  lemma TooLongForOneGame(cfg: Settings, versions: seq<Version>, sent: seq<ServerMessage>)
    requires |sent| > 0x1_0002 && sent[1].GameStarted?
    requires forall j :: 0 <= j < |sent| ==> !sent[j].GameEnded?
    ensures !WellShaped(cfg, versions, sent)
  {
    forall pc, visits ensures !OutOk(cfg, versions, OutThread(pc, sent, [], visits)) {
      if OutOk(cfg, versions, OutThread(pc, sent, [], visits)) {
        Unshaped(cfg, versions, sent, pc, visits);
      }
    }
  }

  lemma Unshaped(cfg: Settings, versions: seq<Version>, sent: seq<ServerMessage>, pc: OutCounter, visits: seq<Visit>)
    requires |sent| > 0x1_0002 && sent[1].GameStarted?
    requires forall j :: 0 <= j < |sent| ==> !sent[j].GameEnded?
    ensures !Shaped(cfg, versions, OutThread(pc, sent, [], visits))
  {
    hide Blocks, Partial, CounterOk;
    if Shaped(cfg, versions, OutThread(pc, sent, [], visits)) {
      ShapedParts(cfg, versions, sent, pc, visits);
    }
  }

  lemma ShapedParts(cfg: Settings, versions: seq<Version>, sent: seq<ServerMessage>, pc: OutCounter, visits: seq<Visit>)
    requires Shaped(cfg, versions, OutThread(pc, sent, [], visits)) && |sent| > 1 && sent[1].GameStarted?
    ensures |sent| <= 0x1_0002 || exists j :: 0 <= j < |sent| && sent[j].GameEnded?
  {
    hide Block, Playing, Opening, Announcements;
    PartialIsShort(cfg, versions, pc);
    if visits != [] {
      BlocksEnd(cfg, versions, visits);
      var bs := Blocks(cfg, versions, visits);
      assert sent[|bs|] == bs[|bs| - 1];
    }
  }

  lemma WrappedIsUnshaped(cfg: Settings, draws: Draws, s: System, k: nat)
    requires cfg.Playable() && Wrapped(cfg, draws, s, k)
    ensures !WellShaped(cfg, s.versions, s.sessions[k].outward.sent)
  {
    hide GameInit;
    var sent := s.sessions[k].outward.sent;
    forall j | 0 <= j < |sent| ensures !sent[j].GameEnded? {
      if 2 <= j < 0x1_0002 {
        assert sent[j].TurnMessage?;
      }
    }
    TooLongForOneGame(cfg, s.versions, sent);
  }

  /** Every client's stream has its shape in every reachable state exactly if game_length is at most
      65534: with 65535 the turn counter wraps and some client is sent the same game again and again. */
  lemma StreamShapeExactly(cfg: Settings)
    requires cfg.Playable()
    ensures (forall draws: Draws, s :: Reach(cfg, draws, s) ==> StreamsShaped(cfg, s)) <==> cfg.gameLength <= 0xFFFE
    ensures (forall draws: Draws, s :: Reach(cfg, draws, s) ==> OutsOk(cfg, s)) <==> cfg.gameLength <= 0xFFFE
  {
    hide Reach, OutOk, WellShaped, Wrapped;
    if cfg.gameLength <= 0xFFFE {
      forall draws: Draws, s | Reach(cfg, draws, s) ensures OutsOk(cfg, s) && StreamsShaped(cfg, s) {
        ShapedWhenReached(cfg, draws, s);
      }
    } else {
      var draws := (n: nat) => 0;
      var s, k := CounterWraps(cfg, draws);
      WrappedIsUnshaped(cfg, draws, s, k);
      UnshapedIsNotOk(cfg, draws, s, k);
    }
  }

  lemma UnshapedIsNotOk(cfg: Settings, draws: Draws, s: System, k: nat)
    requires cfg.Playable() && Wrapped(cfg, draws, s, k) && !WellShaped(cfg, s.versions, s.sessions[k].outward.sent)
    ensures !OutsOk(cfg, s) && !StreamsShaped(cfg, s)
  {
    hide OutOk, WellShaped, GameInit;
    if OutOk(cfg, s.versions, s.sessions[k].outward) {
      OutOkIsWellShaped(cfg, s.versions, s.sessions[k].outward);
    }
  }

  lemma ShapedWhenReached(cfg: Settings, draws: Draws, s: System)
    requires cfg.Playable() && Reach(cfg, draws, s) && cfg.gameLength <= 0xFFFE
    ensures OutsOk(cfg, s) && StreamsShaped(cfg, s)
  {
    hide OutOk, WellShaped, Run;
    var states, steps :| EndsIn(cfg, draws, states, steps, s);
    RunSize(cfg, draws, states, steps);
    StreamShape(cfg, draws, states, steps, |states| - 1);
    forall k | 0 <= k < |s.sessions| ensures WellShaped(cfg, s.versions, s.sessions[k].outward.sent) {
      OutOkIsWellShaped(cfg, s.versions, s.sessions[k].outward);
    }
  }

  // ---------------------------------------------------------------- what the clients show

  /** The client that has decoded the bytes shows the server's world of the last message, if it is a turn. */
  ghost predicate ShowsServer(garbage: Garbage, versions: seq<Version>, t: OutThread, arrived: Bytes) {
    var ms := Decode(ParseServer, arrived).messages;
    && |ms| <= |t.sent| == |t.origin|
    && (0 < |ms| && t.sent[|ms| - 1].TurnMessage? ==>
          && ClientRun(garbage, AwaitHello, ms).InGame?
          && ShowsTurn(versions, t, |ms|, ClientRun(garbage, AwaitHello, ms).replica.world))
  }

  /** In state s some part of session k's stream has arrived. */
  ghost predicate Arrived(cfg: Settings, draws: Draws, s: System, k: nat, arrived: Bytes)
    requires cfg.Playable()
  {
    Reach(cfg, draws, s) && k < |s.sessions| && arrived <= EncodeStream(s.sessions[k].outward.sent)
  }

  /** Every client shows the server's game, after every part of its stream, in every reachable state. */
  ghost predicate AllShow(cfg: Settings)
    requires cfg.Playable()
  {
    forall draws: Draws, garbage: Garbage, s, k: nat, arrived: Bytes ::
      Arrived(cfg, draws, s, k, arrived) ==> ShowsServer(garbage, s.versions, s.sessions[k].outward, arrived)
  }

  lemma ShowsWhenSteady(cfg: Settings, draws: Draws, garbage: Garbage, s: System, k: nat, arrived: Bytes)
    requires cfg.Playable() && Steady(cfg) && Arrived(cfg, draws, s, k, arrived)
    ensures ShowsServer(garbage, s.versions, s.sessions[k].outward, arrived)
  {
    hide Run, Reach, Decode, Told, View, ShowsTurn, ClientRun, EncodeStream, AllFit, MapSeq, Norm;
    ToldWhenReached(cfg, draws, garbage, s, k);
    var t := s.sessions[k].outward;
    ToldFits(cfg, garbage, s.versions, t);
    var ms := Decode(ParseServer, arrived).messages;
    DecodedView(garbage, t, arrived, |ms|);
    assert ms[..|ms|] == ms;
    if 0 < |ms| && t.sent[|ms| - 1].TurnMessage? {
      TurnShown(cfg, garbage, s.versions, t, |ms|);
    }
  }

  lemma ToldWhenReached(cfg: Settings, draws: Draws, garbage: Garbage, s: System, k: nat)
    requires cfg.Playable() && Reach(cfg, draws, s) && k < |s.sessions|
    ensures Told(cfg, garbage, s.versions, s.sessions[k].outward)
  {
    hide Told, Run;
    var states, steps :| EndsIn(cfg, draws, states, steps, s);
    RunSize(cfg, draws, states, steps);
    ClientsFollow(cfg, draws, garbage, states, steps, |states| - 1);
  }

  lemma {:induction false} StreamPrefix(ms: seq<ServerMessage>, n: nat)
    requires n <= |ms|
    ensures EncodeStream(ms[..n]) <= EncodeStream(ms)
  {
    hide EncodeServer;
    Gui.EncodeSplit(EncodeServer, ms[..n], ms[n..]);
    assert ms[..n] + ms[n..] == ms;
  }

  /** The whole first n messages of a stream have arrived. */
  lemma ArrivedFirst(cfg: Settings, draws: Draws, garbage: Garbage, s: System, k: nat, n: nat)
    requires cfg.Playable() && Reach(cfg, draws, s) && k < |s.sessions| && n <= |s.sessions[k].outward.sent|
    requires AllFit(s.sessions[k].outward.sent)
    ensures var sent := s.sessions[k].outward.sent;
            var arrived := EncodeStream(sent[..n]);
            && Arrived(cfg, draws, s, k, arrived) && |Decode(ParseServer, arrived).messages| == n
            && ClientRun(garbage, AwaitHello, Decode(ParseServer, arrived).messages) == View(garbage, sent[..n])
  {
    hide Reach, Decode, ClientRun, EncodeStream, Norm, Fits;
    var sent := s.sessions[k].outward.sent;
    StreamPrefix(sent, n);
    StreamRoundTrip(sent[..n]);
  }

  /** Replaying turn 0 of a game removes no bomb. */
  lemma {:induction false} BombsStay(h: Hello, r: Replica, events: seq<Event>)
    requires forall e :: e in events ==> !e.BombExploded? && !e.BombPlaced?
    ensures ApplyEvents(h, r, events).world.bombs == r.world.bombs
  {
    if events != [] {
      assert events[|events| - 1] in events;
      BombsStay(h, r, events[..|events| - 1]);
    }
  }

  lemma TurnZeroKeepsBombs(cfg: Settings, draws: Draws, h: Hello, r: Replica)
    requires cfg.Playable() && r.world.bombs != map[]
    ensures ApplyTurn(h, r, Turn(0, GameInit(cfg, draws).events)).world.bombs != map[]
  {
    hide ApplyEvents, InitBlocks;
    InitReportsNoBombs(cfg, draws, cfg.initialBlocks);
    BombsStay(h, StartTurn(r, 0), GameInit(cfg, draws).events);
    assert Ticked(r.world.bombs).Keys == r.world.bombs.Keys;
  }

  /** With a player, the client of the wrapped stream does not show the server's state 0 in the end, or it
      has not shown its last state before. */
  lemma WrappedMisleads(cfg: Settings, draws: Draws, garbage: Garbage, s: System, k: nat)
    requires cfg.Playable() && Wrapped(cfg, draws, s, k) && 0 < cfg.playersCount
    ensures var ver, sent := Ver(s, 1), s.sessions[k].outward.sent;
            var last, again := View(garbage, sent[..0x1_0002]), View(garbage, sent[..0x1_0003]);
            !(last.InGame? && last.replica.world == ver.states[0xFFFF].world
              && again.InGame? && again.replica.world == ver.states[0].world)
  {
    hide GameInit, View, ApplyTurn;
    var ver, sent := Ver(s, 1), s.sessions[k].outward.sent;
    assert sent[..0x1_0003] == sent[..0x1_0002] + [sent[0x1_0002]];
    ViewNext(garbage, sent[..0x1_0002], sent[0x1_0002]);
    InitState(cfg, draws);
    var last := View(garbage, sent[..0x1_0002]);
    if last.InGame? && last.replica.world == ver.states[0xFFFF].world {
      TurnZeroKeepsBombs(cfg, draws, last.hello, last.replica);
    }
  }

  lemma WrappedTurns(cfg: Settings, draws: Draws, s: System, k: nat)
    requires cfg.Playable() && Wrapped(cfg, draws, s, k) && Inv(cfg, draws, s)
    ensures var ver, t := Ver(s, 1), s.sessions[k].outward;
            && t.sent[0x1_0001] == TurnMessage(ver.turns[0xFFFF]) && ver.turns[0xFFFF].turn == 0xFFFF
            && t.origin[0x1_0001] == 1
  {
    hide GameInit, Inv, ValidTrace;
    VersionTells(cfg, draws, s, 1);
    TurnNumbers(cfg, draws, Ver(s, 1).Game(), 0xFFFF);
  }

  /** Every client that has read any part of its stream shows the server's game, in every reachable state,
      exactly if the turn counter does not wrap or there are no players. */
  lemma ClientShowsServerExactly(cfg: Settings)
    requires cfg.Playable()
    ensures AllShow(cfg) <==> Steady(cfg)
  {
    hide ShowsServer, Wrapped, Reach;
    if Steady(cfg) {
      forall draws: Draws, garbage: Garbage, s, k: nat, arrived: Bytes | Arrived(cfg, draws, s, k, arrived)
        ensures ShowsServer(garbage, s.versions, s.sessions[k].outward, arrived)
      {
        ShowsWhenSteady(cfg, draws, garbage, s, k, arrived);
      }
    } else {
      var draws, garbage := (n: nat) => 0, (n: nat) => 0;
      var s, k := CounterWraps(cfg, draws);
      SomeClientIsWrong(cfg, draws, garbage, s, k);
    }
  }

  lemma SomeClientIsWrong(cfg: Settings, draws: Draws, garbage: Garbage, s: System, k: nat)
    requires cfg.Playable() && Reach(cfg, draws, s) && Wrapped(cfg, draws, s, k) && 0 < cfg.playersCount
    ensures !AllShow(cfg)
  {
    hide Reach, Arrived, ShowsServer, GameInit, Told, Inv, EncodeStream, AllFit, Decode, ClientRun, View;
    var t := s.sessions[k].outward;
    ToldWhenReached(cfg, draws, garbage, s, k);
    ToldFits(cfg, garbage, s.versions, t);
    ArrivedFirst(cfg, draws, garbage, s, k, 0x1_0002);
    ArrivedFirst(cfg, draws, garbage, s, k, 0x1_0003);
    var one, two := EncodeStream(t.sent[..0x1_0002]), EncodeStream(t.sent[..0x1_0003]);
    if AllShow(cfg) {
      assert ShowsServer(garbage, s.versions, t, one) && ShowsServer(garbage, s.versions, t, two);
      ReachInv(cfg, draws, s);
      WrappedTurns(cfg, draws, s, k);
      ShownWorld(garbage, s.versions, t, one, 0x1_0002);
      ShownWorld(garbage, s.versions, t, two, 0x1_0003);
      WrappedMisleads(cfg, draws, garbage, s, k);
    }
  }

  lemma ShownWorld(garbage: Garbage, versions: seq<Version>, t: OutThread, arrived: Bytes, n: nat)
    requires ShowsServer(garbage, versions, t, arrived) && |Decode(ParseServer, arrived).messages| == n
    requires 0 < n <= |t.sent| && t.sent[n - 1].TurnMessage?
    ensures var c := ClientRun(garbage, AwaitHello, Decode(ParseServer, arrived).messages);
            |t.origin| == |t.sent| && c.InGame? && ShowsTurn(versions, t, n, c.replica.world)
  {
  }
}
