/** Every message of the protocol as bytes, the parsers that undo them, and the round trips over whole
    streams (`messages.cpp`; tags of `messages.h` and `message_manager.cpp`). */
module Codec {
  import opened Types
  import opened Wire

  // ---------------------------------------------------------------- parts of messages

  function EncodePosition(p: Position): Bytes {
    EncodeU16(p.x) + EncodeU16(p.y)
  }

  function ParsePosition(bs: Bytes): Parsed<Position> {
    var (x, r) :- ParseU16(bs);
    var (y, r') :- ParseU16(r);
    Ok(Position(x, y), r')
  }

  lemma PositionRoundTrip(p: Position, r: Bytes)
    ensures ParsePosition(EncodePosition(p) + r) == Ok(p, r)
  {
    assert EncodePosition(p) + r == EncodeU16(p.x) + (EncodeU16(p.y) + r);
    ReadBackU16(p.x, EncodeU16(p.y) + r);
    ReadBackU16(p.y, r);
  }

  function EncodePlayer(p: Player): Bytes {
    EncodeString(p.name) + EncodeString(p.address)
  }

  function ParsePlayer(bs: Bytes): Parsed<Player> {
    var (name, r) :- ParseString(bs);
    var (address, r') :- ParseString(r);
    Ok(Player(name, address), r')
  }

  function NormPlayer(p: Player): Player {
    Player(Truncate(p.name), Truncate(p.address))
  }

  lemma PlayerRoundTrip(p: Player, r: Bytes)
    ensures ParsePlayer(EncodePlayer(p) + r) == Ok(NormPlayer(p), r)
  {
    assert EncodePlayer(p) + r == EncodeString(p.name) + (EncodeString(p.address) + r);
    StringRoundTrip(p.name, EncodeString(p.address) + r);
    StringRoundTrip(p.address, r);
  }

  // ---------------------------------------------------------------- events and turns

  function EncodeEvent(e: Event): Bytes {
    match e
    case BombPlaced(id, pos) => EncodeU8(0) + (EncodeU32(id) + EncodePosition(pos))
    case BombExploded(id, robots, blocks) =>
      EncodeU8(1) + (EncodeU32(id) + (EncodeVector(EncodeU8, robots) + EncodeVector(EncodePosition, blocks)))
    case PlayerMoved(i, pos) => EncodeU8(2) + (EncodeU8(i) + EncodePosition(pos))
    case BlockPlaced(pos) => EncodeU8(3) + EncodePosition(pos)
  }

  function ParseExploded(bs: Bytes): Parsed<Event> {
    var (id, r1) :- ParseU32(bs);
    var (robots, r2) :- ParseVector(ParseU8, r1);
    var (blocks, r3) :- ParseVector(ParsePosition, r2);
    Ok(BombExploded(id, robots, blocks), r3)
  }

  function ParseEvent(bs: Bytes): Parsed<Event> {
    var (tag, r) :- ParseU8(bs);
    if tag == 0 then
      var (id, r1) :- ParseU32(r);
      var (pos, r2) :- ParsePosition(r1);
      Ok(BombPlaced(id, pos), r2)
    else if tag == 1 then ParseExploded(r)
    else if tag == 2 then
      var (i, r1) :- ParseU8(r);
      var (pos, r2) :- ParsePosition(r1);
      Ok(PlayerMoved(i, pos), r2)
    else if tag == 3 then
      var (pos, r1) :- ParsePosition(r);
      Ok(BlockPlaced(pos), r1)
    else Unknown
  }

  /** The vectors are short enough to be sent. */
  predicate FitsEvent(e: Event) {
    e.BombExploded? ==> |e.robots| < 0x1_0000_0000 && |e.blocks| < 0x1_0000_0000
  }

  lemma U8sRoundTrip(xs: seq<U8>, r: Bytes)
    requires |xs| < 0x1_0000_0000
    ensures ParseVector(ParseU8, EncodeVector(EncodeU8, xs) + r) == Ok(xs, r)
  {
    forall i, s: Bytes | 0 <= i < |xs| ensures ParseU8(EncodeU8(xs[i]) + s) == Ok(Same(xs[i]), s) {
      ReadBackU8(xs[i], s);
    }
    VectorRoundTrip(ParseU8, EncodeU8, Same, xs, r);
    MapSame(xs);
  }

  lemma PositionsRoundTrip(xs: seq<Position>, r: Bytes)
    requires |xs| < 0x1_0000_0000
    ensures ParseVector(ParsePosition, EncodeVector(EncodePosition, xs) + r) == Ok(xs, r)
  {
    forall i, s: Bytes | 0 <= i < |xs| ensures ParsePosition(EncodePosition(xs[i]) + s) == Ok(Same(xs[i]), s) {
      PositionRoundTrip(xs[i], s);
    }
    VectorRoundTrip(ParsePosition, EncodePosition, Same, xs, r);
    MapSame(xs);
  }

  lemma EventRoundTrip(e: Event, r: Bytes)
    requires FitsEvent(e)
    ensures ParseEvent(EncodeEvent(e) + r) == Ok(e, r)
  {
    match e
    case BombPlaced(id, pos) =>
      var r1 := EncodePosition(pos) + r;
      assert EncodeEvent(e) + r == EncodeU8(0) + (EncodeU32(id) + r1);
      ReadBackU8(0, EncodeU32(id) + r1);
      ReadBackU32(id, r1);
      PositionRoundTrip(pos, r);
    case BombExploded(id, robots, blocks) =>
      var r2 := EncodeVector(EncodePosition, blocks) + r;
      var r1 := EncodeVector(EncodeU8, robots) + r2;
      assert EncodeEvent(e) + r == EncodeU8(1) + (EncodeU32(id) + r1);
      ReadBackU8(1, EncodeU32(id) + r1);
      ReadBackU32(id, r1);
      U8sRoundTrip(robots, r2);
      PositionsRoundTrip(blocks, r);
    case PlayerMoved(i, pos) =>
      var r1 := EncodePosition(pos) + r;
      assert EncodeEvent(e) + r == EncodeU8(2) + (EncodeU8(i) + r1);
      ReadBackU8(2, EncodeU8(i) + r1);
      ReadBackU8(i, r1);
      PositionRoundTrip(pos, r);
    case BlockPlaced(pos) =>
      assert EncodeEvent(e) + r == EncodeU8(3) + (EncodePosition(pos) + r);
      ReadBackU8(3, EncodePosition(pos) + r);
      PositionRoundTrip(pos, r);
  }

  function EncodeTurn(t: Turn): Bytes {
    EncodeU16(t.turn) + EncodeVector(EncodeEvent, t.events)
  }

  function ParseTurn(bs: Bytes): Parsed<Turn> {
    var (turn, r) :- ParseU16(bs);
    var (events, r') :- ParseVector(ParseEvent, r);
    Ok(Turn(turn, events), r')
  }

  predicate FitsTurn(t: Turn) {
    |t.events| < 0x1_0000_0000 && forall e :: e in t.events ==> FitsEvent(e)
  }

  lemma TurnRoundTrip(t: Turn, r: Bytes)
    requires FitsTurn(t)
    ensures ParseTurn(EncodeTurn(t) + r) == Ok(t, r)
  {
    var body := EncodeVector(EncodeEvent, t.events) + r;
    assert EncodeTurn(t) + r == EncodeU16(t.turn) + body;
    ReadBackU16(t.turn, body);
    forall i, s: Bytes | 0 <= i < |t.events| ensures ParseEvent(EncodeEvent(t.events[i]) + s) == Ok(Same(t.events[i]), s) {
      EventRoundTrip(t.events[i], s);
    }
    VectorRoundTrip(ParseEvent, EncodeEvent, Same, t.events, r);
    MapSame(t.events);
  }

  // ---------------------------------------------------------------- maps

  datatype Pair<+V> = Pair(key: U8, val: V)

  /** The entries of a map from key i on, in the ascending order of `std::map`. */
  function PairsFrom<V>(m: map<U8, V>, i: nat): (ps: seq<Pair<V>>)
    requires i <= 0x100
    ensures |ps| <= 0x100 - i
    decreases 0x100 - i
  {
    if i == 0x100 then []
    else if i in m then [Pair(i, m[i])] + PairsFrom(m, i + 1)
    else PairsFrom(m, i + 1)
  }

  /** Inserting pair after pair; a repeated key keeps its first value. */
  function FromPairs<V>(ps: seq<Pair<V>>): map<U8, V> {
    if ps == [] then map[]
    else
      var last := ps[|ps| - 1];
      InsertAbsent(FromPairs(ps[..|ps| - 1]), last.key, last.val)
  }

  /** A key is in the map exactly if some pair has it, and its value is that of the first such pair. */
  lemma {:induction false} FirstWins<V>(ps: seq<Pair<V>>, key: U8)
    ensures key in FromPairs(ps) <==> exists j :: 0 <= j < |ps| && ps[j].key == key
    ensures forall j :: 0 <= j < |ps| && ps[j].key == key && (forall x :: 0 <= x < j ==> ps[x].key != key) ==>
              key in FromPairs(ps) && FromPairs(ps)[key] == ps[j].val
  {
    if ps != [] {
      var front := ps[..|ps| - 1];
      FirstWins(front, key);
      if key in FromPairs(front) {
        var seen :| 0 <= seen < |front| && front[seen].key == key;
        assert ps[seen].key == key;
        forall j | 0 <= j < |ps| && ps[j].key == key && (forall x :: 0 <= x < j ==> ps[x].key != key)
          ensures FromPairs(ps)[key] == ps[j].val
        {
          assert j <= seen && front[j] == ps[j];
        }
      }
    }
  }

  lemma {:induction false} FromPairsShift<V>(p: Pair<V>, ps: seq<Pair<V>>)
    requires forall i :: 0 <= i < |ps| ==> ps[i].key != p.key
    ensures FromPairs([p] + ps) == FromPairs(ps)[p.key := p.val] && p.key !in FromPairs(ps)
  {
    if ps == [] {
      assert ([p] + ps)[..0] == [];
      assert FromPairs(([p] + ps)[..0]) == map[];
    } else {
      var front := ps[..|ps| - 1];
      assert ([p] + ps)[..|ps|] == [p] + front;
      FromPairsShift(p, front);
    }
  }

  lemma {:induction false} PairsRebuild<V>(m: map<U8, V>, i: nat)
    requires i <= 0x100
    ensures forall k :: 0 <= k < |PairsFrom(m, i)| ==> PairsFrom(m, i)[k].key >= i
    ensures FromPairs(PairsFrom(m, i)) == map k | k in m && k >= i :: m[k]
    decreases 0x100 - i
  {
    if i < 0x100 {
      PairsRebuild(m, i + 1);
      if i in m {
        FromPairsShift(Pair(i, m[i]), PairsFrom(m, i + 1));
      }
    }
  }

  function EncodeScore(p: Pair<U32>): Bytes {
    EncodeU8(p.key) + EncodeU32(p.val)
  }

  function ParseScore(bs: Bytes): Parsed<Pair<U32>> {
    var (i, r) :- ParseU8(bs);
    var (n, r') :- ParseU32(r);
    Ok(Pair(i, n), r')
  }

  function EncodeEntry(p: Pair<Player>): Bytes {
    EncodeU8(p.key) + EncodePlayer(p.val)
  }

  function ParseEntry(bs: Bytes): Parsed<Pair<Player>> {
    var (i, r) :- ParseU8(bs);
    var (p, r') :- ParsePlayer(r);
    Ok(Pair(i, p), r')
  }

  function EncodeScores(m: map<U8, U32>): Bytes {
    EncodeVector(EncodeScore, PairsFrom(m, 0))
  }

  function ParseScores(bs: Bytes): Parsed<map<U8, U32>> {
    var (ps, r) :- ParseVector(ParseScore, bs);
    Ok(FromPairs(ps), r)
  }

  function EncodePlayers(m: map<U8, Player>): Bytes {
    EncodeVector(EncodeEntry, PairsFrom(m, 0))
  }

  function ParsePlayers(bs: Bytes): Parsed<map<U8, Player>> {
    var (ps, r) :- ParseVector(ParseEntry, bs);
    Ok(FromPairs(ps), r)
  }

  function NormPlayers(m: map<U8, Player>): map<U8, Player> {
    map i | i in m :: NormPlayer(m[i])
  }

  lemma ScoreRoundTrip(p: Pair<U32>, r: Bytes)
    ensures ParseScore(EncodeScore(p) + r) == Ok(p, r)
  {
    assert EncodeScore(p) + r == EncodeU8(p.key) + (EncodeU32(p.val) + r);
    ReadBackU8(p.key, EncodeU32(p.val) + r);
    ReadBackU32(p.val, r);
  }

  lemma ScorePairsRoundTrip(ps: seq<Pair<U32>>, r: Bytes)
    requires |ps| < 0x1_0000_0000
    ensures ParseVector(ParseScore, EncodeVector(EncodeScore, ps) + r) == Ok(ps, r)
  {
    forall i, s: Bytes | 0 <= i < |ps| ensures ParseScore(EncodeScore(ps[i]) + s) == Ok(Same(ps[i]), s) {
      ScoreRoundTrip(ps[i], s);
    }
    VectorRoundTrip(ParseScore, EncodeScore, Same, ps, r);
    MapSame(ps);
  }

  lemma PairsOfAll<V>(m: map<U8, V>)
    ensures FromPairs(PairsFrom(m, 0)) == m
  {
    PairsRebuild(m, 0);
    assert (map k | k in m && k >= 0 :: m[k]) == m;
  }

  lemma ScoresRoundTrip(m: map<U8, U32>, r: Bytes)
    ensures ParseScores(EncodeScores(m) + r) == Ok(m, r)
  {
    ScorePairsRoundTrip(PairsFrom(m, 0), r);
    PairsOfAll(m);
  }

  function NormEntry(p: Pair<Player>): Pair<Player> {
    Pair(p.key, NormPlayer(p.val))
  }

  lemma {:induction false} NormEntries(m: map<U8, Player>, i: nat)
    requires i <= 0x100
    ensures MapSeq(NormEntry, PairsFrom(m, i)) == PairsFrom(NormPlayers(m), i)
    decreases 0x100 - i
  {
    if i < 0x100 {
      NormEntries(m, i + 1);
      if i in m {
        var ps := PairsFrom(m, i);
        assert ps[1..] == PairsFrom(m, i + 1);
      }
    }
  }

  lemma EntryRoundTrip(p: Pair<Player>, r: Bytes)
    ensures ParseEntry(EncodeEntry(p) + r) == Ok(NormEntry(p), r)
  {
    assert EncodeEntry(p) + r == EncodeU8(p.key) + (EncodePlayer(p.val) + r);
    ReadBackU8(p.key, EncodePlayer(p.val) + r);
    PlayerRoundTrip(p.val, r);
  }

  lemma EntriesRoundTrip(ps: seq<Pair<Player>>, r: Bytes)
    requires |ps| < 0x1_0000_0000
    ensures ParseVector(ParseEntry, EncodeVector(EncodeEntry, ps) + r) == Ok(MapSeq(NormEntry, ps), r)
  {
    forall i, s: Bytes | 0 <= i < |ps| ensures ParseEntry(EncodeEntry(ps[i]) + s) == Ok(NormEntry(ps[i]), s) {
      EntryRoundTrip(ps[i], s);
    }
    VectorRoundTrip(ParseEntry, EncodeEntry, NormEntry, ps, r);
  }

  lemma PlayersRoundTrip(m: map<U8, Player>, r: Bytes)
    ensures ParsePlayers(EncodePlayers(m) + r) == Ok(NormPlayers(m), r)
  {
    EntriesRoundTrip(PairsFrom(m, 0), r);
    NormEntries(m, 0);
    PairsOfAll(NormPlayers(m));
  }

  // ---------------------------------------------------------------- messages from the server

  function EncodeHello(h: Hello): Bytes {
    EncodeString(h.serverName) + (EncodeU8(h.playersCount) + EncodeTail(h))
  }

  function EncodeTail(h: Hello): Bytes {
    EncodeU16(h.sizeX) + (EncodeU16(h.sizeY) +
    (EncodeU16(h.gameLength) + (EncodeU16(h.explosionRadius) + EncodeU16(h.bombTimer))))
  }

  function ParseHello(bs: Bytes): Parsed<Hello> {
    var (name, r0) :- ParseString(bs);
    var (players, r1) :- ParseU8(r0);
    var (tail, r2) :- ParseTail(r1);
    Ok(Hello(name, players, tail.sizeX, tail.sizeY, tail.length, tail.radius, tail.timer), r2)
  }

  /** The five 16-bit fields that end a Hello. */
  datatype Tail = Tail(sizeX: U16, sizeY: U16, length: U16, radius: U16, timer: U16)

  function ParseTail(bs: Bytes): Parsed<Tail> {
    var (x, r2) :- ParseU16(bs);
    var (y, r3) :- ParseU16(r2);
    var (length, r4) :- ParseU16(r3);
    var (radius, r5) :- ParseU16(r4);
    var (timer, r6) :- ParseU16(r5);
    Ok(Tail(x, y, length, radius, timer), r6)
  }

  function NormHello(h: Hello): Hello {
    h.(serverName := Truncate(h.serverName))
  }

  lemma HelloRoundTrip(h: Hello, r: Bytes)
    ensures ParseHello(EncodeHello(h) + r) == Ok(NormHello(h), r)
  {
    hide EncodeString, ParseString, Truncate, ParseTail, EncodeTail, EncodeU8, ParseU8;
    var tail := EncodeTail(h) + r;
    var rest := EncodeU8(h.playersCount) + tail;
    assert EncodeHello(h) + r == EncodeString(h.serverName) + rest;
    StringRoundTrip(h.serverName, rest);
    ReadBackU8(h.playersCount, tail);
    TailRoundTrip(h, r);
  }

  lemma TailRoundTrip(h: Hello, r: Bytes)
    ensures ParseTail(EncodeTail(h) + r) == Ok(Tail(h.sizeX, h.sizeY, h.gameLength, h.explosionRadius, h.bombTimer), r)
  {
    hide EncodeU16, ParseU16;
    var r5 := EncodeU16(h.bombTimer) + r;
    var r4 := EncodeU16(h.explosionRadius) + r5;
    var r3 := EncodeU16(h.gameLength) + r4;
    var r2 := EncodeU16(h.sizeY) + r3;
    assert EncodeTail(h) + r == EncodeU16(h.sizeX) + r2;
    ReadBackU16(h.sizeX, r2);
    ReadBackU16(h.sizeY, r3);
    ReadBackU16(h.gameLength, r4);
    ReadBackU16(h.explosionRadius, r5);
    ReadBackU16(h.bombTimer, r);
  }

  function TagOf(m: ServerMessage): U8 {
    match m
    case HelloMessage(_) => 0
    case AcceptedPlayer(_, _) => 1
    case GameStarted(_) => 2
    case TurnMessage(_) => 3
    case GameEnded(_) => 4
  }

  function EncodeBody(m: ServerMessage): Bytes {
    match m
    case HelloMessage(h) => EncodeHello(h)
    case AcceptedPlayer(id, p) => EncodeU8(id) + EncodePlayer(p)
    case GameStarted(players) => EncodePlayers(players)
    case TurnMessage(t) => EncodeTurn(t)
    case GameEnded(scores) => EncodeScores(scores)
  }

  function EncodeServer(m: ServerMessage): Bytes {
    EncodeU8(TagOf(m)) + EncodeBody(m)
  }

  function ParseBody(tag: U8, bs: Bytes): Parsed<ServerMessage> {
    if tag == 0 then
      var (h, r) :- ParseHello(bs);
      Ok(HelloMessage(h), r)
    else if tag == 1 then
      var (id, r) :- ParseU8(bs);
      var (p, r') :- ParsePlayer(r);
      Ok(AcceptedPlayer(id, p), r')
    else if tag == 2 then
      var (players, r) :- ParsePlayers(bs);
      Ok(GameStarted(players), r)
    else if tag == 3 then
      var (t, r) :- ParseTurn(bs);
      Ok(TurnMessage(t), r)
    else if tag == 4 then
      var (scores, r) :- ParseScores(bs);
      Ok(GameEnded(scores), r)
    else Unknown
  }

  function ParseServer(bs: Bytes): Parsed<ServerMessage> {
    var (tag, r) :- ParseU8(bs);
    ParseBody(tag, r)
  }

  /** What arrives: strings longer than 255 bytes are cut. */
  function Norm(m: ServerMessage): ServerMessage {
    match m
    case HelloMessage(h) => HelloMessage(NormHello(h))
    case AcceptedPlayer(id, p) => AcceptedPlayer(id, NormPlayer(p))
    case GameStarted(players) => GameStarted(NormPlayers(players))
    case TurnMessage(_) => m
    case GameEnded(_) => m
  }

  predicate Fits(m: ServerMessage) {
    m.TurnMessage? ==> FitsTurn(m.turn)
  }

  lemma AcceptedRoundTrip(id: U8, p: Player, r: Bytes)
    ensures ParseBody(1, EncodeU8(id) + EncodePlayer(p) + r) == Ok(AcceptedPlayer(id, NormPlayer(p)), r)
  {
    hide ParseHello, ParsePlayers, ParseTurn, ParseScores, ParsePlayer, EncodePlayer, NormPlayer, ParseU8, EncodeU8;
    var player := EncodePlayer(p);
    assert EncodeU8(id) + player + r == EncodeU8(id) + (player + r);
    ReadBackU8(id, player + r);
    PlayerRoundTrip(p, r);
  }

  lemma BodyRoundTrip(m: ServerMessage, r: Bytes)
    requires Fits(m)
    ensures ParseBody(TagOf(m), EncodeBody(m) + r) == Ok(Norm(m), r)
  {
    hide ParseHello, ParsePlayers, ParseTurn, ParseScores, ParsePlayer, ParseU8;
    hide EncodeHello, EncodePlayers, EncodeTurn, EncodeScores, EncodePlayer, EncodeU8;
    hide FitsTurn, NormHello, NormPlayer, NormPlayers;
    match m
    case HelloMessage(h) => HelloRoundTrip(h, r);
    case AcceptedPlayer(id, p) => AcceptedRoundTrip(id, p, r);
    case GameStarted(players) => PlayersRoundTrip(players, r);
    case TurnMessage(t) => TurnRoundTrip(t, r);
    case GameEnded(scores) => ScoresRoundTrip(scores, r);
  }

  /** Wire round trip: parsing a serialised message followed by anything returns the message, cut
      strings aside, and leaves exactly what followed. */
  lemma ServerRoundTrip(m: ServerMessage, r: Bytes)
    requires Fits(m)
    ensures ParseServer(EncodeServer(m) + r) == Ok(Norm(m), r)
  {
    hide EncodeBody, ParseBody, Norm, Fits, EncodeU8, ParseU8, TagOf;
    var body := EncodeBody(m) + r;
    assert EncodeServer(m) + r == EncodeU8(TagOf(m)) + body;
    ReadBackU8(TagOf(m), body);
    BodyRoundTrip(m, r);
  }

  /** Messages whose strings fit survive the wire unchanged. */
  predicate ShortStrings(m: ServerMessage) {
    match m
    case HelloMessage(h) => |h.serverName| <= 0xFF
    case AcceptedPlayer(_, p) => |p.name| <= 0xFF && |p.address| <= 0xFF
    case GameStarted(players) => forall i :: i in players ==> |players[i].name| <= 0xFF && |players[i].address| <= 0xFF
    case TurnMessage(_) => true
    case GameEnded(_) => true
  }

  lemma TruncateIsExact(s: Bytes)
    ensures Truncate(s) == s <==> |s| <= 0xFF
  {
    if |s| == 0xFF {
      assert s[..0xFF] == s;
    }
  }

  /** A message arrives unchanged exactly when its strings are at most 255 bytes long. */
  lemma NormIsExact(m: ServerMessage)
    ensures Norm(m) == m <==> ShortStrings(m)
  {
    match m
    case HelloMessage(h) =>
      TruncateIsExact(h.serverName);
    case AcceptedPlayer(_, p) =>
      TruncateIsExact(p.name);
      TruncateIsExact(p.address);
    case GameStarted(players) =>
      forall i | i in players
        ensures NormPlayer(players[i]) == players[i] <==> |players[i].name| <= 0xFF && |players[i].address| <= 0xFF
      {
        TruncateIsExact(players[i].name);
        TruncateIsExact(players[i].address);
      }
      if NormPlayers(players) == players {
        assert forall i :: i in players ==> NormPlayers(players)[i] == players[i];
      } else {
        assert exists i :: i in players && NormPlayer(players[i]) != players[i];
      }
    case TurnMessage(_) =>
    case GameEnded(_) =>
  }

  // ---------------------------------------------------------------- messages from the client

  function EncodeClient(m: ClientMessage): Bytes {
    match m
    case Join(name) => EncodeU8(0) + EncodeString(name)
    case PlaceBomb => EncodeU8(1)
    case PlaceBlock => EncodeU8(2)
    case Move(d) => EncodeU8(3) + EncodeU8(d)
  }

  function ParseClient(bs: Bytes): Parsed<ClientMessage> {
    var (tag, r) :- ParseU8(bs);
    if tag == 0 then
      var (name, r1) :- ParseString(r);
      Ok(Join(name), r1)
    else if tag == 1 then Ok(PlaceBomb, r)
    else if tag == 2 then Ok(PlaceBlock, r)
    else if tag == 3 then
      var (d, r1) :- ParseU8(r);
      Ok(Move(d), r1)
    else Unknown
  }

  function NormClient(m: ClientMessage): ClientMessage {
    if m.Join? then Join(Truncate(m.name)) else m
  }

  lemma ClientRoundTrip(m: ClientMessage, r: Bytes)
    ensures ParseClient(EncodeClient(m) + r) == Ok(NormClient(m), r)
  {
    match m
    case Join(name) =>
      assert EncodeClient(m) + r == EncodeU8(0) + (EncodeString(name) + r);
      ReadBackU8(0, EncodeString(name) + r);
      StringRoundTrip(name, r);
    case PlaceBomb =>
      ReadBackU8(1, r);
    case PlaceBlock =>
      ReadBackU8(2, r);
    case Move(d) =>
      assert EncodeClient(m) + r == EncodeU8(3) + (EncodeU8(d) + r);
      ReadBackU8(3, EncodeU8(d) + r);
      ReadBackU8(d, r);
  }

  /** And back: what a client parser accepts is exactly the encoding of what it returns. */
  lemma ClientParseIsExact(bs: Bytes)
    requires ParseClient(bs).Ok?
    ensures var p := ParseClient(bs); bs == EncodeClient(p.value) + p.rest && NormClient(p.value) == p.value
  {
    hide EncodeString, ParseString, Truncate;
    var p := ParseClient(bs);
    var r := bs[1..];
    assert bs == EncodeU8(bs[0]) + r;
    if bs[0] == 0 {
      StringParseIsExact(r);
    } else if bs[0] == 3 {
      assert r == EncodeU8(r[0]) + r[1..];
    }
  }

  lemma StringParseIsExact(bs: Bytes)
    requires ParseString(bs).Ok?
    ensures var p := ParseString(bs); bs == EncodeString(p.value) + p.rest && Truncate(p.value) == p.value
  {
    var r := bs[1..];
    var p := ParseString(bs);
    TruncateIsExact(p.value);
    assert bs == [bs[0]] + (r[..bs[0]] + r[bs[0]..]);
  }
}
