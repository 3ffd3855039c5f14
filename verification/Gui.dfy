/** The packets a client sends to its GUI: their layout, their sizes, and the fixed buffer they have to
    fit in (`network_handler.h`, `network_handler.cpp`, `messages.cpp`, `message_manager.cpp`). */
module Gui {
  import opened Types
  import opened Wire
  import opened Codec
  import opened Handler
  import opened Messages

  const UDP_BUFF_SIZE: nat := 65536

  // ---------------------------------------------------------------- the layout

  function EncodeLobby(h: Hello, players: map<U8, Player>): Bytes {
    EncodeU8(0) + (EncodeHello(h) + EncodePlayers(players))
  }

  function EncodePlace(p: Pair<Position>): Bytes {
    EncodeU8(p.key) + EncodePosition(p.val)
  }

  function EncodeBomb(b: Bomb): Bytes {
    EncodePosition(b.position) + EncodeU16(b.timer)
  }

  function EncodeHeader(m: GameMessage): Bytes {
    EncodeString(m.serverName) +
    (EncodeU16(m.sizeX) + (EncodeU16(m.sizeY) + (EncodeU16(m.gameLength) + EncodeU16(m.turn))))
  }

  function EncodeBoard(m: GameMessage): Bytes {
    EncodeVector(EncodePosition, m.blocks) +
    (EncodeVector(EncodeBomb, m.bombs) + EncodeVector(EncodePosition, m.explosions))
  }

  function EncodeGame(m: GameMessage): Bytes {
    EncodeU8(1) + (EncodeHeader(m) + (EncodePlayers(m.players) +
    (EncodeVector(EncodePlace, PairsFrom(m.positions, 0)) + (EncodeBoard(m) + EncodeScores(m.scores)))))
  }

  // ---------------------------------------------------------------- the sizes

  /** The bytes of a map of players after its length: key, two length bytes and the strings. */
  function EntriesSize(ps: seq<Pair<Player>>): nat {
    if ps == [] then 0
    else 3 + |Truncate(ps[0].val.name)| + |Truncate(ps[0].val.address)| + EntriesSize(ps[1..])
  }

  function PlayersSize(players: map<U8, Player>): nat {
    4 + EntriesSize(PairsFrom(players, 0))
  }

  function LobbySize(h: Hello, players: map<U8, Player>): nat {
    13 + |Truncate(h.serverName)| + PlayersSize(players)
  }

  function MessageSize(m: GameMessage): nat {
    30 + |Truncate(m.serverName)| + PlayersSize(m.players) + 5 * |m.positions| + 5 * |m.scores|
    + 4 * |m.blocks| + 6 * |m.bombs| + 4 * |m.explosions|
  }

  lemma {:induction false} ConstSize<T>(enc: T -> Bytes, xs: seq<T>, k: nat)
    requires forall x :: x in xs ==> |enc(x)| == k
    ensures |EncodeSeq(enc, xs)| == k * |xs|
  {
    if xs != [] {
      assert xs[0] in xs;
      forall x | x in xs[1..] ensures |enc(x)| == k {
        assert x in xs;
      }
      ConstSize(enc, xs[1..], k);
      OneMore(k, |xs| - 1);
    }
  }

  lemma OneMore(k: nat, n: nat)
    ensures k * n + k == k * (n + 1)
  {
  }

  lemma AtLeast(k: nat, n: nat)
    requires 1 <= k
    ensures k * n >= n
  {
  }

  lemma {:induction false} EntriesAre(ps: seq<Pair<Player>>)
    ensures |EncodeSeq(EncodeEntry, ps)| == EntriesSize(ps)
  {
    if ps != [] {
      EntriesAre(ps[1..]);
    }
  }

  lemma PlayersAre(players: map<U8, Player>)
    ensures |EncodePlayers(players)| == PlayersSize(players)
  {
    MapSize(players);
    EntriesAre(PairsFrom(players, 0));
  }

  lemma LobbyIs(h: Hello, players: map<U8, Player>)
    ensures |EncodeLobby(h, players)| == LobbySize(h, players)
  {
    PlayersAre(players);
  }

  /** A vector of elements of k bytes; a length beyond 32 bits is too long for any packet anyway. */
  lemma VectorIs<T>(enc: T -> Bytes, xs: seq<T>, k: nat)
    requires 1 <= k && forall x :: x in xs ==> |enc(x)| == k
    ensures |xs| < 0x1_0000_0000 ==> |EncodeVector(enc, xs)| == 4 + k * |xs|
    ensures |xs| >= 0x1_0000_0000 ==> |EncodeVector(enc, xs)| > UDP_BUFF_SIZE
    ensures |EncodeVector(enc, xs)| >= |xs| && k * |xs| >= |xs|
  {
    ConstSize(enc, xs, k);
    AtLeast(k, |xs|);
    hide EncodeSeq;
  }

  /** Up to the size of the buffer the formula and the packet agree. */
  lemma GameIs(m: GameMessage)
    ensures |EncodeGame(m)| <= UDP_BUFF_SIZE <==> MessageSize(m) <= UDP_BUFF_SIZE
    ensures MessageSize(m) <= UDP_BUFF_SIZE ==> |EncodeGame(m)| == MessageSize(m)
  {
    MapSize(m.positions);
    MapSize(m.scores);
    PlayersAre(m.players);
    VectorIs(EncodePlace, PairsFrom(m.positions, 0), 5);
    VectorIs(EncodeScore, PairsFrom(m.scores, 0), 5);
    VectorIs(EncodePosition, m.blocks, 4);
    VectorIs(EncodeBomb, m.bombs, 6);
    VectorIs(EncodePosition, m.explosions, 4);
    hide EncodeSeq, EncodePlayers, PlayersSize;
    assert |EncodeHeader(m)| == 9 + |Truncate(m.serverName)|;
  }

  // ---------------------------------------------------------------- the handler

  class UDPHandler {
    const little: bool
    /** The largest datagram the network takes. */
    const datagramLimit: nat
    /** The part of the send buffer before the send pointer. */
    var packet: Bytes
    /** The datagrams sent so far. */
    var sent: seq<Bytes>

    constructor (little: bool, datagramLimit: nat)
      ensures this.little == little && this.datagramLimit == datagramLimit && packet == [] && sent == []
    {
      this.little := little;
      this.datagramLimit := datagramLimit;
      packet, sent := [], [];
    }

    /** The size up to which a packet can be sent. */
    function Limit(): nat {
      if datagramLimit < UDP_BUFF_SIZE then datagramLimit else UDP_BUFF_SIZE
    }

    /** Refuses an element that does not fit into the rest of the buffer. */
    method AppendToOutcomingPacket(n: nat, value: nat) returns (ok: bool)
      requires IsWidth(n)
      modifies this`packet
      ensures Fit(old(packet), packet, EncodeInt(n, value), ok)
    {
      if UDP_BUFF_SIZE < |packet| + n {
        return false;
      }
      var memory := HostBytes(little, n, value);
      var element := new U8[n](i requires 0 <= i < |memory| => memory[i]);
      assert element[..n] == memory;
      var converted := ConvertByteOrder(little, element, n);
      SwappedBytes(n, value);
      packet := packet + element[..n];
      return true;
    }

    /** Sends the packet and empties the buffer; the network refuses too large a datagram. */
    method FlushOutcomingPacket() returns (ok: bool)
      modifies this`packet, this`sent
      ensures ok <==> |old(packet)| <= datagramLimit
      ensures ok ==> packet == [] && sent == old(sent) + [old(packet)]
      ensures !ok ==> sent == old(sent)
    {
      if |packet| > datagramLimit {
        return false;
      }
      sent := sent + [packet];
      packet := [];
      return true;
    }
  }

  /** The bytes were appended to the packet, or did not fit. */
  predicate Fit(was: Bytes, now: Bytes, bytes: Bytes, ok: bool) {
    && (ok <==> |was| + |bytes| <= UDP_BUFF_SIZE)
    && (ok ==> now == was + bytes)
  }

  // ---------------------------------------------------------------- the writers

  method AppendU8(u: UDPHandler, n: U8) returns (ok: bool)
    modifies u`packet
    ensures Fit(old(u.packet), u.packet, EncodeU8(n), ok)
  {
    EncodeWidths(n);
    ok := u.AppendToOutcomingPacket(1, n);
  }

  method AppendU16(u: UDPHandler, n: U16) returns (ok: bool)
    modifies u`packet
    ensures Fit(old(u.packet), u.packet, EncodeU16(n), ok)
  {
    EncodeWidths(n);
    ok := u.AppendToOutcomingPacket(2, n);
  }

  method AppendU32(u: UDPHandler, n: U32) returns (ok: bool)
    modifies u`packet
    ensures Fit(old(u.packet), u.packet, EncodeU32(n), ok)
  {
    EncodeWidths(n);
    ok := u.AppendToOutcomingPacket(4, n);
  }

  method AppendString(u: UDPHandler, s: Bytes) returns (ok: bool)
    modifies u`packet
    ensures Fit(old(u.packet), u.packet, EncodeString(s), ok)
  {
    var n: U8 := if |s| < 0xFF then |s| else 0xFF;
    assert Truncate(s) == s[..n];
    ok := AppendU8(u, n);
    if !ok {
      return;
    }
    for i := 0 to n
      invariant u.packet == old(u.packet) + [n] + s[..i] && |u.packet| <= UDP_BUFF_SIZE
    {
      ok := AppendU8(u, s[i]);
      if !ok {
        return;
      }
    }
    ok := true;
  }

  method AppendPosition(u: UDPHandler, p: Position) returns (ok: bool)
    modifies u`packet
    ensures Fit(old(u.packet), u.packet, EncodePosition(p), ok)
  {
    ok := AppendU16(u, p.x);
    if ok {
      ok := AppendU16(u, p.y);
    }
  }

  method AppendBomb(u: UDPHandler, b: Bomb) returns (ok: bool)
    modifies u`packet
    ensures Fit(old(u.packet), u.packet, EncodeBomb(b), ok)
  {
    ok := AppendPosition(u, b.position);
    if ok {
      ok := AppendU16(u, b.timer);
    }
  }

  method AppendEntry(u: UDPHandler, p: Pair<Player>) returns (ok: bool)
    modifies u`packet
    ensures Fit(old(u.packet), u.packet, EncodeEntry(p), ok)
  {
    hide EncodeString;
    ok := AppendU8(u, p.key);
    if ok {
      ok := AppendString(u, p.val.name);
    }
    if ok {
      ok := AppendString(u, p.val.address);
    }
  }

  method AppendPlace(u: UDPHandler, p: Pair<Position>) returns (ok: bool)
    modifies u`packet
    ensures Fit(old(u.packet), u.packet, EncodePlace(p), ok)
  {
    ok := AppendU8(u, p.key);
    if ok {
      ok := AppendPosition(u, p.val);
    }
  }

  method AppendScore(u: UDPHandler, p: Pair<U32>) returns (ok: bool)
    modifies u`packet
    ensures Fit(old(u.packet), u.packet, EncodeScore(p), ok)
  {
    ok := AppendU8(u, p.key);
    if ok {
      ok := AppendU32(u, p.val);
    }
  }

  // ---------------------------------------------------------------- the loops

  lemma {:induction false} EncodeSplit<T>(enc: T -> Bytes, a: seq<T>, c: seq<T>)
    ensures EncodeSeq(enc, a + c) == EncodeSeq(enc, a) + EncodeSeq(enc, c)
  {
    if c == [] {
      assert a + c == a;
    } else {
      var front := c[..|c| - 1];
      EncodeSplit(enc, a, front);
      EncodeSnoc(enc, a + front, c[|c| - 1]);
      EncodeSnoc(enc, front, c[|c| - 1]);
      assert (a + front) + [c[|c| - 1]] == a + c && front + [c[|c| - 1]] == c;
    }
  }

  /** What the loops over vectors need: the next element, and that a part is no longer than the whole. */
  lemma NextPart<T>(enc: T -> Bytes, xs: seq<T>, i: nat)
    requires i < |xs|
    ensures EncodeSeq(enc, xs[..i + 1]) == EncodeSeq(enc, xs[..i]) + enc(xs[i])
    ensures |EncodeSeq(enc, xs[..i])| + |enc(xs[i])| <= |EncodeSeq(enc, xs)|
  {
    EncodeNext(enc, xs, i);
    EncodeSplit(enc, xs[..i + 1], xs[i + 1..]);
    assert xs[..i + 1] + xs[i + 1..] == xs;
  }

  method AppendPositions(u: UDPHandler, v: seq<Position>) returns (ok: bool)
    modifies u`packet
    ensures Fit(old(u.packet), u.packet, EncodeVector(EncodePosition, v), ok)
  {
    hide EncodePosition, EncodeU32;
    if |v| > 0xFFFF_FFFF {
      TooManyPositions(v);
      return false;
    }
    ok := AppendU32(u, |v|);
    if !ok {
      return;
    }
    for i := 0 to |v|
      invariant u.packet == old(u.packet) + EncodeU32(|v|) + EncodeSeq(EncodePosition, v[..i])
      invariant |u.packet| <= UDP_BUFF_SIZE
    {
      NextPart(EncodePosition, v, i);
      ok := AppendPosition(u, v[i]);
      if !ok {
        return;
      }
    }
    assert v[..|v|] == v;
    ok := true;
  }

  lemma TooManyPositions(v: seq<Position>)
    requires |v| > 0xFFFF_FFFF
    ensures |EncodeVector(EncodePosition, v)| > UDP_BUFF_SIZE
  {
    VectorIs(EncodePosition, v, 4);
  }

  method AppendBombs(u: UDPHandler, v: seq<Bomb>) returns (ok: bool)
    modifies u`packet
    ensures Fit(old(u.packet), u.packet, EncodeVector(EncodeBomb, v), ok)
  {
    hide EncodeBomb, EncodeU32;
    if |v| > 0xFFFF_FFFF {
      TooManyBombs(v);
      return false;
    }
    ok := AppendU32(u, |v|);
    if !ok {
      return;
    }
    for i := 0 to |v|
      invariant u.packet == old(u.packet) + EncodeU32(|v|) + EncodeSeq(EncodeBomb, v[..i])
      invariant |u.packet| <= UDP_BUFF_SIZE
    {
      NextPart(EncodeBomb, v, i);
      ok := AppendBomb(u, v[i]);
      if !ok {
        return;
      }
    }
    assert v[..|v|] == v;
    ok := true;
  }

  lemma TooManyBombs(v: seq<Bomb>)
    requires |v| > 0xFFFF_FFFF
    ensures |EncodeVector(EncodeBomb, v)| > UDP_BUFF_SIZE
  {
    VectorIs(EncodeBomb, v, 6);
  }

  method AppendPlayers(u: UDPHandler, m: map<U8, Player>) returns (ok: bool)
    modifies u`packet
    ensures Fit(old(u.packet), u.packet, EncodePlayers(m), ok)
  {
    hide EncodeEntry, EncodeU32;
    MapSize(m);
    var ps := PairsFrom(m, 0);
    ok := AppendU32(u, |m|);
    if !ok {
      return;
    }
    for i := 0 to |ps|
      invariant u.packet == old(u.packet) + EncodeU32(|ps|) + EncodeSeq(EncodeEntry, ps[..i])
      invariant |u.packet| <= UDP_BUFF_SIZE
    {
      NextPart(EncodeEntry, ps, i);
      ok := AppendEntry(u, ps[i]);
      if !ok {
        return;
      }
    }
    assert ps[..|ps|] == ps;
    ok := true;
  }

  method AppendPlaces(u: UDPHandler, m: map<U8, Position>) returns (ok: bool)
    modifies u`packet
    ensures Fit(old(u.packet), u.packet, EncodeVector(EncodePlace, PairsFrom(m, 0)), ok)
  {
    hide EncodePlace, EncodeU32;
    MapSize(m);
    var ps := PairsFrom(m, 0);
    ok := AppendU32(u, |m|);
    if !ok {
      return;
    }
    for i := 0 to |ps|
      invariant u.packet == old(u.packet) + EncodeU32(|ps|) + EncodeSeq(EncodePlace, ps[..i])
      invariant |u.packet| <= UDP_BUFF_SIZE
    {
      NextPart(EncodePlace, ps, i);
      ok := AppendPlace(u, ps[i]);
      if !ok {
        return;
      }
    }
    assert ps[..|ps|] == ps;
    ok := true;
  }

  method AppendScores(u: UDPHandler, m: map<U8, U32>) returns (ok: bool)
    modifies u`packet
    ensures Fit(old(u.packet), u.packet, EncodeScores(m), ok)
  {
    hide EncodeScore, EncodeU32;
    MapSize(m);
    var ps := PairsFrom(m, 0);
    ok := AppendU32(u, |m|);
    if !ok {
      return;
    }
    for i := 0 to |ps|
      invariant u.packet == old(u.packet) + EncodeU32(|ps|) + EncodeSeq(EncodeScore, ps[..i])
      invariant |u.packet| <= UDP_BUFF_SIZE
    {
      NextPart(EncodeScore, ps, i);
      ok := AppendScore(u, ps[i]);
      if !ok {
        return;
      }
    }
    assert ps[..|ps|] == ps;
    ok := true;
  }

  // ---------------------------------------------------------------- whole packets

  method AppendHello(u: UDPHandler, h: Hello) returns (ok: bool)
    modifies u`packet
    ensures Fit(old(u.packet), u.packet, EncodeHello(h), ok)
  {
    hide EncodeString;
    ok := AppendString(u, h.serverName);
    if ok { ok := AppendU8(u, h.playersCount); }
    if ok { ok := AppendU16(u, h.sizeX); }
    if ok { ok := AppendU16(u, h.sizeY); }
    if ok { ok := AppendU16(u, h.gameLength); }
    if ok { ok := AppendU16(u, h.explosionRadius); }
    if ok { ok := AppendU16(u, h.bombTimer); }
  }

  method AppendHeader(u: UDPHandler, m: GameMessage) returns (ok: bool)
    modifies u`packet
    ensures Fit(old(u.packet), u.packet, EncodeHeader(m), ok)
  {
    hide EncodeString;
    ok := AppendString(u, m.serverName);
    if ok { ok := AppendU16(u, m.sizeX); }
    if ok { ok := AppendU16(u, m.sizeY); }
    if ok { ok := AppendU16(u, m.gameLength); }
    if ok { ok := AppendU16(u, m.turn); }
  }

  method AppendBoard(u: UDPHandler, m: GameMessage) returns (ok: bool)
    modifies u`packet
    ensures Fit(old(u.packet), u.packet, EncodeBoard(m), ok)
  {
    hide EncodeVector;
    ok := AppendPositions(u, m.blocks);
    if ok { ok := AppendBombs(u, m.bombs); }
    if ok { ok := AppendPositions(u, m.explosions); }
  }

  /** The lobby packet goes out, or is too big, exactly by its size. */
  method SendLobby(u: UDPHandler, h: Hello, players: map<U8, Player>) returns (ok: bool)
    requires u.packet == []
    modifies u`packet, u`sent
    ensures ok <==> LobbySize(h, players) <= u.Limit()
    ensures if ok then u.packet == [] && u.sent == old(u.sent) + [EncodeLobby(h, players)] else u.sent == old(u.sent)
  {
    hide EncodeHello, EncodePlayers, LobbySize;
    LobbyIs(h, players);
    ok := AppendU8(u, 0);
    if ok { ok := AppendHello(u, h); }
    if ok { ok := AppendPlayers(u, players); }
    assert ok ==> u.packet == EncodeLobby(h, players);
    if ok { ok := u.FlushOutcomingPacket(); }
  }

  /** The game packet goes out, or is too big, exactly by its size. */
  method SendGame(u: UDPHandler, m: GameMessage) returns (ok: bool)
    requires u.packet == []
    modifies u`packet, u`sent
    ensures ok <==> MessageSize(m) <= u.Limit()
    ensures if ok then u.packet == [] && u.sent == old(u.sent) + [EncodeGame(m)] else u.sent == old(u.sent)
  {
    hide EncodeHeader, EncodeBoard, EncodePlayers, EncodeScores, EncodeVector, MessageSize;
    GameIs(m);
    ok := AppendU8(u, 1);
    if ok { ok := AppendHeader(u, m); }
    if ok { ok := AppendPlayers(u, m.players); }
    if ok { ok := AppendPlaces(u, m.positions); }
    if ok { ok := AppendBoard(u, m); }
    if ok { ok := AppendScores(u, m.scores); }
    assert ok ==> u.packet == EncodeGame(m);
    if ok { ok := u.FlushOutcomingPacket(); }
  }
}
