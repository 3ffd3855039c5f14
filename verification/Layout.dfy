/** The wire format spelled out: which fields a message has, in which order, how wide they are and at
    which offset each one stands (`messages.h`, `messages.cpp`). Nothing here mentions a parser. */
module Layout {
  import opened Types
  import opened Wire
  import opened Codec
  import opened Streams
  import Messages
  import opened Gui

  // ---------------------------------------------------------------- fields

  /** A number of a fixed width in network byte order, or a string: one byte with its length and at
      most 255 characters. */
  datatype Field = Num(width: nat, value: nat) | Text(chars: Bytes)

  function Kept(s: Bytes): nat {
    if |s| < 255 then |s| else 255
  }

  function FieldSize(f: Field): nat {
    match f
    case Num(width, _) => width
    case Text(chars) => 1 + Kept(chars)
  }

  /** The n bytes from `at` on spell the value. */
  predicate Spells(bs: Bytes, at: nat, n: nat, value: nat) {
    at + n <= |bs| && BigEndian(bs[at..at + n]) == value
  }

  /** The string stands at `at`, cut after 255 characters. */
  predicate TextAt(bs: Bytes, at: nat, s: Bytes) {
    at + 1 + Kept(s) <= |bs| && bs[at] == Kept(s) && bs[at + 1..at + 1 + Kept(s)] == s[..Kept(s)]
  }

  predicate FieldAt(bs: Bytes, at: nat, f: Field) {
    match f
    case Num(width, value) => Spells(bs, at, width, value)
    case Text(chars) => TextAt(bs, at, chars)
  }

  function Size(fs: seq<Field>): nat {
    if fs == [] then 0 else FieldSize(fs[0]) + Size(fs[1..])
  }

  /** The fields stand one after the other from `at` on. */
  predicate Has(bs: Bytes, at: nat, fs: seq<Field>)
    decreases |fs|
  {
    fs == [] || (FieldAt(bs, at, fs[0]) && Has(bs, at + FieldSize(fs[0]), fs[1..]))
  }

  /** The bytes are these fields and nothing else. */
  predicate Laid(bs: Bytes, fs: seq<Field>) {
    Has(bs, 0, fs) && |bs| == Size(fs)
  }

  // ---------------------------------------------------------------- the fields of every message

  function PositionFields(p: Position): seq<Field> {
    [Num(2, p.x), Num(2, p.y)]
  }

  function PlayerFields(p: Player): seq<Field> {
    [Text(p.name), Text(p.address)]
  }

  function BombFields(b: Bomb): seq<Field> {
    PositionFields(b.position) + [Num(2, b.timer)]
  }

  function IdFields(id: U8): seq<Field> {
    [Num(1, id)]
  }

  function ScoreFields(score: U32): seq<Field> {
    [Num(4, score)]
  }

  function ListFields<T>(f: T -> seq<Field>, xs: seq<T>): seq<Field> {
    if xs == [] then [] else f(xs[0]) + ListFields(f, xs[1..])
  }

  /** A vector is its length in 32 bits and its elements. */
  function VectorFields<T>(f: T -> seq<Field>, xs: seq<T>): seq<Field> {
    [Num(4, |xs|)] + ListFields(f, xs)
  }

  function EntryFields<V>(f: V -> seq<Field>, m: map<U8, V>, keys: seq<U8>): seq<Field>
    requires forall k :: k in keys ==> k in m
  {
    if keys == [] then []
    else
      assert keys[0] in keys;
      [Num(1, keys[0])] + f(m[keys[0]]) + EntryFields(f, m, keys[1..])
  }

  /** A map is its size in 32 bits and its entries in ascending order of keys, each key before its value. */
  function MapFields<V>(f: V -> seq<Field>, m: map<U8, V>): seq<Field> {
    KeysFromIsAscending(m.Keys, 0);
    [Num(4, |m|)] + EntryFields(f, m, AscendingKeys(m.Keys))
  }

  function EventFields(e: Event): seq<Field> {
    match e
    case BombPlaced(id, p) => [Num(1, 0), Num(4, id)] + PositionFields(p)
    case BombExploded(id, robots, blocks) =>
      [Num(1, 1), Num(4, id)] + (VectorFields(IdFields, robots) + VectorFields(PositionFields, blocks))
    case PlayerMoved(i, p) => [Num(1, 2), Num(1, i)] + PositionFields(p)
    case BlockPlaced(p) => [Num(1, 3)] + PositionFields(p)
  }

  function HelloFields(h: Hello): seq<Field> {
    [Text(h.serverName), Num(1, h.playersCount), Num(2, h.sizeX), Num(2, h.sizeY), Num(2, h.gameLength),
     Num(2, h.explosionRadius), Num(2, h.bombTimer)]
  }

  function ServerFields(m: ServerMessage): seq<Field> {
    match m
    case HelloMessage(h) => [Num(1, 0)] + HelloFields(h)
    case AcceptedPlayer(id, p) => [Num(1, 1), Num(1, id)] + PlayerFields(p)
    case GameStarted(players) => [Num(1, 2)] + MapFields(PlayerFields, players)
    case TurnMessage(t) => [Num(1, 3), Num(2, t.turn)] + VectorFields(EventFields, t.events)
    case GameEnded(scores) => [Num(1, 4)] + MapFields(ScoreFields, scores)
  }

  function ClientFields(m: ClientMessage): seq<Field> {
    match m
    case Join(name) => [Num(1, 0), Text(name)]
    case PlaceBomb => [Num(1, 1)]
    case PlaceBlock => [Num(1, 2)]
    case Move(d) => [Num(1, 3), Num(1, d)]
  }

  function LobbyFields(h: Hello, players: map<U8, Player>): seq<Field> {
    [Num(1, 0)] + (HelloFields(h) + MapFields(PlayerFields, players))
  }

  function HeaderFields(m: GameMessage): seq<Field> {
    [Text(m.serverName), Num(2, m.sizeX), Num(2, m.sizeY), Num(2, m.gameLength), Num(2, m.turn)]
  }

  function BoardFields(m: GameMessage): seq<Field> {
    VectorFields(PositionFields, m.blocks) + (VectorFields(BombFields, m.bombs) + VectorFields(PositionFields, m.explosions))
  }

  function GameFields(m: GameMessage): seq<Field> {
    [Num(1, 1)] + (HeaderFields(m) + (MapFields(PlayerFields, m.players) + (MapFields(PositionFields, m.positions) +
    (BoardFields(m) + MapFields(ScoreFields, m.scores)))))
  }

  // ---------------------------------------------------------------- what the fields determine

  function SpellOne(f: Field): Bytes {
    match f
    case Num(width, value) => EncodeInt(width, value)
    case Text(chars) => [Kept(chars)] + chars[..Kept(chars)]
  }

  function Spell(fs: seq<Field>): Bytes {
    if fs == [] then [] else SpellOne(fs[0]) + Spell(fs[1..])
  }

  predicate Narrow(fs: seq<Field>) {
    forall f :: f in fs && f.Num? ==> f.value < Pow256(f.width)
  }

  lemma NumIsSpelled(bs: Bytes, at: nat, width: nat, value: nat)
    requires value < Pow256(width)
    ensures Spells(bs, at, width, value) <==> at + width <= |bs| && bs[at..at + width] == EncodeInt(width, value)
  {
    IntRoundTrip(width, value);
    if at + width <= |bs| {
      BytesRoundTrip(bs[at..at + width]);
    }
    hide EncodeInt, BigEndian, Pow256;
  }

  lemma TextIsSpelled(bs: Bytes, at: nat, s: Bytes)
    ensures TextAt(bs, at, s) <==> at + 1 + Kept(s) <= |bs| && bs[at..at + 1 + Kept(s)] == [Kept(s)] + s[..Kept(s)]
  {
    if at + 1 + Kept(s) <= |bs| {
      var part := bs[at..at + 1 + Kept(s)];
      assert part[0] == bs[at] && part[1..] == bs[at + 1..at + 1 + Kept(s)];
      assert part == [part[0]] + part[1..];
    }
  }

  lemma FieldIsSpelled(bs: Bytes, at: nat, f: Field)
    requires f.Num? ==> f.value < Pow256(f.width)
    ensures FieldAt(bs, at, f) <==> at + FieldSize(f) <= |bs| && bs[at..at + FieldSize(f)] == SpellOne(f)
    ensures |SpellOne(f)| == FieldSize(f)
  {
    hide Spells, TextAt, EncodeInt, BigEndian, Pow256;
    match f
    case Num(width, value) => NumIsSpelled(bs, at, width, value);
    case Text(chars) => TextIsSpelled(bs, at, chars);
  }

  lemma {:induction false} SpellSize(fs: seq<Field>)
    ensures |Spell(fs)| == Size(fs)
  {
    if fs != [] {
      SpellSize(fs[1..]);
    }
  }

  lemma Cut(bs: Bytes, at: nat, mid: nat, end: nat, a: Bytes, c: Bytes)
    requires at <= mid <= end <= |bs| && |a| == mid - at
    ensures bs[at..end] == a + c <==> bs[at..mid] == a && bs[mid..end] == c
  {
    assert bs[at..end] == bs[at..mid] + bs[mid..end];
    if bs[at..end] == a + c {
      assert bs[at..mid] == (a + c)[..|a|] && bs[mid..end] == (a + c)[|a|..];
    }
  }

  lemma {:induction false} HasIsSpelled(bs: Bytes, at: nat, fs: seq<Field>)
    requires Narrow(fs)
    ensures Has(bs, at, fs) && at <= |bs| <==> at + Size(fs) <= |bs| && bs[at..at + Size(fs)] == Spell(fs)
    decreases |fs|
  {
    hide FieldAt, SpellOne, FieldSize;
    if fs != [] {
      assert fs[0] in fs;
      var next := at + FieldSize(fs[0]);
      FieldIsSpelled(bs, at, fs[0]);
      forall f | f in fs[1..] && f.Num? ensures f.value < Pow256(f.width) {
        assert f in fs;
      }
      HasIsSpelled(bs, next, fs[1..]);
      SpellSize(fs[1..]);
      if at + Size(fs) <= |bs| {
        Cut(bs, at, next, at + Size(fs), SpellOne(fs[0]), Spell(fs[1..]));
      }
    }
  }

  /** The fields of a message determine its bytes. */
  lemma LaidIsSpelled(bs: Bytes, fs: seq<Field>)
    requires Narrow(fs)
    ensures Laid(bs, fs) <==> bs == Spell(fs)
  {
    HasIsSpelled(bs, 0, fs);
    SpellSize(fs);
    if |bs| == Size(fs) {
      assert bs[0..Size(fs)] == bs;
    }
  }

  lemma SpellCons(f: Field, fs: seq<Field>)
    ensures Spell([f] + fs) == SpellOne(f) + Spell(fs)
  {
    hide SpellOne;
    assert ([f] + fs)[1..] == fs;
  }

  lemma Regroup(a: Bytes, b: Bytes, c: Bytes)
    ensures a + (b + c) == a + b + c
  {
  }

  lemma {:induction false} SpellAppend(fs: seq<Field>, gs: seq<Field>)
    ensures Spell(fs + gs) == Spell(fs) + Spell(gs)
  {
    hide SpellOne;
    if fs == [] {
      assert fs + gs == gs;
    } else {
      SpellAppend(fs[1..], gs);
      assert fs + gs == [fs[0]] + (fs[1..] + gs);
      SpellCons(fs[0], fs[1..] + gs);
      Regroup(SpellOne(fs[0]), Spell(fs[1..]), Spell(gs));
    }
  }

  // ---------------------------------------------------------------- the serialisers write these fields

  /** The bytes are exactly the fields, and every number fits its width. */
  predicate Writes(bs: Bytes, fs: seq<Field>) {
    bs == Spell(fs) && Narrow(fs)
  }

  lemma WritesBoth(a: Bytes, fs: seq<Field>, c: Bytes, gs: seq<Field>)
    requires Writes(a, fs) && Writes(c, gs)
    ensures Writes(a + c, fs + gs)
  {
    hide Spell;
    SpellAppend(fs, gs);
  }

  lemma WritesNum(width: nat, value: nat)
    ensures width == 1 && value < 0x100 ==> Writes(EncodeU8(value), [Num(width, value)])
    ensures width == 2 && value < 0x1_0000 ==> Writes(EncodeU16(value), [Num(width, value)])
    ensures width == 4 && value < 0x1_0000_0000 ==> Writes(EncodeU32(value), [Num(width, value)])
  {
    assert [Num(width, value)][1..] == [];
    assert Spell([Num(width, value)]) == EncodeInt(width, value);
    EncodeWidths(value);
    assert Pow256(1) == 0x100 && Pow256(2) == 0x1_0000 && Pow256(3) == 0x100_0000 && Pow256(4) == 0x1_0000_0000;
  }

  lemma WritesText(s: Bytes)
    ensures Writes(EncodeString(s), [Text(s)])
  {
    assert [Text(s)][1..] == [];
    assert Spell([Text(s)]) == SpellOne(Text(s));
    if |s| <= 255 {
      assert s[..Kept(s)] == s == Truncate(s);
    }
  }

  lemma WritesPosition(p: Position)
    ensures Writes(EncodePosition(p), PositionFields(p))
  {
    hide Writes;
    WritesNum(2, p.x);
    WritesNum(2, p.y);
    WritesBoth(EncodeU16(p.x), [Num(2, p.x)], EncodeU16(p.y), [Num(2, p.y)]);
    assert PositionFields(p) == [Num(2, p.x)] + [Num(2, p.y)];
  }

  lemma WritesPlayer(p: Player)
    ensures Writes(EncodePlayer(p), PlayerFields(p))
  {
    hide Writes;
    WritesText(p.name);
    WritesText(p.address);
    WritesBoth(EncodeString(p.name), [Text(p.name)], EncodeString(p.address), [Text(p.address)]);
    assert PlayerFields(p) == [Text(p.name)] + [Text(p.address)];
  }

  lemma WritesBomb(b: Bomb)
    ensures Writes(EncodeBomb(b), BombFields(b))
  {
    hide Writes;
    WritesPosition(b.position);
    WritesNum(2, b.timer);
    WritesBoth(EncodePosition(b.position), PositionFields(b.position), EncodeU16(b.timer), [Num(2, b.timer)]);
  }

  lemma {:induction false} WritesList<T>(enc: T -> Bytes, f: T -> seq<Field>, xs: seq<T>)
    requires forall x :: x in xs ==> Writes(enc(x), f(x))
    ensures Writes(EncodeSeq(enc, xs), ListFields(f, xs))
  {
    hide Writes;
    if xs == [] {
      NothingWritten();
    } else {
      assert xs[0] in xs;
      forall x | x in xs[1..] ensures Writes(enc(x), f(x)) {
        assert x in xs;
      }
      WritesList(enc, f, xs[1..]);
      WritesBoth(enc(xs[0]), f(xs[0]), EncodeSeq(enc, xs[1..]), ListFields(f, xs[1..]));
    }
  }

  lemma NothingWritten()
    ensures Writes([], [])
  {
  }

  lemma WritesVector<T>(enc: T -> Bytes, f: T -> seq<Field>, xs: seq<T>)
    requires |xs| < 0x1_0000_0000 && forall x :: x in xs ==> Writes(enc(x), f(x))
    ensures Writes(EncodeVector(enc, xs), VectorFields(f, xs))
  {
    hide Writes;
    WritesNum(4, |xs|);
    WritesList(enc, f, xs);
    WritesBoth(EncodeU32(|xs|), [Num(4, |xs|)], EncodeSeq(enc, xs), ListFields(f, xs));
  }

  /** A serialiser of entries writes the key and then what the fields of the value say. */
  ghost predicate EntryWrites<V(!new)>(enc: Pair<V> -> Bytes, f: V -> seq<Field>) {
    forall k: U8, v: V :: Writes(enc(Pair(k, v)), [Num(1, k)] + f(v))
  }

  lemma {:induction false} WritesEntries<V(!new)>(enc: Pair<V> -> Bytes, f: V -> seq<Field>, m: map<U8, V>, i: nat)
    requires i <= 0x100 && EntryWrites(enc, f)
    ensures forall k :: k in KeysFrom(m.Keys, i) ==> k in m
    ensures Writes(EncodeSeq(enc, PairsFrom(m, i)), EntryFields(f, m, KeysFrom(m.Keys, i)))
    ensures |PairsFrom(m, i)| == |KeysFrom(m.Keys, i)|
    decreases 0x100 - i
  {
    KeysFromIsAscending(m.Keys, i);
    hide Writes;
    if i == 0x100 {
      NothingWritten();
    } else {
      WritesEntries(enc, f, m, i + 1);
      if i in m {
        var keys, rest := KeysFrom(m.Keys, i), KeysFrom(m.Keys, i + 1);
        assert keys[0] == i && keys[1..] == rest;
        var ps := PairsFrom(m, i);
        assert ps[0] == Pair(i, m[i]) && ps[1..] == PairsFrom(m, i + 1);
        assert Writes(enc(Pair(i, m[i])), [Num(1, i)] + f(m[i]));
        WritesBoth(enc(ps[0]), [Num(1, i)] + f(m[i]), EncodeSeq(enc, ps[1..]), EntryFields(f, m, rest));
      }
    }
  }

  lemma WritesMap<V(!new)>(enc: Pair<V> -> Bytes, f: V -> seq<Field>, m: map<U8, V>)
    requires EntryWrites(enc, f)
    ensures Writes(EncodeVector(enc, PairsFrom(m, 0)), MapFields(f, m))
  {
    hide Writes, EntryWrites, EncodeSeq, EntryFields;
    Messages.MapSize(m);
    KeysFromIsAscending(m.Keys, 0);
    WritesNum(4, |m|);
    WritesEntries(enc, f, m, 0);
    WritesBoth(EncodeU32(|m|), [Num(4, |m|)], EncodeSeq(enc, PairsFrom(m, 0)), EntryFields(f, m, AscendingKeys(m.Keys)));
  }

  lemma WritesKeyed(k: U8, bs: Bytes, fs: seq<Field>)
    requires Writes(bs, fs)
    ensures Writes(EncodeU8(k) + bs, [Num(1, k)] + fs)
  {
    hide Writes;
    WritesNum(1, k);
    WritesBoth(EncodeU8(k), [Num(1, k)], bs, fs);
  }

  lemma PlayersWrite(m: map<U8, Player>)
    ensures Writes(EncodePlayers(m), MapFields(PlayerFields, m))
  {
    hide Writes, MapFields, EncodePlayer;
    forall k: U8, v: Player ensures Writes(EncodeEntry(Pair(k, v)), [Num(1, k)] + PlayerFields(v)) {
      WritesPlayer(v);
      WritesKeyed(k, EncodePlayer(v), PlayerFields(v));
    }
    WritesMap(EncodeEntry, PlayerFields, m);
  }

  lemma ScoresWrite(m: map<U8, U32>)
    ensures Writes(EncodeScores(m), MapFields(ScoreFields, m))
  {
    hide Writes, MapFields, EncodeU32;
    forall k: U8, v: U32 ensures Writes(EncodeScore(Pair(k, v)), [Num(1, k)] + ScoreFields(v)) {
      WritesNum(4, v);
      WritesKeyed(k, EncodeU32(v), ScoreFields(v));
    }
    WritesMap(EncodeScore, ScoreFields, m);
  }

  lemma PlacesWrite(m: map<U8, Position>)
    ensures Writes(EncodeVector(EncodePlace, PairsFrom(m, 0)), MapFields(PositionFields, m))
  {
    hide Writes, MapFields, EncodePosition;
    forall k: U8, v: Position ensures Writes(EncodePlace(Pair(k, v)), [Num(1, k)] + PositionFields(v)) {
      WritesPosition(v);
      WritesKeyed(k, EncodePosition(v), PositionFields(v));
    }
    WritesMap(EncodePlace, PositionFields, m);
  }

  lemma PositionsWrite(xs: seq<Position>)
    requires |xs| < 0x1_0000_0000
    ensures Writes(EncodeVector(EncodePosition, xs), VectorFields(PositionFields, xs))
  {
    hide Writes;
    forall x | x in xs ensures Writes(EncodePosition(x), PositionFields(x)) {
      WritesPosition(x);
    }
    WritesVector(EncodePosition, PositionFields, xs);
  }

  lemma BombsWrite(xs: seq<Bomb>)
    requires |xs| < 0x1_0000_0000
    ensures Writes(EncodeVector(EncodeBomb, xs), VectorFields(BombFields, xs))
  {
    hide Writes;
    forall x | x in xs ensures Writes(EncodeBomb(x), BombFields(x)) {
      WritesBomb(x);
    }
    WritesVector(EncodeBomb, BombFields, xs);
  }

  lemma IdsWrite(xs: seq<U8>)
    requires |xs| < 0x1_0000_0000
    ensures Writes(EncodeVector(EncodeU8, xs), VectorFields(IdFields, xs))
  {
    hide Writes;
    forall x | x in xs ensures Writes(EncodeU8(x), IdFields(x)) {
      WritesNum(1, x);
    }
    WritesVector(EncodeU8, IdFields, xs);
  }

  lemma EventWrites(e: Event)
    requires FitsEvent(e)
    ensures Writes(EncodeEvent(e), EventFields(e))
  {
    hide Writes, EncodePosition, PositionFields, VectorFields, EncodeVector, EncodeU8, EncodeU32;
    match e
    case BombPlaced(id, p) =>
      WritesPosition(p);
      WritesNum(4, id);
      WritesBoth(EncodeU32(id), [Num(4, id)], EncodePosition(p), PositionFields(p));
      WritesKeyed(0, EncodeU32(id) + EncodePosition(p), [Num(4, id)] + PositionFields(p));
      assert EventFields(e) == [Num(1, 0)] + ([Num(4, id)] + PositionFields(p));
    case BombExploded(id, robots, blocks) =>
      WritesNum(4, id);
      IdsWrite(robots);
      PositionsWrite(blocks);
      var tail, fields := EncodeVector(EncodeU8, robots) + EncodeVector(EncodePosition, blocks),
                          VectorFields(IdFields, robots) + VectorFields(PositionFields, blocks);
      WritesBoth(EncodeVector(EncodeU8, robots), VectorFields(IdFields, robots),
                 EncodeVector(EncodePosition, blocks), VectorFields(PositionFields, blocks));
      WritesBoth(EncodeU32(id), [Num(4, id)], tail, fields);
      WritesKeyed(1, EncodeU32(id) + tail, [Num(4, id)] + fields);
      assert EventFields(e) == [Num(1, 1)] + ([Num(4, id)] + fields);
    case PlayerMoved(i, p) =>
      WritesPosition(p);
      WritesKeyed(i, EncodePosition(p), PositionFields(p));
      WritesKeyed(2, EncodeU8(i) + EncodePosition(p), [Num(1, i)] + PositionFields(p));
      assert EventFields(e) == [Num(1, 2)] + ([Num(1, i)] + PositionFields(p));
    case BlockPlaced(p) =>
      WritesPosition(p);
      WritesKeyed(3, EncodePosition(p), PositionFields(p));
  }

  lemma HelloWrites(h: Hello)
    ensures Writes(EncodeHello(h), HelloFields(h))
  {
    hide Writes, EncodeString, EncodeU8, EncodeU16;
    WritesText(h.serverName);
    WritesNum(2, h.sizeX);
    WritesNum(2, h.sizeY);
    WritesNum(2, h.gameLength);
    WritesNum(2, h.explosionRadius);
    WritesNum(2, h.bombTimer);
    var b5, f5 := EncodeU16(h.bombTimer), [Num(2, h.bombTimer)];
    var b4, f4 := EncodeU16(h.explosionRadius) + b5, [Num(2, h.explosionRadius)] + f5;
    WritesBoth(EncodeU16(h.explosionRadius), [Num(2, h.explosionRadius)], b5, f5);
    var b3, f3 := EncodeU16(h.gameLength) + b4, [Num(2, h.gameLength)] + f4;
    WritesBoth(EncodeU16(h.gameLength), [Num(2, h.gameLength)], b4, f4);
    var b2, f2 := EncodeU16(h.sizeY) + b3, [Num(2, h.sizeY)] + f3;
    WritesBoth(EncodeU16(h.sizeY), [Num(2, h.sizeY)], b3, f3);
    var b1, f1 := EncodeU16(h.sizeX) + b2, [Num(2, h.sizeX)] + f2;
    WritesBoth(EncodeU16(h.sizeX), [Num(2, h.sizeX)], b2, f2);
    WritesKeyed(h.playersCount, b1, f1);
    WritesBoth(EncodeString(h.serverName), [Text(h.serverName)], EncodeU8(h.playersCount) + b1, [Num(1, h.playersCount)] + f1);
    assert HelloFields(h) == [Text(h.serverName)] + ([Num(1, h.playersCount)] + f1);
  }

  lemma TurnWrites(t: Turn)
    requires FitsTurn(t)
    ensures Writes(EncodeTurn(t), [Num(2, t.turn)] + VectorFields(EventFields, t.events))
  {
    hide Writes, EventFields, EncodeEvent, FitsEvent, EncodeU16;
    forall e | e in t.events ensures Writes(EncodeEvent(e), EventFields(e)) {
      EventWrites(e);
    }
    WritesVector(EncodeEvent, EventFields, t.events);
    WritesNum(2, t.turn);
    WritesBoth(EncodeU16(t.turn), [Num(2, t.turn)], EncodeVector(EncodeEvent, t.events), VectorFields(EventFields, t.events));
  }

  lemma BodyWrites(m: ServerMessage)
    requires Fits(m)
    ensures Writes(EncodeServer(m), ServerFields(m))
  {
    hide Writes, EncodeHello, EncodePlayer, EncodePlayers, EncodeTurn, EncodeScores, FitsTurn, EncodeU8;
    hide HelloFields, PlayerFields, MapFields, VectorFields;
    match m
    case HelloMessage(h) =>
      HelloWrites(h);
      WritesKeyed(0, EncodeHello(h), HelloFields(h));
    case AcceptedPlayer(id, p) =>
      WritesPlayer(p);
      WritesKeyed(id, EncodePlayer(p), PlayerFields(p));
      WritesKeyed(1, EncodeU8(id) + EncodePlayer(p), [Num(1, id)] + PlayerFields(p));
      assert ServerFields(m) == [Num(1, 1)] + ([Num(1, id)] + PlayerFields(p));
    case GameStarted(players) =>
      PlayersWrite(players);
      WritesKeyed(2, EncodePlayers(players), MapFields(PlayerFields, players));
    case TurnMessage(t) =>
      TurnWrites(t);
      WritesKeyed(3, EncodeTurn(t), [Num(2, t.turn)] + VectorFields(EventFields, t.events));
      assert ServerFields(m) == [Num(1, 3)] + ([Num(2, t.turn)] + VectorFields(EventFields, t.events));
    case GameEnded(scores) =>
      ScoresWrite(scores);
      WritesKeyed(4, EncodeScores(scores), MapFields(ScoreFields, scores));
  }

  /** The bytes of a message from the server are exactly those with its fields, one after the other. */
  lemma ServerLayout(m: ServerMessage, bs: Bytes)
    requires Fits(m)
    ensures bs == EncodeServer(m) <==> Laid(bs, ServerFields(m))
  {
    hide EncodeServer, ServerFields, Spell, Narrow, Laid;
    BodyWrites(m);
    LaidIsSpelled(bs, ServerFields(m));
  }

  lemma ClientWrites(m: ClientMessage)
    ensures Writes(EncodeClient(m), ClientFields(m))
  {
    hide Writes, EncodeString, EncodeU8;
    match m
    case Join(name) =>
      WritesText(name);
      WritesKeyed(0, EncodeString(name), [Text(name)]);
      assert ClientFields(m) == [Num(1, 0)] + [Text(name)];
    case PlaceBomb => WritesNum(1, 1);
    case PlaceBlock => WritesNum(1, 2);
    case Move(d) =>
      WritesNum(1, d);
      WritesKeyed(3, EncodeU8(d), [Num(1, d)]);
      assert ClientFields(m) == [Num(1, 3)] + [Num(1, d)];
  }

  /** The same for messages from a client. */
  lemma ClientLayout(m: ClientMessage, bs: Bytes)
    ensures bs == EncodeClient(m) <==> Laid(bs, ClientFields(m))
  {
    hide EncodeClient, ClientFields, Spell, Narrow, Laid;
    ClientWrites(m);
    LaidIsSpelled(bs, ClientFields(m));
  }

  /** The same for the lobby packet the GUI gets. */
  lemma LobbyLayout(h: Hello, players: map<U8, Player>, bs: Bytes)
    ensures bs == EncodeLobby(h, players) <==> Laid(bs, LobbyFields(h, players))
  {
    hide EncodeHello, EncodePlayers, HelloFields, MapFields, Laid, Spell, Narrow, EncodeU8;
    HelloWrites(h);
    PlayersWrite(players);
    WritesBoth(EncodeHello(h), HelloFields(h), EncodePlayers(players), MapFields(PlayerFields, players));
    WritesKeyed(0, EncodeHello(h) + EncodePlayers(players), HelloFields(h) + MapFields(PlayerFields, players));
    LaidIsSpelled(bs, LobbyFields(h, players));
  }

  lemma HeaderWrites(m: GameMessage)
    ensures Writes(EncodeHeader(m), HeaderFields(m))
  {
    hide Writes, EncodeString, EncodeU16;
    WritesText(m.serverName);
    WritesNum(2, m.sizeX);
    WritesNum(2, m.sizeY);
    WritesNum(2, m.gameLength);
    WritesNum(2, m.turn);
    var b4, f4 := EncodeU16(m.turn), [Num(2, m.turn)];
    var b3, f3 := EncodeU16(m.gameLength) + b4, [Num(2, m.gameLength)] + f4;
    WritesBoth(EncodeU16(m.gameLength), [Num(2, m.gameLength)], b4, f4);
    var b2, f2 := EncodeU16(m.sizeY) + b3, [Num(2, m.sizeY)] + f3;
    WritesBoth(EncodeU16(m.sizeY), [Num(2, m.sizeY)], b3, f3);
    var b1, f1 := EncodeU16(m.sizeX) + b2, [Num(2, m.sizeX)] + f2;
    WritesBoth(EncodeU16(m.sizeX), [Num(2, m.sizeX)], b2, f2);
    WritesBoth(EncodeString(m.serverName), [Text(m.serverName)], b1, f1);
    assert HeaderFields(m) == [Text(m.serverName)] + f1;
  }

  lemma BoardWrites(m: GameMessage)
    requires |m.blocks| < 0x1_0000_0000 && |m.bombs| < 0x1_0000_0000 && |m.explosions| < 0x1_0000_0000
    ensures Writes(EncodeBoard(m), BoardFields(m))
  {
    hide Writes, EncodeVector, VectorFields;
    PositionsWrite(m.blocks);
    BombsWrite(m.bombs);
    PositionsWrite(m.explosions);
    WritesBoth(EncodeVector(EncodeBomb, m.bombs), VectorFields(BombFields, m.bombs),
               EncodeVector(EncodePosition, m.explosions), VectorFields(PositionFields, m.explosions));
    WritesBoth(EncodeVector(EncodePosition, m.blocks), VectorFields(PositionFields, m.blocks),
               EncodeVector(EncodeBomb, m.bombs) + EncodeVector(EncodePosition, m.explosions),
               VectorFields(BombFields, m.bombs) + VectorFields(PositionFields, m.explosions));
  }

  lemma GameWrites(m: GameMessage)
    requires |m.blocks| < 0x1_0000_0000 && |m.bombs| < 0x1_0000_0000 && |m.explosions| < 0x1_0000_0000
    ensures Writes(EncodeGame(m), GameFields(m))
  {
    hide Writes, EncodeHeader, EncodePlayers, EncodeVector, EncodeBoard, EncodeScores, EncodeU8;
    hide HeaderFields, MapFields, BoardFields;
    HeaderWrites(m);
    PlayersWrite(m.players);
    PlacesWrite(m.positions);
    BoardWrites(m);
    ScoresWrite(m.scores);
    var places := EncodeVector(EncodePlace, PairsFrom(m.positions, 0));
    var b3, f3 := EncodeBoard(m) + EncodeScores(m.scores), BoardFields(m) + MapFields(ScoreFields, m.scores);
    WritesBoth(EncodeBoard(m), BoardFields(m), EncodeScores(m.scores), MapFields(ScoreFields, m.scores));
    var b2, f2 := places + b3, MapFields(PositionFields, m.positions) + f3;
    WritesBoth(places, MapFields(PositionFields, m.positions), b3, f3);
    var b1, f1 := EncodePlayers(m.players) + b2, MapFields(PlayerFields, m.players) + f2;
    WritesBoth(EncodePlayers(m.players), MapFields(PlayerFields, m.players), b2, f2);
    WritesBoth(EncodeHeader(m), HeaderFields(m), b1, f1);
    WritesKeyed(1, EncodeHeader(m) + b1, HeaderFields(m) + f1);
  }

  /** The same for the packet of a game that the GUI gets. */
  lemma GameLayout(m: GameMessage, bs: Bytes)
    requires |m.blocks| < 0x1_0000_0000 && |m.bombs| < 0x1_0000_0000 && |m.explosions| < 0x1_0000_0000
    ensures bs == EncodeGame(m) <==> Laid(bs, GameFields(m))
  {
    hide EncodeGame, GameFields, Spell, Narrow, Laid;
    GameWrites(m);
    LaidIsSpelled(bs, GameFields(m));
  }

  /** Whoever reads bytes laid out as a message's fields, whatever follows them, gets that message. */
  lemma LaidIsRead(m: ServerMessage, bs: Bytes, r: Bytes)
    requires Fits(m) && Laid(bs, ServerFields(m))
    ensures ParseServer(bs + r) == Ok(Norm(m), r)
  {
    hide ParseServer, EncodeServer, Laid, ServerFields, Norm, Fits;
    ServerLayout(m, bs);
    ServerRoundTrip(m, r);
  }

  lemma LaidClientIsRead(m: ClientMessage, bs: Bytes, r: Bytes)
    requires Laid(bs, ClientFields(m))
    ensures ParseClient(bs + r) == Ok(NormClient(m), r)
  {
    hide ParseClient, EncodeClient, Laid, ClientFields, NormClient;
    ClientLayout(m, bs);
    ClientRoundTrip(m, r);
  }

  // ---------------------------------------------------------------- offsets

  lemma {:induction false} HasAppend(bs: Bytes, at: nat, fs: seq<Field>, gs: seq<Field>)
    ensures Size(fs + gs) == Size(fs) + Size(gs)
    ensures Has(bs, at, fs + gs) <==> Has(bs, at, fs) && Has(bs, at + Size(fs), gs)
    decreases |fs|
  {
    hide FieldAt, FieldSize;
    if fs == [] {
      assert fs + gs == gs;
    } else {
      HasAppend(bs, at + FieldSize(fs[0]), fs[1..], gs);
      assert (fs + gs)[1..] == fs[1..] + gs;
    }
  }

  lemma HasFirst(bs: Bytes, at: nat, f: Field, fs: seq<Field>)
    ensures Size([f] + fs) == FieldSize(f) + Size(fs)
    ensures Has(bs, at, [f] + fs) <==> FieldAt(bs, at, f) && Has(bs, at + FieldSize(f), fs)
  {
    assert ([f] + fs)[1..] == fs;
  }

  lemma SpellsByte(bs: Bytes, at: nat, value: nat)
    ensures Spells(bs, at, 1, value) ==> at < |bs| && bs[at] == value
  {
    if at < |bs| {
      assert bs[at..at + 1][..0] == [] && bs[at..at + 1][0] == bs[at];
    }
  }

  /** A position is 4 bytes: x in bytes 0 and 1, y in bytes 2 and 3. */
  lemma PositionOffsets(p: Position)
    ensures var bs := EncodePosition(p); |bs| == 4 && Spells(bs, 0, 2, p.x) && Spells(bs, 2, 2, p.y)
  {
    var bs := EncodePosition(p);
    WritesPosition(p);
    LaidIsSpelled(bs, PositionFields(p));
    PositionHas(bs, 0, p);
  }

  lemma PositionHas(bs: Bytes, at: nat, p: Position)
    ensures Has(bs, at, PositionFields(p)) <==> Spells(bs, at, 2, p.x) && Spells(bs, at + 2, 2, p.y)
    ensures Size(PositionFields(p)) == 4
  {
    HasFirst(bs, at, Num(2, p.x), [Num(2, p.y)]);
    HasFirst(bs, at + 2, Num(2, p.y), []);
    assert PositionFields(p) == [Num(2, p.x)] + [Num(2, p.y)] && [Num(2, p.y)] == [Num(2, p.y)] + [];
  }

  lemma {:induction false} ListSize<T>(f: T -> seq<Field>, xs: seq<T>, k: nat)
    requires forall x :: x in xs ==> Size(f(x)) == k
    ensures Size(ListFields(f, xs)) == k * |xs|
  {
    if xs != [] {
      assert xs[0] in xs;
      forall x | x in xs[1..] ensures Size(f(x)) == k {
        assert x in xs;
      }
      ListSize(f, xs[1..], k);
      HasAppend([], 0, f(xs[0]), ListFields(f, xs[1..]));
      OneMore(k, |xs| - 1);
    }
  }

  lemma {:induction false} ListElement<T>(bs: Bytes, at: nat, f: T -> seq<Field>, xs: seq<T>, j: nat)
    requires j < |xs| && Has(bs, at, ListFields(f, xs))
    ensures Has(bs, at + Size(ListFields(f, xs[..j])), f(xs[j]))
    decreases |xs|
  {
    hide Has;
    HasAppend(bs, at, f(xs[0]), ListFields(f, xs[1..]));
    if j == 0 {
      assert xs[..j] == [];
    } else {
      ListElement(bs, at + Size(f(xs[0])), f, xs[1..], j - 1);
      assert xs[..j][0] == xs[0] && xs[..j][1..] == xs[1..][..j - 1];
      HasAppend(bs, at, f(xs[0]), ListFields(f, xs[1..][..j - 1]));
    }
  }

  /** A vector spells its length in 4 bytes and then its elements; those of k bytes each stand at multiples of k. */
  lemma VectorOffsets<T>(bs: Bytes, at: nat, f: T -> seq<Field>, xs: seq<T>, j: nat, k: nat)
    requires Has(bs, at, VectorFields(f, xs))
    ensures Spells(bs, at, 4, |xs|)
    ensures j < |xs| ==> Has(bs, at + 4 + Size(ListFields(f, xs[..j])), f(xs[j]))
    ensures j < |xs| && (forall x :: x in xs ==> Size(f(x)) == k) ==> Has(bs, at + 4 + k * j, f(xs[j]))
  {
    hide Spells;
    HasFirst(bs, at, Num(4, |xs|), ListFields(f, xs));
    if j < |xs| {
      ListElement(bs, at + 4, f, xs, j);
      if forall x :: x in xs ==> Size(f(x)) == k {
        ListSize(f, xs[..j], k);
      }
    }
  }

  lemma {:induction false} EntriesSize<V>(f: V -> seq<Field>, m: map<U8, V>, keys: seq<U8>, k: nat)
    requires (forall x :: x in keys ==> x in m) && forall x :: x in m ==> Size(f(m[x])) == k
    ensures Size(EntryFields(f, m, keys)) == (k + 1) * |keys|
  {
    if keys != [] {
      assert keys[0] in keys;
      EntriesSize(f, m, keys[1..], k);
      HasFirst([], 0, Num(1, keys[0]), f(m[keys[0]]));
      HasAppend([], 0, [Num(1, keys[0])] + f(m[keys[0]]), EntryFields(f, m, keys[1..]));
      OneMore(k + 1, |keys| - 1);
    }
  }

  lemma {:induction false} EntryElement<V>(bs: Bytes, at: nat, f: V -> seq<Field>, m: map<U8, V>, keys: seq<U8>, j: nat)
    requires (forall x :: x in keys ==> x in m) && j < |keys| && Has(bs, at, EntryFields(f, m, keys))
    ensures var here := at + Size(EntryFields(f, m, keys[..j])); Spells(bs, here, 1, keys[j]) && Has(bs, here + 1, f(m[keys[j]]))
    decreases |keys|
  {
    hide Has;
    var first := [Num(1, keys[0])] + f(m[keys[0]]);
    HasAppend(bs, at, first, EntryFields(f, m, keys[1..]));
    if j == 0 {
      assert keys[..j] == [];
      HasFirst(bs, at, Num(1, keys[0]), f(m[keys[0]]));
    } else {
      EntryElement(bs, at + Size(first), f, m, keys[1..], j - 1);
      assert keys[..j][0] == keys[0] && keys[..j][1..] == keys[1..][..j - 1];
      HasAppend(bs, at, first, EntryFields(f, m, keys[1..][..j - 1]));
    }
  }

  /** A map spells its size in 4 bytes and then its entries in ascending order of keys: one byte for the
      key, and the value; values of k bytes each stand k + 1 bytes apart. */
  lemma MapOffsets<V>(bs: Bytes, at: nat, f: V -> seq<Field>, m: map<U8, V>, j: nat, k: nat)
    requires Has(bs, at, MapFields(f, m))
    ensures Spells(bs, at, 4, |m|)
    ensures var keys := AscendingKeys(m.Keys);
            && (forall x :: x in keys <==> x in m) && (forall a, b :: 0 <= a < b < |keys| ==> keys[a] < keys[b])
            && (j < |keys| ==>
                  var here := at + 4 + Size(EntryFields(f, m, keys[..j]));
                  && Spells(bs, here, 1, keys[j]) && Has(bs, here + 1, f(m[keys[j]]))
                  && ((forall x :: x in m ==> Size(f(m[x])) == k) ==> here == at + 4 + (k + 1) * j))
  {
    hide Spells, EntryFields;
    KeysFromIsAscending(m.Keys, 0);
    var keys := AscendingKeys(m.Keys);
    HasFirst(bs, at, Num(4, |m|), EntryFields(f, m, keys));
    if j < |keys| {
      EntryElement(bs, at + 4, f, m, keys, j);
      if forall x :: x in m ==> Size(f(m[x])) == k {
        EntriesSize(f, m, keys[..j], k);
      }
    }
  }

  /** Every event begins with its code; its other fields follow at these offsets. */
  ghost predicate EventAt(bs: Bytes, at: nat, e: Event) {
    match e
    case BombPlaced(id, p) =>
      && at + 9 <= |bs| && bs[at] == 0 && Spells(bs, at + 1, 4, id)
      && Spells(bs, at + 5, 2, p.x) && Spells(bs, at + 7, 2, p.y)
    case BombExploded(id, robots, blocks) =>
      var r := |robots|;
      && at + 13 + r + 4 * |blocks| <= |bs| && bs[at] == 1 && Spells(bs, at + 1, 4, id)
      && Spells(bs, at + 5, 4, r) && (forall j :: 0 <= j < r ==> ByteAt(bs, at + 9 + j, robots[j]))
      && Spells(bs, at + 9 + r, 4, |blocks|)
      && (forall j :: 0 <= j < |blocks| ==> PlaceAt(bs, at + 13 + r + 4 * j, blocks[j]))
    case PlayerMoved(i, p) =>
      && at + 6 <= |bs| && bs[at] == 2 && bs[at + 1] == i
      && Spells(bs, at + 2, 2, p.x) && Spells(bs, at + 4, 2, p.y)
    case BlockPlaced(p) =>
      at + 5 <= |bs| && bs[at] == 3 && Spells(bs, at + 1, 2, p.x) && Spells(bs, at + 3, 2, p.y)
  }

  predicate ByteAt(bs: Bytes, at: nat, value: U8) {
    at < |bs| && bs[at] == value
  }

  /** x in the two bytes from `at` on, y in the next two. */
  predicate PlaceAt(bs: Bytes, at: nat, p: Position) {
    Spells(bs, at, 2, p.x) && Spells(bs, at + 2, 2, p.y)
  }

  /** How many bytes an event takes. */
  function EventBytes(e: Event): nat {
    match e
    case BombPlaced(_, _) => 9
    case BombExploded(_, robots, blocks) => 13 + |robots| + 4 * |blocks|
    case PlayerMoved(_, _) => 6
    case BlockPlaced(_) => 5
  }

  lemma ListAt<T>(bs: Bytes, at: nat, f: T -> seq<Field>, xs: seq<T>, k: nat)
    requires Has(bs, at, VectorFields(f, xs)) && forall x :: x in xs ==> Size(f(x)) == k
    ensures Spells(bs, at, 4, |xs|) && Size(VectorFields(f, xs)) == 4 + k * |xs|
    ensures forall j: nat {:trigger xs[j]} :: j < |xs| ==> Has(bs, at + 4 + k * j, f(xs[j]))
  {
    hide Spells, Has;
    VectorOffsets(bs, at, f, xs, 0, k);
    ListSize(f, xs, k);
    HasFirst(bs, at, Num(4, |xs|), ListFields(f, xs));
    forall j: nat {:trigger xs[j]} | j < |xs| ensures Has(bs, at + 4 + k * j, f(xs[j])) {
      VectorOffsets(bs, at, f, xs, j, k);
    }
  }

  lemma RobotsAt(bs: Bytes, at: nat, robots: seq<U8>)
    requires Has(bs, at, VectorFields(IdFields, robots))
    ensures Spells(bs, at, 4, |robots|) && Size(VectorFields(IdFields, robots)) == 4 + |robots|
    ensures forall j :: 0 <= j < |robots| ==> ByteAt(bs, at + 4 + j, robots[j])
  {
    forall x: U8 ensures Size(IdFields(x)) == 1 {
      assert IdFields(x)[1..] == [];
    }
    hide Spells;
    ListAt(bs, at, IdFields, robots, 1);
    forall j | 0 <= j < |robots| ensures ByteAt(bs, at + 4 + j, robots[j]) {
      assert Has(bs, at + 4 + 1 * j, IdFields(robots[j]));
      SpellsByte(bs, at + 4 + j, robots[j]);
    }
  }

  lemma BlocksAt(bs: Bytes, at: nat, blocks: seq<Position>)
    requires Has(bs, at, VectorFields(PositionFields, blocks))
    ensures Spells(bs, at, 4, |blocks|) && Size(VectorFields(PositionFields, blocks)) == 4 + 4 * |blocks|
    ensures forall j :: 0 <= j < |blocks| ==> PlaceAt(bs, at + 4 + 4 * j, blocks[j])
  {
    forall x: Position ensures Size(PositionFields(x)) == 4 {
      PositionHas(bs, 0, x);
    }
    hide Spells;
    ListAt(bs, at, PositionFields, blocks, 4);
    forall j: nat | j < |blocks| ensures PlaceAt(bs, at + 4 + 4 * j, blocks[j]) {
      assert Has(bs, at + 4 + 4 * j, PositionFields(blocks[j]));
      PositionHas(bs, at + 4 + 4 * j, blocks[j]);
    }
  }

  lemma {:induction false} HasFits(bs: Bytes, at: nat, fs: seq<Field>)
    requires Has(bs, at, fs) && at <= |bs|
    ensures at + Size(fs) <= |bs|
    decreases |fs|
  {
    if fs != [] {
      HasFits(bs, at + FieldSize(fs[0]), fs[1..]);
    }
  }

  lemma EventIsAt(bs: Bytes, at: nat, e: Event)
    requires Has(bs, at, EventFields(e)) && at <= |bs|
    ensures EventAt(bs, at, e) && Size(EventFields(e)) == EventBytes(e)
  {
    hide Spells, PositionFields, VectorFields, PlaceAt;
    HasFits(bs, at, EventFields(e));
    match e
    case BombPlaced(id, p) =>
      assert EventFields(e) == [Num(1, 0)] + ([Num(4, id)] + PositionFields(p));
      HasFirst(bs, at, Num(1, 0), [Num(4, id)] + PositionFields(p));
      HasFirst(bs, at + 1, Num(4, id), PositionFields(p));
      PositionHas(bs, at + 5, p);
      SpellsByte(bs, at, 0);
    case BombExploded(id, robots, blocks) =>
      var a, c := VectorFields(IdFields, robots), VectorFields(PositionFields, blocks);
      assert EventFields(e) == [Num(1, 1)] + ([Num(4, id)] + (a + c));
      HasFirst(bs, at, Num(1, 1), [Num(4, id)] + (a + c));
      HasFirst(bs, at + 1, Num(4, id), a + c);
      HasAppend(bs, at + 5, a, c);
      RobotsAt(bs, at + 5, robots);
      BlocksAt(bs, at + 9 + |robots|, blocks);
      SpellsByte(bs, at, 1);
    case PlayerMoved(i, p) =>
      assert EventFields(e) == [Num(1, 2)] + ([Num(1, i)] + PositionFields(p));
      HasFirst(bs, at, Num(1, 2), [Num(1, i)] + PositionFields(p));
      HasFirst(bs, at + 1, Num(1, i), PositionFields(p));
      PositionHas(bs, at + 2, p);
      SpellsByte(bs, at, 2);
      SpellsByte(bs, at + 1, i);
    case BlockPlaced(p) =>
      HasFirst(bs, at, Num(1, 3), PositionFields(p));
      PositionHas(bs, at + 1, p);
      SpellsByte(bs, at, 3);
  }

  lemma EventSize(e: Event)
    ensures Size(EventFields(e)) == EventBytes(e)
  {
    hide Has, VectorFields, PositionFields;
    match e
    case BombPlaced(id, p) =>
      assert EventFields(e) == [Num(1, 0)] + ([Num(4, id)] + PositionFields(p));
      HasFirst([], 0, Num(1, 0), [Num(4, id)] + PositionFields(p));
      HasFirst([], 0, Num(4, id), PositionFields(p));
      PositionHas([], 0, p);
    case BombExploded(id, robots, blocks) =>
      var a, c := VectorFields(IdFields, robots), VectorFields(PositionFields, blocks);
      assert EventFields(e) == [Num(1, 1)] + ([Num(4, id)] + (a + c));
      HasFirst([], 0, Num(1, 1), [Num(4, id)] + (a + c));
      HasFirst([], 0, Num(4, id), a + c);
      HasAppend([], 0, a, c);
      ExplodedSize(robots, blocks);
    case PlayerMoved(i, p) =>
      assert EventFields(e) == [Num(1, 2)] + ([Num(1, i)] + PositionFields(p));
      HasFirst([], 0, Num(1, 2), [Num(1, i)] + PositionFields(p));
      HasFirst([], 0, Num(1, i), PositionFields(p));
      PositionHas([], 0, p);
    case BlockPlaced(p) =>
      HasFirst([], 0, Num(1, 3), PositionFields(p));
      PositionHas([], 0, p);
  }

  lemma ExplodedSize(robots: seq<U8>, blocks: seq<Position>)
    ensures Size(VectorFields(IdFields, robots)) == 4 + |robots|
    ensures Size(VectorFields(PositionFields, blocks)) == 4 + 4 * |blocks|
  {
    forall x: U8 ensures Size(IdFields(x)) == 1 {
      assert IdFields(x)[1..] == [];
    }
    forall x: Position ensures Size(PositionFields(x)) == 4 {
      PositionHas([], 0, x);
    }
    ListSize(IdFields, robots, 1);
    ListSize(PositionFields, blocks, 4);
    HasFirst([], 0, Num(4, |robots|), ListFields(IdFields, robots));
    HasFirst([], 0, Num(4, |blocks|), ListFields(PositionFields, blocks));
  }

  function EventsBytes(events: seq<Event>): nat {
    if events == [] then 0 else EventBytes(events[0]) + EventsBytes(events[1..])
  }

  lemma {:induction false} EventsSize(events: seq<Event>)
    ensures Size(ListFields(EventFields, events)) == EventsBytes(events)
  {
    hide Has, EventFields, EventBytes;
    if events != [] {
      EventsSize(events[1..]);
      EventSize(events[0]);
      HasAppend([], 0, EventFields(events[0]), ListFields(EventFields, events[1..]));
    }
  }

  lemma PlayerHas(bs: Bytes, at: nat, p: Player)
    ensures Has(bs, at, PlayerFields(p)) <==> TextAt(bs, at, p.name) && TextAt(bs, at + 1 + Kept(p.name), p.address)
    ensures Size(PlayerFields(p)) == 2 + Kept(p.name) + Kept(p.address)
  {
    hide TextAt;
    HasFirst(bs, at, Text(p.name), [Text(p.address)]);
    HasFirst(bs, at + 1 + Kept(p.name), Text(p.address), []);
    assert PlayerFields(p) == [Text(p.name)] + [Text(p.address)] && [Text(p.address)] == [Text(p.address)] + [];
  }

  /** The seven fields of a greeting from `at` on. */
  predicate HelloAt(bs: Bytes, at: nat, h: Hello) {
    var n := at + 1 + Kept(h.serverName);
    && n + 11 <= |bs| && TextAt(bs, at, h.serverName) && bs[n] == h.playersCount
    && Spells(bs, n + 1, 2, h.sizeX) && Spells(bs, n + 3, 2, h.sizeY) && Spells(bs, n + 5, 2, h.gameLength)
    && Spells(bs, n + 7, 2, h.explosionRadius) && Spells(bs, n + 9, 2, h.bombTimer)
  }

  lemma HelloHas(bs: Bytes, at: nat, h: Hello)
    requires Has(bs, at, HelloFields(h))
    ensures HelloAt(bs, at, h) && Size(HelloFields(h)) == 12 + Kept(h.serverName)
  {
    hide Has, Size, Spells, TextAt, Kept;
    var n := at + 1 + Kept(h.serverName);
    var tail := [Num(2, h.sizeX), Num(2, h.sizeY), Num(2, h.gameLength), Num(2, h.explosionRadius), Num(2, h.bombTimer)];
    assert HelloFields(h) == [Text(h.serverName)] + ([Num(1, h.playersCount)] + tail);
    HasFirst(bs, at, Text(h.serverName), [Num(1, h.playersCount)] + tail);
    HasFirst(bs, n, Num(1, h.playersCount), tail);
    SpellsByte(bs, n, h.playersCount);
    FiveHave(bs, n + 1, h.sizeX, h.sizeY, h.gameLength, h.explosionRadius, h.bombTimer);
    SpellsFits(bs, n + 9, 2, h.bombTimer);
  }

  lemma FiveHave(bs: Bytes, at: nat, a: U16, b: U16, c: U16, d: U16, e: U16)
    ensures var fs := [Num(2, a), Num(2, b), Num(2, c), Num(2, d), Num(2, e)];
            && Size(fs) == 10
            && (Has(bs, at, fs) <==> Spells(bs, at, 2, a) && Spells(bs, at + 2, 2, b) && Spells(bs, at + 4, 2, c)
                                     && Spells(bs, at + 6, 2, d) && Spells(bs, at + 8, 2, e))
  {
    hide Has, Size, Spells;
    var f3 := [Num(2, d), Num(2, e)];
    var f2 := [Num(2, c), Num(2, d), Num(2, e)];
    var f1 := [Num(2, b), Num(2, c), Num(2, d), Num(2, e)];
    assert [Num(2, a), Num(2, b), Num(2, c), Num(2, d), Num(2, e)] == [Num(2, a)] + f1;
    assert f1 == [Num(2, b)] + f2 && f2 == [Num(2, c)] + f3;
    HasFirst(bs, at, Num(2, a), f1);
    HasFirst(bs, at + 2, Num(2, b), f2);
    HasFirst(bs, at + 4, Num(2, c), f3);
    PositionHas(bs, at + 6, Position(d, e));
  }

  lemma SpellsFits(bs: Bytes, at: nat, n: nat, value: nat)
    requires Spells(bs, at, n, value)
    ensures at + n <= |bs|
  {
  }

  /** The event number j of a turn that begins at `at`, after the turn's number and the number of events. */
  ghost predicate EventsAt(bs: Bytes, at: nat, events: seq<Event>) {
    forall j: nat :: j < |events| ==> EventAt(bs, at + EventsBytes(events[..j]), events[j])
  }

  lemma EventsHave(bs: Bytes, at: nat, events: seq<Event>)
    requires Has(bs, at, VectorFields(EventFields, events)) && at <= |bs|
    ensures Spells(bs, at, 4, |events|) && EventsAt(bs, at + 4, events)
  {
    hide Has, Spells, EventFields, EventBytes, EventAt;
    VectorOffsets(bs, at, EventFields, events, 0, 0);
    SpellsFits(bs, at, 4, |events|);
    forall j: nat | j < |events| ensures EventAt(bs, at + 4 + EventsBytes(events[..j]), events[j]) {
      EventHas(bs, at, events, j);
    }
  }

  lemma EventHas(bs: Bytes, at: nat, events: seq<Event>, j: nat)
    requires Has(bs, at, VectorFields(EventFields, events)) && at <= |bs| && j < |events|
    ensures EventAt(bs, at + 4 + EventsBytes(events[..j]), events[j])
  {
    hide EventFields, EventBytes, EventAt, Spells, VectorFields;
    VectorOffsets(bs, at, EventFields, events, j, 0);
    EventsSize(events[..j]);
    PartFits(bs, at, events, j);
    EventIsAt(bs, at + 4 + EventsBytes(events[..j]), events[j]);
  }

  lemma PartFits(bs: Bytes, at: nat, events: seq<Event>, j: nat)
    requires Has(bs, at, VectorFields(EventFields, events)) && at <= |bs| && j < |events|
    ensures at + 4 + Size(ListFields(EventFields, events[..j])) <= |bs|
  {
    hide EventFields, Has, ListFields, FieldAt;
    HasFits(bs, at, VectorFields(EventFields, events));
    HasFirst(bs, at, Num(4, |events|), ListFields(EventFields, events));
    ListSplits(EventFields, events[..j], events[j..]);
    assert events[..j] + events[j..] == events;
  }

  lemma {:induction false} ListSplits<T>(f: T -> seq<Field>, xs: seq<T>, ys: seq<T>)
    ensures Size(ListFields(f, xs + ys)) == Size(ListFields(f, xs)) + Size(ListFields(f, ys))
  {
    hide Has;
    if xs == [] {
      assert xs + ys == ys;
    } else {
      ListSplits(f, xs[1..], ys);
      assert (xs + ys)[1..] == xs[1..] + ys;
      HasAppend([], 0, f(xs[0]), ListFields(f, xs[1..]));
      HasAppend([], 0, f(xs[0]), ListFields(f, xs[1..] + ys));
    }
  }

  /** Where everything stands in the bytes of a message from the server: its code in byte 0, and then
      every field at its offset. */
  lemma ServerOffsets(m: ServerMessage)
    requires Fits(m)
    ensures var bs := EncodeServer(m);
            |bs| > 0 &&
            match m
            case HelloMessage(h) => bs[0] == 0 && HelloAt(bs, 1, h) && |bs| == 13 + Kept(h.serverName)
            case AcceptedPlayer(id, p) =>
              && |bs| == 4 + Kept(p.name) + Kept(p.address) && bs[0] == 1 && bs[1] == id
              && TextAt(bs, 2, p.name) && TextAt(bs, 3 + Kept(p.name), p.address)
            case GameStarted(players) =>
              bs[0] == 2 && Spells(bs, 1, 4, |players|) && Has(bs, 1, MapFields(PlayerFields, players))
            case TurnMessage(t) =>
              bs[0] == 3 && Spells(bs, 1, 2, t.turn) && Spells(bs, 3, 4, |t.events|) && EventsAt(bs, 7, t.events)
            case GameEnded(scores) =>
              bs[0] == 4 && Spells(bs, 1, 4, |scores|) && Has(bs, 1, MapFields(ScoreFields, scores))
  {
    hide Spells, TextAt, EncodeServer, Fits, HelloFields, PlayerFields, MapFields, VectorFields, EventsAt, HelloAt, Has;
    var bs := EncodeServer(m);
    ServerLayout(m, bs);
    match m
    case HelloMessage(h) =>
      HasFirst(bs, 0, Num(1, 0), HelloFields(h));
      HelloHas(bs, 1, h);
      SpellsByte(bs, 0, 0);
    case AcceptedPlayer(id, p) =>
      assert ServerFields(m) == [Num(1, 1)] + ([Num(1, id)] + PlayerFields(p));
      HasFirst(bs, 0, Num(1, 1), [Num(1, id)] + PlayerFields(p));
      HasFirst(bs, 1, Num(1, id), PlayerFields(p));
      PlayerHas(bs, 2, p);
      SpellsByte(bs, 0, 1);
      SpellsByte(bs, 1, id);
    case GameStarted(players) =>
      HasFirst(bs, 0, Num(1, 2), MapFields(PlayerFields, players));
      MapOffsets(bs, 1, PlayerFields, players, 0, 0);
      SpellsByte(bs, 0, 2);
    case TurnMessage(t) =>
      assert ServerFields(m) == [Num(1, 3)] + ([Num(2, t.turn)] + VectorFields(EventFields, t.events));
      HasFirst(bs, 0, Num(1, 3), [Num(2, t.turn)] + VectorFields(EventFields, t.events));
      HasFirst(bs, 1, Num(2, t.turn), VectorFields(EventFields, t.events));
      SpellsFits(bs, 1, 2, t.turn);
      EventsHave(bs, 3, t.events);
      SpellsByte(bs, 0, 3);
    case GameEnded(scores) =>
      HasFirst(bs, 0, Num(1, 4), MapFields(ScoreFields, scores));
      MapOffsets(bs, 1, ScoreFields, scores, 0, 0);
      SpellsByte(bs, 0, 4);
  }

  /** The entry number j of a map of players, keys in ascending order. */
  lemma PlayerEntryOffsets(bs: Bytes, at: nat, players: map<U8, Player>, j: nat)
    requires Has(bs, at, MapFields(PlayerFields, players)) && j < |AscendingKeys(players.Keys)|
    ensures forall x :: x in AscendingKeys(players.Keys) ==> x in players
    ensures var keys := AscendingKeys(players.Keys);
            var here, p := at + 4 + Size(EntryFields(PlayerFields, players, keys[..j])), players[keys[j]];
            && here < |bs| && bs[here] == keys[j]
            && TextAt(bs, here + 1, p.name) && TextAt(bs, here + 2 + Kept(p.name), p.address)
  {
    hide Spells, TextAt, MapFields, Has, EntryFields;
    var keys := AscendingKeys(players.Keys);
    MapOffsets(bs, at, PlayerFields, players, j, 0);
    var here := at + 4 + Size(EntryFields(PlayerFields, players, keys[..j]));
    SpellsByte(bs, here, keys[j]);
    PlayerHas(bs, here + 1, players[keys[j]]);
  }

  /** The entry number j of a map of scores: a byte for the player and four for the score. */
  lemma ScoreEntryOffsets(bs: Bytes, at: nat, scores: map<U8, U32>, j: nat)
    requires Has(bs, at, MapFields(ScoreFields, scores)) && j < |AscendingKeys(scores.Keys)|
    ensures forall x :: x in AscendingKeys(scores.Keys) ==> x in scores
    ensures var keys := AscendingKeys(scores.Keys);
            && at + 4 + 5 * j < |bs| && bs[at + 4 + 5 * j] == keys[j] && Spells(bs, at + 5 + 5 * j, 4, scores[keys[j]])
  {
    hide Spells, MapFields, Has, EntryFields;
    forall x | x in scores ensures Size(ScoreFields(scores[x])) == 4 {
      HasFirst([], 0, Num(4, scores[x]), []);
      assert ScoreFields(scores[x]) == [Num(4, scores[x])] + [];
    }
    var keys := AscendingKeys(scores.Keys);
    MapOffsets(bs, at, ScoreFields, scores, j, 4);
    SpellsByte(bs, at + 4 + 5 * j, keys[j]);
    HasFirst(bs, at + 5 + 5 * j, Num(4, scores[keys[j]]), []);
    assert ScoreFields(scores[keys[j]]) == [Num(4, scores[keys[j]])] + [];
  }
}
