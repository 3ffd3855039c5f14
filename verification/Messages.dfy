/** Reading and writing messages over a TCP handler, element by element (`messages.cpp`,
    `message_manager.cpp`). Every reader is proved to do to the bytes still pending what the parser of
    module `Codec` does to a byte string, so neither chunking nor the host's byte order matters. */
module Messages {
  import opened Types
  import opened Wire
  import opened Codec
  import opened Handler

  /** The outcome of a read: the value, or one of the two exceptions. */
  datatype Read<+T> = Got(value: T) | Disconnected | UnknownTag {
    predicate IsFailure() { !Got? }

    function PropagateFailure<U>(): Read<U>
      requires !Got?
    {
      if Disconnected? then Disconnected else UnknownTag
    }

    function Extract(): T
      requires Got?
    {
      value
    }
  }

  function Verdict<T>(p: Parsed<T>): Read<T> {
    match p
    case Ok(v, _) => Got(v)
    case Short => Disconnected
    case Unknown => UnknownTag
  }

  /** The reader returned the parser's verdict and left the parser's rest. */
  ghost predicate Follows<T>(r: Read<T>, p: Parsed<T>, pending: Bytes) {
    r == Verdict(p) && (p.Ok? ==> pending == p.rest)
  }

  // ---------------------------------------------------------------- readers

  method ReadU8(h: TCPHandler) returns (r: Read<U8>)
    modifies h`recvDeque, h`inbound
    ensures Follows(r, ParseU8(old(h.Pending())), h.Pending())
  {
    FixedWidths(h.Pending());
    var v := h.ReadElement(1);
    return if v.None? then Disconnected else Got(v.value);
  }

  method ReadU16(h: TCPHandler) returns (r: Read<U16>)
    modifies h`recvDeque, h`inbound
    ensures Follows(r, ParseU16(old(h.Pending())), h.Pending())
  {
    FixedWidths(h.Pending());
    var v := h.ReadElement(2);
    return if v.None? then Disconnected else Got(v.value);
  }

  method ReadU32(h: TCPHandler) returns (r: Read<U32>)
    modifies h`recvDeque, h`inbound
    ensures Follows(r, ParseU32(old(h.Pending())), h.Pending())
  {
    FixedWidths(h.Pending());
    var v := h.ReadElement(4);
    return if v.None? then Disconnected else Got(v.value);
  }

  /** Elements already read, put in front of those still to come. */
  function After<T>(v: seq<T>, p: Parsed<seq<T>>): Parsed<seq<T>> {
    match p
    case Ok(xs, r) => Ok(v + xs, r)
    case Short => Short
    case Unknown => Unknown
  }

  lemma AfterOne<T>(p: Bytes -> Parsed<T>, v: seq<T>, n: nat, bs: Bytes)
    requires n > 0
    ensures p(bs).Ok? ==> After(v, Many(p, n, bs)) == After(v + [p(bs).value], Many(p, n - 1, p(bs).rest))
    ensures p(bs).Short? ==> After(v, Many(p, n, bs)).Short?
    ensures p(bs).Unknown? ==> After(v, Many(p, n, bs)).Unknown?
  {
    if p(bs).Ok? {
      var tail := Many(p, n - 1, p(bs).rest);
      if tail.Ok? {
        assert v + ([p(bs).value] + tail.value) == v + [p(bs).value] + tail.value;
      }
    }
  }

  /** One reader step inside a loop over n elements. */
  lemma AfterRead<T>(p: Bytes -> Parsed<T>, v: seq<T>, n: nat, before: Bytes, r: Read<T>, pending: Bytes)
    requires n > 0 && Follows(r, p(before), pending)
    ensures r.Got? ==> After(v, Many(p, n, before)) == After(v + [r.value], Many(p, n - 1, pending))
    ensures !r.Got? ==> !After(v, Many(p, n, before)).Ok? && Verdict(After(v, Many(p, n, before))) == r.PropagateFailure()
  {
    AfterOne(p, v, n, before);
  }

  lemma AfterNone<T>(p: Bytes -> Parsed<T>, n: nat, bs: Bytes)
    ensures After([], Many(p, n, bs)) == Many(p, n, bs)
  {
    if Many(p, n, bs).Ok? {
      assert [] + Many(p, n, bs).value == Many(p, n, bs).value;
    }
  }

  lemma AfterAll<T>(p: Bytes -> Parsed<T>, v: seq<T>, bs: Bytes)
    ensures After(v, Many(p, 0, bs)) == Ok(v, bs)
  {
    assert v + [] == v;
  }

  lemma {:induction false} ManyU8s(n: nat, bs: Bytes)
    ensures Many(ParseU8, n, bs) == if |bs| < n then Short else Ok(bs[..n], bs[n..])
  {
    if n == 0 {
      assert bs[..0] == [] && bs[0..] == bs;
    } else if |bs| > 0 {
      ManyU8s(n - 1, bs[1..]);
      if n <= |bs| {
        assert bs[..n] == [bs[0]] + bs[1..][..n - 1] && bs[n..] == bs[1..][n - 1..];
      }
    }
  }

  method ReadString(h: TCPHandler) returns (r: Read<Bytes>)
    modifies h`recvDeque, h`inbound
    ensures Follows(r, ParseString(old(h.Pending())), h.Pending())
  {
    var len :- ReadU8(h);
    ghost var start := h.Pending();
    ManyU8s(len, start);
    AfterNone(ParseU8, len, start);
    var s: Bytes := [];
    for i := 0 to len
      invariant After(s, Many(ParseU8, len - i, h.Pending())) == Many(ParseU8, len, start)
    {
      AfterOne(ParseU8, s, len - i, h.Pending());
      var c :- ReadU8(h);
      s := s + [c];
    }
    AfterAll(ParseU8, s, h.Pending());
    return Got(s);
  }

  method ReadPosition(h: TCPHandler) returns (r: Read<Position>)
    modifies h`recvDeque, h`inbound
    ensures Follows(r, ParsePosition(old(h.Pending())), h.Pending())
  {
    var x :- ReadU16(h);
    var y :- ReadU16(h);
    return Got(Position(x, y));
  }

  method ReadPlayer(h: TCPHandler) returns (r: Read<Player>)
    modifies h`recvDeque, h`inbound
    ensures Follows(r, ParsePlayer(old(h.Pending())), h.Pending())
  {
    var name :- ReadString(h);
    var address :- ReadString(h);
    return Got(Player(name, address));
  }

  method ReadPlayerIds(h: TCPHandler) returns (r: Read<seq<U8>>)
    modifies h`recvDeque, h`inbound
    ensures Follows(r, ParseVector(ParseU8, old(h.Pending())), h.Pending())
  {
    var len :- ReadU32(h);
    ghost var start := h.Pending();
    AfterNone(ParseU8, len, start);
    var v: seq<U8> := [];
    for i := 0 to len
      invariant After(v, Many(ParseU8, len - i, h.Pending())) == Many(ParseU8, len, start)
    {
      AfterOne(ParseU8, v, len - i, h.Pending());
      var x :- ReadU8(h);
      v := v + [x];
    }
    AfterAll(ParseU8, v, h.Pending());
    return Got(v);
  }

  method ReadPositions(h: TCPHandler) returns (r: Read<seq<Position>>)
    modifies h`recvDeque, h`inbound
    ensures Follows(r, ParseVector(ParsePosition, old(h.Pending())), h.Pending())
  {
    var len :- ReadU32(h);
    ghost var start := h.Pending();
    AfterNone(ParsePosition, len, start);
    var v: seq<Position> := [];
    for i := 0 to len
      invariant After(v, Many(ParsePosition, len - i, h.Pending())) == Many(ParsePosition, len, start)
    {
      AfterOne(ParsePosition, v, len - i, h.Pending());
      var x :- ReadPosition(h);
      v := v + [x];
    }
    AfterAll(ParsePosition, v, h.Pending());
    return Got(v);
  }

  method ReadExploded(h: TCPHandler) returns (r: Read<Event>)
    modifies h`recvDeque, h`inbound
    ensures Follows(r, ParseExploded(old(h.Pending())), h.Pending())
  {
    var id :- ReadU32(h);
    var robots :- ReadPlayerIds(h);
    var blocks :- ReadPositions(h);
    return Got(BombExploded(id, robots, blocks));
  }

  method ReadEvent(h: TCPHandler) returns (r: Read<Event>)
    modifies h`recvDeque, h`inbound
    ensures Follows(r, ParseEvent(old(h.Pending())), h.Pending())
  {
    var tag :- ReadU8(h);
    if tag == 0 {
      var id :- ReadU32(h);
      var pos :- ReadPosition(h);
      return Got(BombPlaced(id, pos));
    } else if tag == 1 {
      r := ReadExploded(h);
    } else if tag == 2 {
      var i :- ReadU8(h);
      var pos :- ReadPosition(h);
      return Got(PlayerMoved(i, pos));
    } else if tag == 3 {
      var pos :- ReadPosition(h);
      return Got(BlockPlaced(pos));
    } else {
      return UnknownTag;
    }
  }

  method ReadEvents(h: TCPHandler) returns (r: Read<seq<Event>>)
    modifies h`recvDeque, h`inbound
    ensures Follows(r, ParseVector(ParseEvent, old(h.Pending())), h.Pending())
  {
    var len :- ReadU32(h);
    r := ReadManyEvents(h, len);
  }

  method ReadManyEvents(h: TCPHandler, len: U32) returns (r: Read<seq<Event>>)
    modifies h`recvDeque, h`inbound
    ensures Follows(r, Many(ParseEvent, len, old(h.Pending())), h.Pending())
  {
    hide ParseEvent;
    ghost var whole := Many(ParseEvent, len, h.Pending());
    AfterNone(ParseEvent, len, h.Pending());
    var v: seq<Event> := [];
    for i := 0 to len
      invariant After(v, Many(ParseEvent, len - i, h.Pending())) == whole
    {
      ghost var before := h.Pending();
      var event := ReadEvent(h);
      AfterRead(ParseEvent, v, len - i, before, event, h.Pending());
      if !event.Got? {
        return event.PropagateFailure();
      }
      v := v + [event.value];
    }
    AfterAll(ParseEvent, v, h.Pending());
    return Got(v);
  }

  method ReadTurn(h: TCPHandler) returns (r: Read<Turn>)
    modifies h`recvDeque, h`inbound
    ensures Follows(r, ParseTurn(old(h.Pending())), h.Pending())
  {
    var turn :- ReadU16(h);
    var events :- ReadEvents(h);
    return Got(Turn(turn, events));
  }

  lemma FromPairsSnoc<V>(ps: seq<Pair<V>>, p: Pair<V>)
    ensures FromPairs(ps + [p]) == InsertAbsent(FromPairs(ps), p.key, p.val)
  {
    assert (ps + [p])[..|ps|] == ps;
  }

  lemma NoPairs<V>()
    ensures FromPairs<V>([]) == map[]
  {
  }

  method ReadScore(h: TCPHandler) returns (r: Read<Pair<U32>>)
    modifies h`recvDeque, h`inbound
    ensures Follows(r, ParseScore(old(h.Pending())), h.Pending())
  {
    var key :- ReadU8(h);
    var val :- ReadU32(h);
    return Got(Pair(key, val));
  }

  /** Keys are inserted as they come; a repeated key keeps its first value. */
  method ReadManyScores(h: TCPHandler, len: U32) returns (r: Read<map<U8, U32>>, ghost ps: seq<Pair<U32>>)
    modifies h`recvDeque, h`inbound
    ensures Follows(if r.Got? then Got(ps) else r.PropagateFailure(), Many(ParseScore, len, old(h.Pending())), h.Pending())
    ensures r.Got? ==> r.value == FromPairs(ps)
  {
    hide ParseScore, After, Many, FromPairs;
    ghost var start := h.Pending();
    NoPairs<U32>();
    AfterNone(ParseScore, len, start);
    ps := [];
    var m: map<U8, U32> := map[];
    for i := 0 to len
      invariant m == FromPairs(ps)
      invariant After(ps, Many(ParseScore, len - i, h.Pending())) == Many(ParseScore, len, start)
    {
      ghost var before := h.Pending();
      var entry := ReadScore(h);
      AfterRead(ParseScore, ps, len - i, before, entry, h.Pending());
      if !entry.Got? {
        return entry.PropagateFailure(), ps;
      }
      var Pair(key, val) := entry.value;
      FromPairsSnoc(ps, entry.value);
      m := InsertAbsent(m, key, val);
      ps := ps + [entry.value];
    }
    AfterAll(ParseScore, ps, h.Pending());
    return Got(m), ps;
  }

  method ReadScores(h: TCPHandler) returns (r: Read<map<U8, U32>>)
    modifies h`recvDeque, h`inbound
    ensures Follows(r, ParseScores(old(h.Pending())), h.Pending())
  {
    var len :- ReadU32(h);
    ghost var ps;
    r, ps := ReadManyScores(h, len);
  }

  method ReadPlayers(h: TCPHandler) returns (r: Read<map<U8, Player>>)
    modifies h`recvDeque, h`inbound
    ensures Follows(r, ParsePlayers(old(h.Pending())), h.Pending())
  {
    var len :- ReadU32(h);
    ghost var ps;
    r, ps := ReadManyPlayers(h, len);
  }

  method ReadEntry(h: TCPHandler) returns (r: Read<Pair<Player>>)
    modifies h`recvDeque, h`inbound
    ensures Follows(r, ParseEntry(old(h.Pending())), h.Pending())
  {
    var key :- ReadU8(h);
    var val :- ReadPlayer(h);
    return Got(Pair(key, val));
  }

  method ReadManyPlayers(h: TCPHandler, len: U32) returns (r: Read<map<U8, Player>>, ghost ps: seq<Pair<Player>>)
    modifies h`recvDeque, h`inbound
    ensures Follows(if r.Got? then Got(ps) else r.PropagateFailure(), Many(ParseEntry, len, old(h.Pending())), h.Pending())
    ensures r.Got? ==> r.value == FromPairs(ps)
  {
    hide ParseEntry, After, Many, FromPairs;
    ghost var start := h.Pending();
    NoPairs<Player>();
    AfterNone(ParseEntry, len, start);
    ps := [];
    var m: map<U8, Player> := map[];
    for i := 0 to len
      invariant m == FromPairs(ps)
      invariant After(ps, Many(ParseEntry, len - i, h.Pending())) == Many(ParseEntry, len, start)
    {
      ghost var before := h.Pending();
      var entry := ReadEntry(h);
      AfterRead(ParseEntry, ps, len - i, before, entry, h.Pending());
      if !entry.Got? {
        return entry.PropagateFailure(), ps;
      }
      var Pair(key, val) := entry.value;
      FromPairsSnoc(ps, entry.value);
      m := InsertAbsent(m, key, val);
      ps := ps + [entry.value];
    }
    AfterAll(ParseEntry, ps, h.Pending());
    return Got(m), ps;
  }

  method ReadHello(h: TCPHandler) returns (r: Read<Hello>)
    modifies h`recvDeque, h`inbound
    ensures Follows(r, ParseHello(old(h.Pending())), h.Pending())
  {
    var name :- ReadString(h);
    var players :- ReadU8(h);
    var x :- ReadU16(h);
    var y :- ReadU16(h);
    var length :- ReadU16(h);
    var radius :- ReadU16(h);
    var timer :- ReadU16(h);
    return Got(Hello(name, players, x, y, length, radius, timer));
  }

  /** The client's read of one message from the server. */
  method ReadServerMessage(h: TCPHandler) returns (r: Read<ServerMessage>)
    modifies h`recvDeque, h`inbound
    ensures Follows(r, ParseServer(old(h.Pending())), h.Pending())
  {
    var tag :- ReadU8(h);
    if tag == 0 {
      var hello :- ReadHello(h);
      return Got(HelloMessage(hello));
    } else if tag == 1 {
      var id :- ReadU8(h);
      var player :- ReadPlayer(h);
      return Got(AcceptedPlayer(id, player));
    } else if tag == 2 {
      var players :- ReadPlayers(h);
      return Got(GameStarted(players));
    } else if tag == 3 {
      var turn :- ReadTurn(h);
      return Got(TurnMessage(turn));
    } else if tag == 4 {
      var scores :- ReadScores(h);
      return Got(GameEnded(scores));
    } else {
      return UnknownTag;
    }
  }

  /** The server's read of one message from a client. */
  method ReadClientMessage(h: TCPHandler) returns (r: Read<ClientMessage>)
    modifies h`recvDeque, h`inbound
    ensures Follows(r, ParseClient(old(h.Pending())), h.Pending())
  {
    var tag :- ReadU8(h);
    if tag == 0 {
      var name :- ReadString(h);
      return Got(Join(name));
    } else if tag == 1 {
      return Got(PlaceBomb);
    } else if tag == 2 {
      return Got(PlaceBlock);
    } else if tag == 3 {
      var d :- ReadU8(h);
      return Got(Move(d));
    } else {
      return UnknownTag;
    }
  }

  // ---------------------------------------------------------------- writers

  lemma {:induction false} EncodeSnoc<T>(enc: T -> Bytes, xs: seq<T>, x: T)
    ensures EncodeSeq(enc, xs + [x]) == EncodeSeq(enc, xs) + enc(x)
  {
    if xs == [] {
      assert ([] + [x])[1..] == [];
      assert EncodeSeq(enc, ([] + [x])[1..]) == [];
    } else {
      EncodeSnoc(enc, xs[1..], x);
      assert (xs + [x])[1..] == xs[1..] + [x];
    }
  }

  lemma EncodeNext<T>(enc: T -> Bytes, xs: seq<T>, i: nat)
    requires i < |xs|
    ensures EncodeSeq(enc, xs[..i + 1]) == EncodeSeq(enc, xs[..i]) + enc(xs[i])
  {
    EncodeSnoc(enc, xs[..i], xs[i]);
    assert xs[..i + 1] == xs[..i] + [xs[i]];
  }

  method SendU8(h: TCPHandler, n: U8)
    modifies h`outbound
    ensures h.outbound == old(h.outbound) + EncodeU8(n)
  {
    EncodeWidths(n);
    h.SendElement(1, n);
  }

  method SendU16(h: TCPHandler, n: U16)
    modifies h`outbound
    ensures h.outbound == old(h.outbound) + EncodeU16(n)
  {
    EncodeWidths(n);
    h.SendElement(2, n);
  }

  method SendU32(h: TCPHandler, n: U32)
    modifies h`outbound
    ensures h.outbound == old(h.outbound) + EncodeU32(n)
  {
    EncodeWidths(n);
    h.SendElement(4, n);
  }

  method SendString(h: TCPHandler, s: Bytes)
    modifies h`outbound
    ensures h.outbound == old(h.outbound) + EncodeString(s)
  {
    var n: U8 := if |s| < 0xFF then |s| else 0xFF;
    SendU8(h, n);
    for i := 0 to n
      invariant h.outbound == old(h.outbound) + [n] + s[..i]
    {
      SendU8(h, s[i]);
    }
    assert s[..|s|] == s;
  }

  method SendPosition(h: TCPHandler, p: Position)
    modifies h`outbound
    ensures h.outbound == old(h.outbound) + EncodePosition(p)
  {
    SendU16(h, p.x);
    SendU16(h, p.y);
  }

  method SendPlayer(h: TCPHandler, p: Player)
    modifies h`outbound
    ensures h.outbound == old(h.outbound) + EncodePlayer(p)
  {
    SendString(h, p.name);
    SendString(h, p.address);
  }

  /** Vectors of 2^32 elements or more are refused before anything of them is sent. */
  method SendPlayerIds(h: TCPHandler, v: seq<U8>) returns (ok: bool)
    modifies h`outbound
    ensures ok <==> |v| < 0x1_0000_0000
    ensures h.outbound == if ok then old(h.outbound) + EncodeVector(EncodeU8, v) else old(h.outbound)
  {
    if |v| > 0xFFFF_FFFF {
      return false;
    }
    SendU32(h, |v|);
    for i := 0 to |v|
      invariant h.outbound == old(h.outbound) + EncodeU32(|v|) + EncodeSeq(EncodeU8, v[..i])
    {
      EncodeNext(EncodeU8, v, i);
      SendU8(h, v[i]);
    }
    assert v[..|v|] == v;
    return true;
  }

  method SendPositions(h: TCPHandler, v: seq<Position>) returns (ok: bool)
    modifies h`outbound
    ensures ok <==> |v| < 0x1_0000_0000
    ensures h.outbound == if ok then old(h.outbound) + EncodeVector(EncodePosition, v) else old(h.outbound)
  {
    if |v| > 0xFFFF_FFFF {
      return false;
    }
    SendU32(h, |v|);
    for i := 0 to |v|
      invariant h.outbound == old(h.outbound) + EncodeU32(|v|) + EncodeSeq(EncodePosition, v[..i])
    {
      EncodeNext(EncodePosition, v, i);
      SendPosition(h, v[i]);
    }
    assert v[..|v|] == v;
    return true;
  }

  /** A refused vector leaves the elements before it on the wire. */
  method SendEvent(h: TCPHandler, e: Event) returns (ok: bool)
    modifies h`outbound
    ensures ok <==> FitsEvent(e)
    ensures ok ==> h.outbound == old(h.outbound) + EncodeEvent(e)
    ensures old(h.outbound) <= h.outbound
  {
    match e
    case BombPlaced(id, pos) =>
      SendU8(h, 0);
      SendU32(h, id);
      SendPosition(h, pos);
      return true;
    case BombExploded(id, robots, blocks) =>
      ok := SendExploded(h, id, robots, blocks);
    case PlayerMoved(i, pos) =>
      SendU8(h, 2);
      SendU8(h, i);
      SendPosition(h, pos);
      return true;
    case BlockPlaced(pos) =>
      SendU8(h, 3);
      SendPosition(h, pos);
      return true;
  }

  method SendExploded(h: TCPHandler, id: U32, robots: seq<U8>, blocks: seq<Position>) returns (ok: bool)
    modifies h`outbound
    ensures ok <==> |robots| < 0x1_0000_0000 && |blocks| < 0x1_0000_0000
    ensures ok ==> h.outbound == old(h.outbound) + EncodeEvent(BombExploded(id, robots, blocks))
    ensures old(h.outbound) <= h.outbound
  {
    hide EncodeU8, EncodeU32, EncodeVector, EncodePosition, EncodeEvent;
    ghost var was := h.outbound;
    SendU8(h, 1);
    SendU32(h, id);
    ok := SendPlayerIds(h, robots);
    if ok {
      ok := SendPositions(h, blocks);
    }
    if ok {
      ExplodedParts(was, id, robots, blocks);
    }
  }

  lemma ExplodedParts(was: Bytes, id: U32, robots: seq<U8>, blocks: seq<Position>)
    ensures was + EncodeU8(1) + EncodeU32(id) + EncodeVector(EncodeU8, robots) + EncodeVector(EncodePosition, blocks) ==
            was + EncodeEvent(BombExploded(id, robots, blocks))
  {
    hide EncodeU8, EncodeU32, EncodeVector, EncodePosition;
  }

  method SendEvents(h: TCPHandler, events: seq<Event>) returns (ok: bool)
    modifies h`outbound
    ensures ok <==> forall e :: e in events ==> FitsEvent(e)
    ensures ok ==> h.outbound == old(h.outbound) + EncodeSeq(EncodeEvent, events)
    ensures old(h.outbound) <= h.outbound
  {
    hide EncodeEvent;
    for i := 0 to |events|
      invariant forall j :: 0 <= j < i ==> FitsEvent(events[j])
      invariant h.outbound == old(h.outbound) + EncodeSeq(EncodeEvent, events[..i])
    {
      EncodeNext(EncodeEvent, events, i);
      ok := SendEvent(h, events[i]);
      if !ok {
        assert events[i] in events;
        return false;
      }
    }
    assert events[..|events|] == events;
    return true;
  }

  method SendTurn(h: TCPHandler, t: Turn) returns (ok: bool)
    modifies h`outbound
    ensures ok <==> FitsTurn(t)
    ensures ok ==> h.outbound == old(h.outbound) + EncodeTurn(t)
    ensures old(h.outbound) <= h.outbound
  {
    hide EncodeEvent, EncodeU16, EncodeU32, FitsEvent;
    SendU16(h, t.turn);
    if |t.events| > 0xFFFF_FFFF {
      return false;
    }
    SendU32(h, |t.events|);
    ok := SendEvents(h, t.events);
  }

  lemma PairsStep<V>(m: map<U8, V>, i: nat, enc: Pair<V> -> Bytes)
    requires i < 0x100
    ensures EncodeSeq(enc, PairsFrom(m, i)) ==
            (if i in m then enc(Pair(i, m[i])) else []) + EncodeSeq(enc, PairsFrom(m, i + 1))
  {
    if i in m {
      assert PairsFrom(m, i)[1..] == PairsFrom(m, i + 1);
    }
  }

  lemma {:induction false} PairsCount<V>(m: map<U8, V>, i: nat)
    requires i <= 0x100
    ensures |PairsFrom(m, i)| == |set k | k in m && k >= i|
    decreases 0x100 - i
  {
    if i < 0x100 {
      PairsCount(m, i + 1);
      if i in m {
        assert (set k | k in m && k >= i) == (set k | k in m && k >= i + 1) + {i};
      } else {
        assert (set k | k in m && k >= i) == (set k | k in m && k >= i + 1);
      }
    } else {
      assert (set k | k in m && k >= i) == {};
    }
  }

  method SendScore(h: TCPHandler, p: Pair<U32>)
    modifies h`outbound
    ensures h.outbound == old(h.outbound) + EncodeScore(p)
  {
    SendU8(h, p.key);
    SendU32(h, p.val);
  }

  method SendEntry(h: TCPHandler, p: Pair<Player>)
    modifies h`outbound
    ensures h.outbound == old(h.outbound) + EncodeEntry(p)
  {
    SendU8(h, p.key);
    SendPlayer(h, p.val);
  }

  method SendScoreEntries(h: TCPHandler, m: map<U8, U32>)
    modifies h`outbound
    ensures h.outbound == old(h.outbound) + EncodeSeq(EncodeScore, PairsFrom(m, 0))
  {
    hide EncodeScore;
    assert EncodeSeq(EncodeScore, PairsFrom(m, 0x100)) == [];
    for i := 0 to 0x100
      invariant h.outbound + EncodeSeq(EncodeScore, PairsFrom(m, i)) ==
                old(h.outbound) + EncodeSeq(EncodeScore, PairsFrom(m, 0))
    {
      PairsStep(m, i, EncodeScore);
      if i in m {
        SendScore(h, Pair(i, m[i]));
      }
    }
  }

  method SendPlayerEntries(h: TCPHandler, m: map<U8, Player>)
    modifies h`outbound
    ensures h.outbound == old(h.outbound) + EncodeSeq(EncodeEntry, PairsFrom(m, 0))
  {
    hide EncodeEntry;
    assert EncodeSeq(EncodeEntry, PairsFrom(m, 0x100)) == [];
    for i := 0 to 0x100
      invariant h.outbound + EncodeSeq(EncodeEntry, PairsFrom(m, i)) ==
                old(h.outbound) + EncodeSeq(EncodeEntry, PairsFrom(m, 0))
    {
      PairsStep(m, i, EncodeEntry);
      if i in m {
        SendEntry(h, Pair(i, m[i]));
      }
    }
  }

  /** Maps are sent in ascending order of their keys and are never too long. */
  method SendScores(h: TCPHandler, m: map<U8, U32>)
    modifies h`outbound
    ensures h.outbound == old(h.outbound) + EncodeScores(m)
  {
    MapSize(m);
    SendU32(h, |m|);
    SendScoreEntries(h, m);
  }

  method SendPlayers(h: TCPHandler, m: map<U8, Player>)
    modifies h`outbound
    ensures h.outbound == old(h.outbound) + EncodePlayers(m)
  {
    MapSize(m);
    SendU32(h, |m|);
    SendPlayerEntries(h, m);
  }

  lemma MapSize<V>(m: map<U8, V>)
    ensures |PairsFrom(m, 0)| == |m| <= 0x100
  {
    PairsCount(m, 0);
    assert (set k | k in m && k >= 0) == m.Keys;
  }

  method SendHello(h: TCPHandler, hello: Hello)
    modifies h`outbound
    ensures h.outbound == old(h.outbound) + EncodeHello(hello)
  {
    SendString(h, hello.serverName);
    SendU8(h, hello.playersCount);
    SendU16(h, hello.sizeX);
    SendU16(h, hello.sizeY);
    SendU16(h, hello.gameLength);
    SendU16(h, hello.explosionRadius);
    SendU16(h, hello.bombTimer);
  }

  /** The server's send of one message: all its bytes, or an exception exactly when a vector of it
      is too long for its 32-bit length. */
  method SendServerMessage(h: TCPHandler, m: ServerMessage) returns (ok: bool)
    modifies h`outbound
    ensures ok <==> Fits(m)
    ensures ok ==> h.outbound == old(h.outbound) + EncodeServer(m)
    ensures old(h.outbound) <= h.outbound
  {
    hide EncodeHello, EncodePlayer, EncodePlayers, EncodeTurn, EncodeScores, FitsTurn;
    SendU8(h, TagOf(m));
    ok := true;
    match m
    case HelloMessage(hello) => SendHello(h, hello);
    case AcceptedPlayer(id, player) =>
      SendU8(h, id);
      SendPlayer(h, player);
    case GameStarted(players) => SendPlayers(h, players);
    case TurnMessage(turn) => ok := SendTurn(h, turn);
    case GameEnded(scores) => SendScores(h, scores);
  }

  method SendClientMessage(h: TCPHandler, m: ClientMessage)
    modifies h`outbound
    ensures h.outbound == old(h.outbound) + EncodeClient(m)
  {
    match m
    case Join(name) =>
      SendU8(h, 0);
      SendString(h, name);
    case PlaceBomb => SendU8(h, 1);
    case PlaceBlock => SendU8(h, 2);
    case Move(d) =>
      SendU8(h, 3);
      SendU8(h, d);
  }
}
