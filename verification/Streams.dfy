/** Whole streams of messages: what a receiver decodes from any part of the bytes sent so far. */
module Streams {
  import opened Types
  import opened Wire
  import opened Codec

  // ---------------------------------------------------------------- more bytes never change a verdict

  /** Appending x to the input b keeps an accepted value and a rejected tag. */
  ghost predicate Stable<T>(p: Bytes -> Parsed<T>, b: Bytes, x: Bytes) {
    && (p(b).Ok? ==> p(b + x) == Ok(p(b).value, p(b).rest + x) && |p(b).rest| <= |b|)
    && (p(b).Unknown? ==> p(b + x).Unknown?)
  }

  lemma IntStable(b: Bytes, x: Bytes)
    ensures Stable(ParseU8, b, x) && Stable(ParseU16, b, x) && Stable(ParseU32, b, x)
  {
    if |b| >= 1 {
      assert (b + x)[1..] == b[1..] + x;
    }
    if |b| >= 2 {
      assert (b + x)[2..] == b[2..] + x;
    }
    if |b| >= 4 {
      assert (b + x)[4..] == b[4..] + x;
    }
  }

  lemma {:induction false} ManyStable<T>(p: Bytes -> Parsed<T>, n: nat, b: Bytes, x: Bytes)
    requires forall c :: Stable(p, c, x)
    ensures Stable(c => Many(p, n, c), b, x)
  {
    if n > 0 {
      assert Stable(p, b, x);
      if p(b).Ok? {
        ManyStable(p, n - 1, p(b).rest, x);
      }
    }
  }

  lemma VectorStable<T>(p: Bytes -> Parsed<T>, b: Bytes, x: Bytes)
    requires forall c :: Stable(p, c, x)
    ensures Stable(c => ParseVector(p, c), b, x)
  {
    IntStable(b, x);
    if |b| >= 4 {
      ManyStable(p, ParseU32(b).value, b[4..], x);
    }
  }

  lemma SplitLonger(r: Bytes, x: Bytes, n: nat)
    requires n <= |r|
    ensures (r + x)[..n] == r[..n] && (r + x)[n..] == r[n..] + x
  {
  }

  lemma StringStable(b: Bytes, x: Bytes)
    ensures Stable(ParseString, b, x)
  {
    hide ParseU8;
    IntStable(b, x);
    assert Stable(ParseU8, b, x);
    var length := ParseU8(b);
    if length.Ok? && length.value <= |length.rest| {
      SplitLonger(length.rest, x, length.value);
    }
  }

  lemma PositionStable(b: Bytes, x: Bytes)
    ensures Stable(ParsePosition, b, x)
  {
    IntStable(b, x);
    if |b| >= 2 {
      IntStable(b[2..], x);
    }
  }

  lemma PlayerStable(b: Bytes, x: Bytes)
    ensures Stable(ParsePlayer, b, x)
  {
    StringStable(b, x);
    if ParseString(b).Ok? {
      StringStable(ParseString(b).rest, x);
    }
  }

  lemma ExplodedStable(b: Bytes, x: Bytes)
    ensures Stable(ParseExploded, b, x)
  {
    IntStable(b, x);
    if |b| >= 4 {
      forall c ensures Stable(ParseU8, c, x) {
        IntStable(c, x);
      }
      VectorStable(ParseU8, b[4..], x);
      var robots := ParseVector(ParseU8, b[4..]);
      if robots.Ok? {
        forall c ensures Stable(ParsePosition, c, x) {
          PositionStable(c, x);
        }
        VectorStable(ParsePosition, robots.rest, x);
      }
    }
  }

  lemma EventStable(b: Bytes, x: Bytes)
    ensures Stable(ParseEvent, b, x)
  {
    hide ParsePosition, ParseExploded;
    IntStable(b, x);
    if |b| >= 1 {
      var tag, r := b[0], b[1..];
      if tag == 0 {
        IntStable(r, x);
        if |r| >= 4 {
          PositionStable(r[4..], x);
        }
      } else if tag == 1 {
        ExplodedStable(r, x);
      } else if tag == 2 {
        IntStable(r, x);
        if |r| >= 1 {
          PositionStable(r[1..], x);
        }
      } else if tag == 3 {
        PositionStable(r, x);
      }
    }
  }

  lemma TurnStable(b: Bytes, x: Bytes)
    ensures Stable(ParseTurn, b, x)
  {
    IntStable(b, x);
    if |b| >= 2 {
      forall c ensures Stable(ParseEvent, c, x) {
        EventStable(c, x);
      }
      VectorStable(ParseEvent, b[2..], x);
    }
  }

  lemma EntryStable(b: Bytes, x: Bytes)
    ensures Stable(ParseEntry, b, x) && Stable(ParseScore, b, x)
  {
    IntStable(b, x);
    if |b| >= 1 {
      IntStable(b[1..], x);
      PlayerStable(b[1..], x);
    }
  }

  lemma MapsStable(b: Bytes, x: Bytes)
    ensures Stable(ParsePlayers, b, x) && Stable(ParseScores, b, x)
  {
    forall c ensures Stable(ParseEntry, c, x) && Stable(ParseScore, c, x) {
      EntryStable(c, x);
    }
    VectorStable(ParseEntry, b, x);
    VectorStable(ParseScore, b, x);
  }

  lemma HelloStable(b: Bytes, x: Bytes)
    ensures Stable(ParseHello, b, x)
  {
    StringStable(b, x);
    if ParseString(b).Ok? {
      var r0 := ParseString(b).rest;
      IntStable(r0, x);
      if |r0| >= 1 {
        TailStable(r0[1..], x);
      }
    }
  }

  lemma TailStable(b: Bytes, x: Bytes)
    ensures Stable(ParseTail, b, x)
  {
    IntStable(b, x);
    if |b| >= 2 {
      IntStable(b[2..], x);
      if |b| >= 4 {
        assert b[2..][2..] == b[4..];
        IntStable(b[4..], x);
        if |b| >= 6 {
          assert b[4..][2..] == b[6..];
          IntStable(b[6..], x);
          if |b| >= 8 {
            assert b[6..][2..] == b[8..];
            IntStable(b[8..], x);
          }
        }
      }
    }
  }

  lemma AcceptedStable(b: Bytes, x: Bytes)
    ensures Stable(c => ParseBody(1, c), b, x)
  {
    IntStable(b, x);
    if |b| >= 1 {
      PlayerStable(b[1..], x);
    }
  }

  lemma BodyStable(tag: U8, b: Bytes, x: Bytes)
    ensures Stable(c => ParseBody(tag, c), b, x)
  {
    if tag == 0 {
      HelloStable(b, x);
    } else if tag == 1 {
      AcceptedStable(b, x);
    } else if tag == 2 || tag == 4 {
      MapsStable(b, x);
    } else if tag == 3 {
      TurnStable(b, x);
    }
  }

  /** A verdict on a message stream is final: bytes that arrive later do not change it. */
  lemma ServerStable(b: Bytes, x: Bytes)
    ensures Stable(ParseServer, b, x)
    ensures ParseServer(b).Ok? ==> |ParseServer(b).rest| < |b|
  {
    IntStable(b, x);
    if |b| >= 1 {
      BodyStable(b[0], b[1..], x);
    }
  }

  lemma ClientStable(b: Bytes, x: Bytes)
    ensures Stable(ParseClient, b, x)
    ensures ParseClient(b).Ok? ==> |ParseClient(b).rest| < |b|
  {
    IntStable(b, x);
    if |b| >= 1 {
      IntStable(b[1..], x);
      StringStable(b[1..], x);
    }
  }

  // ---------------------------------------------------------------- streams

  /** All messages a byte stream holds, the undecided bytes after them, and whether an unknown tag
      ended the reading. */
  datatype Decoded<+T> = Decoded(messages: seq<T>, left: Bytes, bad: bool)

  function Decode<T>(p: Bytes -> Parsed<T>, bs: Bytes): Decoded<T>
    decreases |bs|
  {
    match p(bs)
    case Ok(m, r) =>
      if |r| < |bs| then
        var d := Decode(p, r);
        Decoded([m] + d.messages, d.left, d.bad)
      else Decoded([], bs, false)
    case Short => Decoded([], bs, false)
    case Unknown => Decoded([], bs, true)
  }

  /** A message is framed when its bytes followed by anything parse back, and no proper part of them
      gives a verdict. */
  ghost predicate Framed<T(!new)>(p: Bytes -> Parsed<T>, enc: T -> Bytes, norm: T -> T, m: T) {
    && enc(m) != []
    && (forall r: Bytes {:trigger p(enc(m) + r)} :: p(enc(m) + r) == Ok(norm(m), r))
    && (forall b: Bytes {:trigger p(b)} :: b < enc(m) ==> p(b).Short?)
  }

  lemma DecodeHead<T(!new)>(p: Bytes -> Parsed<T>, enc: T -> Bytes, norm: T -> T, m: T, r: Bytes)
    requires Framed(p, enc, norm, m)
    ensures var d := Decode(p, r); Decode(p, enc(m) + r) == Decoded([norm(m)] + d.messages, d.left, d.bad)
  {
    assert p(enc(m) + r) == Ok(norm(m), r);
  }

  /** d is what part b of the stream of ms amounts to: exactly the messages that arrived whole,
      nothing rejected, and less than one message left in the buffer. */
  ghost predicate ArrivedWhole<T>(enc: T -> Bytes, norm: T -> T, ms: seq<T>, b: Bytes, d: Decoded<T>) {
    var k := |d.messages|;
    && !d.bad && k <= |ms| && d.messages == MapSeq(norm, ms)[..k]
    && b == EncodeSeq(enc, ms[..k]) + d.left
    && (k < |ms| ==> |d.left| < |enc(ms[k])|) && (k == |ms| ==> d.left == [])
  }

  lemma ArrivedMore<T>(enc: T -> Bytes, norm: T -> T, ms: seq<T>, r: Bytes, d: Decoded<T>)
    requires ms != [] && ArrivedWhole(enc, norm, ms[1..], r, d)
    ensures ArrivedWhole(enc, norm, ms, enc(ms[0]) + r, Decoded([norm(ms[0])] + d.messages, d.left, d.bad))
  {
    var k := |d.messages|;
    assert ms[..k + 1][0] == ms[0] && ms[..k + 1][1..] == ms[1..][..k];
    assert EncodeSeq(enc, ms[..k + 1]) == enc(ms[0]) + EncodeSeq(enc, ms[1..][..k]);
  }

  lemma NothingWhole<T>(enc: T -> Bytes, norm: T -> T, ms: seq<T>, b: Bytes)
    requires if ms == [] then b == [] else |b| < |enc(ms[0])|
    ensures ArrivedWhole(enc, norm, ms, b, Decoded([], b, false))
  {
    assert ms[..0] == [];
  }

  /** Whatever part of a framed stream has arrived decodes to the messages that arrived whole. */
  lemma {:induction false} PartDecodes<T(!new)>(p: Bytes -> Parsed<T>, enc: T -> Bytes, norm: T -> T, ms: seq<T>, b: Bytes)
    requires (forall m :: m in ms ==> Framed(p, enc, norm, m)) && b <= EncodeSeq(enc, ms)
    requires !p([]).Unknown?
    ensures ArrivedWhole(enc, norm, ms, b, Decode(p, b))
    decreases |ms|
  {
    if ms == [] {
      NothingWhole(enc, norm, ms, b);
    } else {
      assert Framed(p, enc, norm, ms[0]);
      var n := |enc(ms[0])|;
      if n <= |b| {
        var r := b[n..];
        assert b == enc(ms[0]) + r && r <= EncodeSeq(enc, ms[1..]);
        PartDecodes(p, enc, norm, ms[1..], r);
        DecodeHead(p, enc, norm, ms[0], r);
        ArrivedMore(enc, norm, ms, r, Decode(p, r));
      } else {
        assert b < enc(ms[0]);
        NothingWhole(enc, norm, ms, b);
      }
    }
  }

  /** Whole framed streams decode to their messages and leave nothing. */
  lemma {:induction false} WholeDecodes<T(!new)>(p: Bytes -> Parsed<T>, enc: T -> Bytes, norm: T -> T, ms: seq<T>)
    requires (forall m :: m in ms ==> Framed(p, enc, norm, m)) && !p([]).Unknown?
    ensures Decode(p, EncodeSeq(enc, ms)) == Decoded(MapSeq(norm, ms), [], false)
  {
    if ms != [] {
      assert Framed(p, enc, norm, ms[0]);
      WholeDecodes(p, enc, norm, ms[1..]);
      DecodeHead(p, enc, norm, ms[0], EncodeSeq(enc, ms[1..]));
    }
  }

  // ---------------------------------------------------------------- the two directions of the protocol

  function EncodeStream(ms: seq<ServerMessage>): Bytes {
    EncodeSeq(EncodeServer, ms)
  }

  ghost predicate AllFit(ms: seq<ServerMessage>) {
    forall m :: m in ms ==> Fits(m)
  }

  lemma ServerFramed(m: ServerMessage)
    requires Fits(m)
    ensures Framed(ParseServer, EncodeServer, Norm, m)
  {
    forall r: Bytes ensures ParseServer(EncodeServer(m) + r) == Ok(Norm(m), r) {
      ServerRoundTrip(m, r);
    }
    forall b: Bytes | b < EncodeServer(m) ensures ParseServer(b).Short? {
      var x := EncodeServer(m)[|b|..];
      assert EncodeServer(m) == b + x && EncodeServer(m) + [] == EncodeServer(m);
      ServerStable(b, x);
      ServerRoundTrip(m, []);
    }
  }

  lemma ClientFramed(m: ClientMessage)
    ensures Framed(ParseClient, EncodeClient, NormClient, m)
  {
    forall r: Bytes ensures ParseClient(EncodeClient(m) + r) == Ok(NormClient(m), r) {
      ClientRoundTrip(m, r);
    }
    forall b: Bytes | b < EncodeClient(m) ensures ParseClient(b).Short? {
      var x := EncodeClient(m)[|b|..];
      assert EncodeClient(m) == b + x && EncodeClient(m) + [] == EncodeClient(m);
      ClientStable(b, x);
      ClientRoundTrip(m, []);
    }
  }

  /** A client that has received any part of the server's stream has decoded exactly the messages that
      arrived whole and rejects nothing. */
  lemma PrefixDecodes(ms: seq<ServerMessage>, b: Bytes)
    requires AllFit(ms) && b <= EncodeStream(ms)
    ensures ArrivedWhole(EncodeServer, Norm, ms, b, Decode(ParseServer, b))
  {
    forall m | m in ms ensures Framed(ParseServer, EncodeServer, Norm, m) {
      ServerFramed(m);
    }
    PartDecodes(ParseServer, EncodeServer, Norm, ms, b);
  }

  lemma StreamRoundTrip(ms: seq<ServerMessage>)
    requires AllFit(ms)
    ensures Decode(ParseServer, EncodeStream(ms)) == Decoded(MapSeq(Norm, ms), [], false)
  {
    forall m | m in ms ensures Framed(ParseServer, EncodeServer, Norm, m) {
      ServerFramed(m);
    }
    WholeDecodes(ParseServer, EncodeServer, Norm, ms);
  }

  /** The same for the client's stream as the server reads it. */
  lemma ClientStreamRoundTrip(ms: seq<ClientMessage>)
    ensures Decode(ParseClient, EncodeSeq(EncodeClient, ms)) == Decoded(MapSeq(NormClient, ms), [], false)
  {
    forall m | m in ms ensures Framed(ParseClient, EncodeClient, NormClient, m) {
      ClientFramed(m);
    }
    WholeDecodes(ParseClient, EncodeClient, NormClient, ms);
  }

  /** Unique decoding: two streams with the same bytes carry the same messages, cut strings aside. */
  lemma UniqueDecoding(one: seq<ServerMessage>, two: seq<ServerMessage>)
    requires AllFit(one) && AllFit(two) && EncodeStream(one) == EncodeStream(two)
    ensures MapSeq(Norm, one) == MapSeq(Norm, two)
  {
    StreamRoundTrip(one);
    StreamRoundTrip(two);
  }
}
