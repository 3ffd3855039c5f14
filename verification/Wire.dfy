/** The wire format: how messages become bytes and bytes become messages (`messages.cpp`, tag dispatch
    in `message_manager.cpp`), with the round trips over whole streams. Integers travel in network
    byte order, most significant byte first (Appendix B of RFC 791). */
module Wire {
  import opened Types

  // ---------------------------------------------------------------- integers

  /** The number spelled by the bytes, most significant first. */
  function BigEndian(bs: Bytes): (n: nat)
    ensures n < Pow256(|bs|)
  {
    if bs == [] then 0 else 0x100 * BigEndian(bs[..|bs| - 1]) + bs[|bs| - 1]
  }

  function Pow256(n: nat): (p: nat)
    ensures p > 0
  {
    if n == 0 then 1 else 0x100 * Pow256(n - 1)
  }

  function EncodeInt(n: nat, value: nat): (bs: Bytes)
    ensures |bs| == n
  {
    if n == 0 then [] else EncodeInt(n - 1, value / 0x100) + [value % 0x100]
  }

  lemma {:induction false} IntRoundTrip(n: nat, value: nat)
    requires value < Pow256(n)
    ensures BigEndian(EncodeInt(n, value)) == value
  {
    if n > 0 {
      IntRoundTrip(n - 1, value / 0x100);
      assert EncodeInt(n, value)[..n - 1] == EncodeInt(n - 1, value / 0x100);
    }
  }

  lemma {:induction false} BytesRoundTrip(bs: Bytes)
    ensures EncodeInt(|bs|, BigEndian(bs)) == bs
  {
    if bs != [] {
      BytesRoundTrip(bs[..|bs| - 1]);
      assert bs == bs[..|bs| - 1] + [bs[|bs| - 1]];
    }
  }

  // ---------------------------------------------------------------- parsers

  /** A parser's verdict on a stream: a value and the bytes after it, a stream that ended too early
      (the peer disconnected), or an unknown tag. */
  datatype Parsed<+T> = Ok(value: T, rest: Bytes) | Short | Unknown {
    predicate IsFailure() { !Ok? }

    function PropagateFailure<U>(): Parsed<U>
      requires !Ok?
    {
      if Short? then Short else Unknown
    }

    function Extract(): (T, Bytes)
      requires Ok?
    {
      (value, rest)
    }
  }

  function Two(high: int, low: int): int {
    0x100 * high + low
  }

  function ParseU8(bs: Bytes): Parsed<U8> {
    if |bs| < 1 then Short else Ok(bs[0], bs[1..])
  }

  function ParseU16(bs: Bytes): Parsed<U16> {
    if |bs| < 2 then Short else Ok(Two(bs[0], bs[1]), bs[2..])
  }

  function ParseU32(bs: Bytes): Parsed<U32> {
    if |bs| < 4 then Short
    else Ok(Two(Two(Two(bs[0], bs[1]), bs[2]), bs[3]), bs[4..])
  }

  lemma FixedWidths(bs: Bytes)
    ensures |bs| >= 1 ==> BigEndian(bs[..1]) == bs[0]
    ensures |bs| >= 2 ==> BigEndian(bs[..2]) == Two(bs[0], bs[1])
    ensures |bs| >= 4 ==> BigEndian(bs[..4]) == Two(Two(Two(bs[0], bs[1]), bs[2]), bs[3])
  {
    if |bs| >= 1 {
      assert bs[..1][..0] == [];
      if |bs| >= 2 {
        assert bs[..2][..1] == bs[..1];
        if |bs| >= 4 {
          assert bs[..4][..3] == bs[..3];
          assert bs[..3][..2] == bs[..2];
        }
      }
    }
  }

  function EncodeU8(n: U8): Bytes { [n] }

  function EncodeU16(n: U16): Bytes { [n / 0x100, n % 0x100] }

  function EncodeU32(n: U32): Bytes {
    [n / 0x100_0000, n / 0x1_0000 % 0x100, n / 0x100 % 0x100, n % 0x100]
  }

  lemma EncodeWidths(n: nat)
    ensures n < 0x100 ==> EncodeInt(1, n) == EncodeU8(n)
    ensures n < 0x1_0000 ==> EncodeInt(2, n) == EncodeU16(n)
    ensures n < 0x1_0000_0000 ==> EncodeInt(4, n) == EncodeU32(n)
  {
    assert EncodeInt(0, n) == [];
    assert EncodeInt(1, n) == EncodeInt(0, n / 0x100) + [n % 0x100];
    assert EncodeInt(2, n) == EncodeInt(1, n / 0x100) + [n % 0x100];
    assert EncodeInt(1, n / 0x100) == [n / 0x100 % 0x100];
    assert EncodeInt(4, n) == EncodeInt(3, n / 0x100) + [n % 0x100];
    assert EncodeInt(3, n / 0x100) == EncodeInt(2, n / 0x100 / 0x100) + [n / 0x100 % 0x100];
    assert EncodeInt(2, n / 0x1_0000) == EncodeInt(1, n / 0x100_0000) + [n / 0x1_0000 % 0x100];
    assert EncodeInt(1, n / 0x100_0000) == [n / 0x100_0000 % 0x100];
  }

  lemma ReadBackU8(n: U8, r: Bytes)
    ensures ParseU8(EncodeU8(n) + r) == Ok(n, r)
  {
    assert (EncodeU8(n) + r)[1..] == r;
  }

  lemma ReadBackU16(n: U16, r: Bytes)
    ensures ParseU16(EncodeU16(n) + r) == Ok(n, r)
  {
    assert (EncodeU16(n) + r)[2..] == r;
  }

  lemma ReadBackU32(n: U32, r: Bytes)
    ensures ParseU32(EncodeU32(n) + r) == Ok(n, r)
  {
    var bs := EncodeU32(n) + r;
    assert bs[4..] == r;
    Quotients(n);
  }

  lemma Quotients(n: nat)
    ensures Two(n / 0x100_0000, n / 0x1_0000 % 0x100) == n / 0x1_0000
    ensures Two(n / 0x1_0000, n / 0x100 % 0x100) == n / 0x100
    ensures Two(n / 0x100, n % 0x100) == n
  {
    assert n / 0x1_0000 / 0x100 == n / 0x100_0000;
    assert n / 0x100 / 0x100 == n / 0x1_0000;
  }

  // ---------------------------------------------------------------- sequences

  /** n elements, one after the other. */
  function Many<T>(p: Bytes -> Parsed<T>, n: nat, bs: Bytes): Parsed<seq<T>> {
    if n == 0 then Ok([], bs)
    else
      var (x, r) :- p(bs);
      var (xs, r') :- Many(p, n - 1, r);
      Ok([x] + xs, r')
  }

  function EncodeSeq<T>(enc: T -> Bytes, xs: seq<T>): Bytes {
    if xs == [] then [] else enc(xs[0]) + EncodeSeq(enc, xs[1..])
  }

  function MapSeq<T, U>(f: T -> U, xs: seq<T>): (ys: seq<U>)
    ensures |ys| == |xs|
  {
    if xs == [] then [] else [f(xs[0])] + MapSeq(f, xs[1..])
  }

  /** A vector: its length and its elements. */
  function ParseVector<T>(p: Bytes -> Parsed<T>, bs: Bytes): Parsed<seq<T>> {
    var (n, r) :- ParseU32(bs);
    Many(p, n, r)
  }

  /** Vectors longer than 2^32 - 1 are refused by the sender; see Fits. */
  function EncodeLength(n: nat): Bytes {
    if n < 0x1_0000_0000 then EncodeU32(n) else []
  }

  function EncodeVector<T>(enc: T -> Bytes, xs: seq<T>): Bytes {
    EncodeLength(|xs|) + EncodeSeq(enc, xs)
  }

  lemma {:induction false} ManyRoundTrip<T, U>(p: Bytes -> Parsed<U>, enc: T -> Bytes, norm: T -> U, xs: seq<T>, rest: Bytes)
    requires forall i, r: Bytes {:trigger p(enc(xs[i]) + r)} :: 0 <= i < |xs| ==> p(enc(xs[i]) + r) == Ok(norm(xs[i]), r)
    ensures Many(p, |xs|, EncodeSeq(enc, xs) + rest) == Ok(MapSeq(norm, xs), rest)
  {
    if xs == [] {
      assert EncodeSeq(enc, xs) + rest == rest;
    } else {
      var tail := xs[1..];
      forall i, r: Bytes | 0 <= i < |tail| ensures p(enc(tail[i]) + r) == Ok(norm(tail[i]), r) {
        assert p(enc(xs[i + 1]) + r) == Ok(norm(xs[i + 1]), r);
      }
      ManyRoundTrip(p, enc, norm, tail, rest);
      var r := EncodeSeq(enc, tail) + rest;
      assert EncodeSeq(enc, xs) + rest == enc(xs[0]) + r;
      assert p(enc(xs[0]) + r) == Ok(norm(xs[0]), r);
    }
  }

  lemma VectorRoundTrip<T, U>(p: Bytes -> Parsed<U>, enc: T -> Bytes, norm: T -> U, xs: seq<T>, rest: Bytes)
    requires |xs| < 0x1_0000_0000
    requires forall i, r: Bytes {:trigger p(enc(xs[i]) + r)} :: 0 <= i < |xs| ==> p(enc(xs[i]) + r) == Ok(norm(xs[i]), r)
    ensures ParseVector(p, EncodeVector(enc, xs) + rest) == Ok(MapSeq(norm, xs), rest)
  {
    ManyRoundTrip(p, enc, norm, xs, rest);
    var body := EncodeSeq(enc, xs) + rest;
    assert EncodeVector(enc, xs) + rest == EncodeU32(|xs|) + body;
    ReadBackU32(|xs|, body);
  }

  function Same<T>(x: T): T { x }

  lemma {:induction false} MapSame<T>(xs: seq<T>)
    ensures MapSeq(Same, xs) == xs
  {
    if xs != [] {
      MapSame(xs[1..]);
    }
  }

  // ---------------------------------------------------------------- strings

  /** A string keeps at most its first 255 bytes. */
  function Truncate(s: Bytes): Bytes {
    if |s| < 0xFF then s else s[..0xFF]
  }

  function EncodeString(s: Bytes): Bytes {
    [|Truncate(s)|] + Truncate(s)
  }

  function ParseString(bs: Bytes): Parsed<Bytes> {
    var (n, r) :- ParseU8(bs);
    if |r| < n then Short else Ok(r[..n], r[n..])
  }

  lemma StringRoundTrip(s: Bytes, r: Bytes)
    ensures ParseString(EncodeString(s) + r) == Ok(Truncate(s), r)
  {
    var t := Truncate(s);
    assert EncodeString(s) + r == EncodeU8(|t|) + (t + r);
    ReadBackU8(|t|, t + r);
    assert (t + r)[..|t|] == t && (t + r)[|t|..] == r;
  }
}
