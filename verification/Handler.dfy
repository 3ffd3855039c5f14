/** Element input and output over one TCP connection (`network_handler.h`, `network_handler.cpp`): a
    receive deque filled by chunks of any size, in-place byte-order conversion, and partial sends. */
module Handler {
  import opened Types
  import opened Wire

  function Reversed(bs: Bytes): (r: Bytes)
    ensures |r| == |bs|
  {
    if bs == [] then [] else Reversed(bs[1..]) + [bs[0]]
  }

  lemma {:induction false} ReversedAt(bs: Bytes, k: nat)
    requires k < |bs|
    ensures Reversed(bs)[k] == bs[|bs| - 1 - k]
  {
    if k < |bs| - 1 {
      ReversedAt(bs[1..], k);
    }
  }

  /** The number a little-endian host sees in memory. */
  function LittleEndian(bs: Bytes): nat {
    if bs == [] then 0 else bs[0] + 0x100 * LittleEndian(bs[1..])
  }

  /** The memory of a little-endian host holding a number in n bytes. */
  function LittleBytes(n: nat, value: nat): (bs: Bytes)
    ensures |bs| == n
  {
    if n == 0 then [] else [value % 0x100] + LittleBytes(n - 1, value / 0x100)
  }

  lemma {:induction false} SwappedValue(bs: Bytes)
    ensures LittleEndian(Reversed(bs)) == BigEndian(bs)
  {
    if bs != [] {
      var front, last := bs[..|bs| - 1], bs[|bs| - 1];
      ReversedLast(front, last);
      assert bs == front + [last];
      SwappedValue(front);
      assert ([last] + Reversed(front))[1..] == Reversed(front);
    }
  }

  lemma {:induction false} ReversedLast(bs: Bytes, x: U8)
    ensures Reversed(bs + [x]) == [x] + Reversed(bs)
  {
    if bs != [] {
      assert (bs + [x])[1..] == bs[1..] + [x];
      ReversedLast(bs[1..], x);
    } else {
      assert (bs + [x])[1..] == [];
    }
  }

  lemma {:induction false} SwappedBytes(n: nat, value: nat)
    ensures Reversed(LittleBytes(n, value)) == EncodeInt(n, value)
  {
    if n > 0 {
      SwappedBytes(n - 1, value / 0x100);
      assert LittleBytes(n, value)[1..] == LittleBytes(n - 1, value / 0x100);
    }
  }

  /** What a host of the given byte order stores for a number and reads from memory. */
  function HostBytes(little: bool, n: nat, value: nat): (bs: Bytes)
    ensures |bs| == n
  {
    if little then LittleBytes(n, value) else EncodeInt(n, value)
  }

  function HostValue(little: bool, bs: Bytes): nat {
    if little then LittleEndian(bs) else BigEndian(bs)
  }

  predicate IsWidth(n: nat) {
    n == 1 || n == 2 || n == 4 || n == 8
  }

  /** Converts the first n bytes between network and host order; other widths are refused. The two
      conversions of the source are the same operation. */
  method ConvertByteOrder(little: bool, buffer: array<U8>, n: nat) returns (ok: bool)
    requires n <= buffer.Length
    modifies buffer
    ensures ok <==> IsWidth(n)
    ensures buffer[n..] == old(buffer[n..])
    ensures buffer[..n] == if ok && little then Reversed(old(buffer[..n])) else old(buffer[..n])
  {
    if !IsWidth(n) {
      return false;
    }
    ok := true;
    if little {
      ghost var was := buffer[..n];
      var i := 0;
      while i < n / 2
        invariant 0 <= i <= n / 2
        invariant forall k :: 0 <= k < i ==> buffer[k] == was[n - 1 - k] && buffer[n - 1 - k] == was[k]
        invariant forall k :: i <= k < n - i ==> buffer[k] == was[k]
        invariant buffer[n..] == old(buffer[n..])
      {
        buffer[i], buffer[n - 1 - i] := buffer[n - 1 - i], buffer[i];
        i := i + 1;
      }
      forall k | 0 <= k < n ensures buffer[..n][k] == Reversed(was)[k] {
        ReversedAt(was, k);
      }
    }
  }

  const TCP_BUFF_SIZE: nat := 65536

  class TCPHandler {
    /** The byte order of the machine. */
    const little: bool
    /** Received and not yet consumed. */
    var recvDeque: Bytes
    /** Sent by the peer, or yet to be sent before it disconnects, and not received. */
    var inbound: Bytes
    /** Handed to the network so far. */
    var outbound: Bytes

    constructor (little: bool, inbound: Bytes)
      ensures this.little == little && Pending() == inbound && outbound == []
    {
      this.little := little;
      this.inbound := inbound;
      recvDeque, outbound := [], [];
      new;
      assert Pending() == [] + inbound;
    }

    /** All bytes still to be consumed, wherever they are. */
    ghost function Pending(): Bytes
      reads this`recvDeque, this`inbound
    {
      recvDeque + inbound
    }

    /** One receive call: any non-empty part of what is left, or nothing once the peer is gone. */
    method Recv() returns (chunk: Bytes)
      modifies this`inbound
      ensures old(inbound) == chunk + inbound && |chunk| <= TCP_BUFF_SIZE
      ensures chunk == [] <==> old(inbound) == []
    {
      if inbound == [] {
        return [];
      }
      assert 1 <= 1 <= |inbound|;
      var n :| 1 <= n <= |inbound| && n <= TCP_BUFF_SIZE;
      chunk := inbound[..n];
      inbound := inbound[n..];
    }

    /** One send call: any non-empty part of the bytes is taken. */
    method Send(bytes: Bytes) returns (n: nat)
      requires bytes != []
      modifies this`outbound
      ensures 1 <= n <= |bytes| && outbound == old(outbound) + bytes[..n]
    {
      assert 1 <= 1 <= |bytes|;
      n :| 1 <= n <= |bytes|;
      outbound := outbound + bytes[..n];
    }

    /** No byte is lost, added or reordered, and it fails only when the peer left too early. */
    method ReturnWhenNBytesInDeque(n: nat) returns (ok: bool)
      modifies this`recvDeque, this`inbound
      ensures Pending() == old(Pending())
      ensures ok <==> n <= |old(Pending())|
      ensures ok ==> n <= |recvDeque|
    {
      while |recvDeque| < n
        invariant Pending() == old(Pending())
        decreases |inbound|
      {
        var chunk := Recv();
        if chunk == [] {
          return false;
        }
        ghost var left := inbound;
        for i := 0 to |chunk|
          invariant inbound == left
          invariant recvDeque + chunk[i..] + inbound == old(Pending())
        {
          recvDeque := recvDeque + [chunk[i]];
        }
      }
      return true;
    }

    /** The next n bytes as a number, whatever the chunks were and whatever the host's byte order. */
    method ReadElement(n: nat) returns (value: Option<nat>)
      requires IsWidth(n)
      modifies this`recvDeque, this`inbound
      ensures |old(Pending())| < n ==> value == None && Pending() == old(Pending())
      ensures n <= |old(Pending())| ==>
                value == Some(BigEndian(old(Pending())[..n])) && Pending() == old(Pending())[n..]
    {
      var ok := ReturnWhenNBytesInDeque(n);
      if !ok {
        return None;
      }
      var tempBuff := new U8[n];
      ghost var all, left := recvDeque, inbound;
      for i := 0 to n
        invariant inbound == left
        invariant i <= |all| && recvDeque == all[i..] && tempBuff[..i] == all[..i]
      {
        tempBuff[i] := recvDeque[0];
        recvDeque := recvDeque[1..];
      }
      assert old(Pending())[..n] == all[..n] && old(Pending())[n..] == Pending();
      assert tempBuff[..n] == tempBuff[..];
      var converted := ConvertByteOrder(little, tempBuff, n);
      SwappedValue(all[..n]);
      value := Some(HostValue(little, tempBuff[..n]));
    }

    /** Keeps sending until every byte is out. */
    method SendNBytes(bytes: Bytes)
      modifies this`outbound
      ensures outbound == old(outbound) + bytes
    {
      var rest := bytes;
      while rest != []
        invariant outbound + rest == old(outbound) + bytes
        decreases |rest|
      {
        var n := Send(rest);
        assert rest == rest[..n] + rest[n..];
        rest := rest[n..];
      }
    }

    /** Appends the number in network byte order, whatever the host's byte order. */
    method SendElement(n: nat, value: nat)
      requires IsWidth(n)
      modifies this`outbound
      ensures outbound == old(outbound) + EncodeInt(n, value)
    {
      var memory := HostBytes(little, n, value);
      var sendBuff := new U8[n](i requires 0 <= i < |memory| => memory[i]);
      assert sendBuff[..n] == memory;
      var converted := ConvertByteOrder(little, sendBuff, n);
      SwappedBytes(n, value);
      SendNBytes(sendBuff[..n]);
    }
  }
}
