/** Bytes, bit strings and little-endian integers: the vocabulary the codecs share. */
module Bytes {
  type byte = b: int | 0 <= b < 256

  /** The low `n` bits of a number, least significant first. */
  function LowBits(x: nat, n: nat): (bits: seq<bool>)
    ensures |bits| == n
  {
    if n == 0 then [] else [x % 2 == 1] + LowBits(x / 2, n - 1)
  }

  function Value(bits: seq<bool>): nat {
    if bits == [] then 0 else (if bits[0] then 1 else 0) + 2 * Value(bits[1..])
  }

  function ByteBits(b: byte): (bits: seq<bool>)
    ensures |bits| == 8
  {
    LowBits(b, 8)
  }

  /** The byte with the given bits. */
  function ToByte(bits: seq<bool>): (b: byte)
    requires |bits| == 8
    ensures ByteBits(b) == bits
  {
    BitsOfValue(bits);
    assert Pow2(8) == 256;
    Value(bits)
  }

  function Pow2(n: nat): nat {
    if n == 0 then 1 else 2 * Pow2(n - 1)
  }

  lemma {:induction false} BitsOfValue(bits: seq<bool>)
    ensures Value(bits) < Pow2(|bits|) && LowBits(Value(bits), |bits|) == bits
  {
    if bits == [] {
    } else {
      BitsOfValue(bits[1..]);
      assert bits == [bits[0]] + bits[1..];
    }
  }

  lemma {:induction false} ValueOfBits(x: nat, n: nat)
    requires x < Pow2(n)
    ensures Value(LowBits(x, n)) == x
  {
    if n == 0 {
    } else {
      ValueOfBits(x / 2, n - 1);
      assert LowBits(x, n)[1..] == LowBits(x / 2, n - 1);
    }
  }

  /** The bits of a buffer in transmission order. */
  function Bits(buf: seq<byte>): (bits: seq<bool>)
    ensures |bits| == 8 * |buf|
  {
    if buf == [] then [] else ByteBits(buf[0]) + Bits(buf[1..])
  }

  lemma ByteFromBits(b: byte)
    ensures ToByte(ByteBits(b)) == b
  {
    assert Pow2(8) == 256;
    ValueOfBits(b, 8);
  }

  lemma {:induction false} BitsAppend(x: seq<byte>, y: seq<byte>)
    ensures Bits(x + y) == Bits(x) + Bits(y)
  {
    if x == [] {
      assert x + y == y;
    } else {
      assert (x + y)[1..] == x[1..] + y;
      BitsAppend(x[1..], y);
    }
  }

  lemma {:induction false} BitsInjective(x: seq<byte>, y: seq<byte>)
    requires |x| == |y| && Bits(x) == Bits(y)
    ensures x == y
  {
    if x == [] {
    } else {
      assert Bits(x)[..8] == ByteBits(x[0]) && Bits(y)[..8] == ByteBits(y[0]);
      assert Bits(x)[8..] == Bits(x[1..]) && Bits(y)[8..] == Bits(y[1..]);
      ByteFromBits(x[0]);
      ByteFromBits(y[0]);
      BitsInjective(x[1..], y[1..]);
    }
  }

  lemma {:induction false} BitAt(x: seq<byte>, b: nat)
    requires b < |Bits(x)|
    ensures Bits(x)[b] == ByteBits(x[b / 8])[b % 8]
  {
    if b < 8 {
    } else {
      BitAt(x[1..], b - 8);
    }
  }

  /** Whether a bit string holds an odd number of ones. */
  predicate Odd(bits: seq<bool>) {
    bits != [] && bits[0] != Odd(bits[1..])
  }

  lemma {:induction false} OddAppend(u: seq<bool>, v: seq<bool>)
    ensures Odd(u + v) == (Odd(u) != Odd(v))
  {
    if u == [] {
      assert u + v == v;
    } else {
      assert (u + v)[1..] == u[1..] + v;
      OddAppend(u[1..], v);
    }
  }

  /** The number of positions where two bit strings differ. */
  function Distance(u: seq<bool>, v: seq<bool>): nat
    requires |u| == |v|
  {
    if u == [] then 0 else (if u[0] != v[0] then 1 else 0) + Distance(u[1..], v[1..])
  }

  lemma {:induction false} DistanceParity(u: seq<bool>, v: seq<bool>)
    requires |u| == |v|
    ensures Distance(u, v) % 2 == 0 <==> Odd(u) == Odd(v)
  {
    if u == [] {
    } else {
      DistanceParity(u[1..], v[1..]);
    }
  }

  // ----- little-endian integers, as binary.LittleEndian reads and writes them -----

  function U16(buf: seq<byte>, at: nat): (x: nat)
    requires at + 2 <= |buf|
    ensures x < 0x1_0000
  {
    var b0: int, b1: int := buf[at], buf[at + 1];
    b0 + 0x100 * b1
  }

  function U24(buf: seq<byte>, at: nat): (x: nat)
    requires at + 3 <= |buf|
    ensures x < 0x100_0000
  {
    var b2: int := buf[at + 2];
    U16(buf, at) + 0x1_0000 * b2
  }

  function U32(buf: seq<byte>, at: nat): (x: nat)
    requires at + 4 <= |buf|
    ensures x < 0x1_0000_0000
  {
    U16(buf, at) + 0x1_0000 * U16(buf, at + 2)
  }

  function PutU16(x: int): (buf: seq<byte>)
    ensures |buf| == 2 && U16(buf, 0) == x % 0x1_0000
  {
    [x % 0x100, x / 0x100 % 0x100]
  }

  function PutU32(x: int): (buf: seq<byte>)
    ensures |buf| == 4 && U32(buf, 0) == x % 0x1_0000_0000
  {
    PutU16(x) + PutU16(x / 0x1_0000)
  }

  /** An n-bit pattern read as a two's-complement number; `half` is 2 to the n-1. */
  function Signed(x: nat, half: nat): (y: int)
    requires x < 2 * half
    ensures -(half as int) <= y < half && (y == x || y + 2 * half == x)
  {
    if x < half then x else x - 2 * half
  }
}
