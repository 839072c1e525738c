/**
  CRC-16/MCRF4XX as internal/mavlink/crc.go computes it: one table-free shift/xor step
  per byte, started at 0xFFFF, with no final complement.

  A 16-bit word is its sixteen bits, least significant first, with the source's shifts,
  masks and exclusive-ors defined on them. The reference is the bit-at-a-time CRC with the
  reflected polynomial 0x8408 (RFC 1662, Appendix C), least significant bit of each byte
  first. Error detection is proved on the reference and carried over to the byte form.
 */
module Crc {
  import opened Bytes

  type Word = w: seq<bool> | |w| == 16 witness INIT

  /** 0xFFFF */
  const INIT: seq<bool> := [true, true, true, true, true, true, true, true,
                            true, true, true, true, true, true, true, true]
  /** 0x8408 */
  const POLY: Word := [false, false, false, true, false, false, false, false,
                       false, false, true, false, false, false, false, true]
  const ZERO: Word := [false, false, false, false, false, false, false, false,
                       false, false, false, false, false, false, false, false]

  // ----- words -----

  function At(s: seq<bool>, i: int): bool {
    0 <= i < |s| && s[i]
  }

  /** Exclusive or; a shorter right operand is zero-extended, as uint16(b) extends a byte. */
  function Xor(x: Word, y: seq<bool>): Word {
    seq(16, i requires 0 <= i < 16 => x[i] != At(y, i))
  }

  function ShiftRight(x: Word, n: nat): Word {
    seq(16, i requires 0 <= i < 16 => At(x, i + n))
  }

  function ShiftLeft(x: Word, n: nat): Word {
    seq(16, i requires 0 <= i < 16 => At(x, i - n))
  }

  /** x & 0xFF */
  function LowByte(x: Word): Word {
    seq(16, i requires 0 <= i < 16 => i < 8 && x[i])
  }

  // ----- the source's form -----

  function CrcAccumulate(b: byte, crc: Word): Word {
    var tmp := Xor(LowByte(crc), ByteBits(b));
    var folded := Xor(tmp, LowByte(ShiftLeft(tmp, 4)));
    Xor(Xor(Xor(ShiftRight(crc, 8), ShiftLeft(folded, 8)), ShiftLeft(folded, 3)), ShiftRight(folded, 4))
  }

  /** The running CRC after the bytes of `buf`, started at `crc`. */
  function Accumulate(crc: Word, buf: seq<byte>): Word
    decreases |buf|
  {
    if buf == [] then crc else Accumulate(CrcAccumulate(buf[0], crc), buf[1..])
  }

  function CrcCalculate(buf: seq<byte>, seed: byte): Word {
    CrcAccumulate(seed, Accumulate(INIT, buf))
  }

  /** The loop of crcCalculate, against the bit-serial reference. */
  method Calculate(buf: seq<byte>, seed: byte) returns (crc: Word)
    ensures crc == Feed(INIT, Bits(buf + [seed]))
    ensures crc == CrcCalculate(buf, seed)
  {
    crc := INIT;
    for i := 0 to |buf|
      invariant Accumulate(crc, buf[i..]) == Accumulate(INIT, buf)
    {
      assert buf[i..][1..] == buf[i + 1..];
      crc := CrcAccumulate(buf[i], crc);
    }
    crc := CrcAccumulate(seed, crc);
    FastIsBitSerial(buf, seed);
  }

  // ----- the reference -----

  /** One step of the shift register: shift right, feeding the polynomial back when a one falls out. */
  function Shift(x: Word): Word {
    if x[0] then Xor(ShiftRight(x, 1), POLY) else ShiftRight(x, 1)
  }

  function BitStep(crc: Word, bit: bool): Word {
    Shift(Xor(crc, [bit]))
  }

  function Feed(crc: Word, bits: seq<bool>): Word
    decreases |bits|
  {
    if bits == [] then crc else Feed(BitStep(crc, bits[0]), bits[1..])
  }

  lemma {:induction false} FeedAppend(crc: Word, u: seq<bool>, v: seq<bool>)
    ensures Feed(crc, u + v) == Feed(Feed(crc, u), v)
    decreases |u|
  {
    if u == [] {
      assert u + v == v;
    } else {
      assert (u + v)[1..] == u[1..] + v;
      FeedAppend(BitStep(crc, u[0]), u[1..], v);
    }
  }

  // ----- input may be xored into the register ahead of time -----

  predicate Tap(i: int) {
    i == 3 || i == 10 || i == 15
  }

  lemma ShiftAt(x: Word, i: nat)
    requires i < 16
    ensures Shift(x)[i] == (At(x, i + 1) != (x[0] && Tap(i)))
  {}

  function Shifts(k: nat, x: Word): Word {
    if k == 0 then x else Shifts(k - 1, Shift(x))
  }

  lemma Peel(s: Word, u: seq<bool>)
    requires 0 < |u| <= 16
    ensures Shift(Xor(s, u)) == Xor(BitStep(s, u[0]), u[1..])
  {
    forall i: nat | i < 16
      ensures Shift(Xor(s, u))[i] == Xor(BitStep(s, u[0]), u[1..])[i]
    {
      ShiftAt(Xor(s, u), i);
      ShiftAt(Xor(s, [u[0]]), i);
    }
  }

  /** Feeding up to sixteen bits one at a time is xoring them all in first and then only shifting. */
  lemma {:induction false} FeedIsShifts(s: Word, u: seq<bool>)
    requires |u| <= 16
    ensures Feed(s, u) == Shifts(|u|, Xor(s, u))
    decreases |u|
  {
    if u == [] {
      assert Xor(s, u) == s;
    } else {
      Peel(s, u);
      FeedIsShifts(BitStep(s, u[0]), u[1..]);
    }
  }

  lemma ShiftInjective(x: Word, y: Word)
    requires Shift(x) == Shift(y)
    ensures x == y
  {
    ShiftAt(x, 15);
    ShiftAt(y, 15);
    forall i: nat | 0 < i < 16
      ensures x[i] == y[i]
    {
      ShiftAt(x, i - 1);
      ShiftAt(y, i - 1);
    }
  }

  lemma {:induction false} ShiftsInjective(k: nat, x: Word, y: Word)
    requires Shifts(k, x) == Shifts(k, y)
    ensures x == y
  {
    if k == 0 {
    } else {
      ShiftsInjective(k - 1, Shift(x), Shift(y));
      ShiftInjective(x, y);
    }
  }

  // ----- the fast form refines the reference -----

  /** Four shifts in closed form: no fed-back bit reaches bit 0 within four steps. */
  predicate NibbleAt(x: Word, i: int) {
    At(x, i + 4) != ((0 <= i < 4 && At(x, i)) || (7 <= i < 11 && At(x, i - 7)) || (12 <= i < 16 && At(x, i - 12)))
  }

  function Nibble(x: Word): Word {
    seq(16, i requires 0 <= i < 16 => NibbleAt(x, i))
  }

  lemma FourShifts(x: Word)
    ensures Shift(Shift(Shift(Shift(x)))) == Nibble(x)
  {
    forall i: nat | i < 16
      ensures Shift(Shift(Shift(Shift(x))))[i] == NibbleAt(x, i)
    {
      FourShiftsAt(x, i);
    }
  }

  lemma FourShiftsAt(x: Word, i: nat)
    requires i < 16
    ensures Shift(Shift(Shift(Shift(x))))[i] == NibbleAt(x, i)
  {
    var x1 := Shift(x);
    var x2 := Shift(x1);
    var x3 := Shift(x2);
    ShiftAt(x3, i);
    if i + 1 < 16 { ShiftAt(x2, i + 1); }
    if i + 2 < 16 { ShiftAt(x1, i + 2); }
    if i + 3 < 16 { ShiftAt(x, i + 3); }
    ShiftAt(x, 0);
    ShiftAt(x, 1);
    ShiftAt(x, 2);
    ShiftAt(x1, 0);
    ShiftAt(x1, 1);
    ShiftAt(x2, 0);
    assert x1[0] == x[1] && x2[0] == x[2] && x3[0] == x[3];
  }

  /** The source's `tmp` after its second assignment. */
  predicate FoldedAt(x: Word, j: int) {
    0 <= j < 8 && (x[j] != (j >= 4 && x[j - 4]))
  }

  /** The byte step in closed form, on the register with the byte already xored in. */
  predicate StepAt(x: Word, i: int) {
    ((At(x, i + 8) != FoldedAt(x, i - 8)) != FoldedAt(x, i - 3)) != FoldedAt(x, i + 4)
  }

  lemma TwoNibbles(x: Word, i: nat)
    requires i < 16
    ensures NibbleAt(Nibble(x), i) == StepAt(x, i)
  {}

  lemma FoldedIs(b: byte, crc: Word, tmp: Word, folded: Word, j: nat)
    requires tmp == Xor(LowByte(crc), ByteBits(b)) && folded == Xor(tmp, LowByte(ShiftLeft(tmp, 4))) && j < 16
    ensures folded[j] == FoldedAt(Xor(crc, ByteBits(b)), j)
  {
    var x := Xor(crc, ByteBits(b));
    assert tmp[j] == (j < 8 && x[j]);
    assert LowByte(ShiftLeft(tmp, 4))[j] == (j < 8 && At(tmp, j - 4));
    if 4 <= j < 8 {
      assert tmp[j - 4] == x[j - 4];
    }
  }

  lemma AccumulateAt(b: byte, crc: Word, i: nat)
    requires i < 16
    ensures CrcAccumulate(b, crc)[i] == StepAt(Xor(crc, ByteBits(b)), i)
  {
    var tmp := Xor(LowByte(crc), ByteBits(b));
    var folded := Xor(tmp, LowByte(ShiftLeft(tmp, 4)));
    if i >= 8 { FoldedIs(b, crc, tmp, folded, i - 8); }
    if i >= 3 { FoldedIs(b, crc, tmp, folded, i - 3); }
    if i + 4 < 16 { FoldedIs(b, crc, tmp, folded, i + 4); }
    if i + 8 < 16 { assert Xor(crc, ByteBits(b))[i + 8] == crc[i + 8]; }
    assert ShiftRight(crc, 8)[i] == At(crc, i + 8);
    assert ShiftLeft(folded, 8)[i] == At(folded, i - 8);
    assert ShiftLeft(folded, 3)[i] == At(folded, i - 3);
    assert ShiftRight(folded, 4)[i] == At(folded, i + 4);
  }

  lemma EightShifts(x: Word, i: nat)
    requires i < 16
    ensures Shifts(8, x)[i] == StepAt(x, i)
  {
    var m := Shift(Shift(Shift(Shift(x))));
    assert Shifts(8, x) == Shifts(7, Shift(x)) == Shifts(6, Shift(Shift(x)));
    assert Shifts(6, Shift(Shift(x))) == Shifts(5, Shift(Shift(Shift(x)))) == Shifts(4, m);
    assert Shifts(4, m) == Shift(Shift(Shift(Shift(m)))) by {
      assert Shifts(4, m) == Shifts(3, Shift(m)) == Shifts(2, Shift(Shift(m)));
      assert Shifts(2, Shift(Shift(m))) == Shifts(1, Shift(Shift(Shift(m)))) == Shifts(0, Shift(Shift(Shift(Shift(m)))));
    }
    FourShifts(x);
    FourShifts(m);
    TwoNibbles(x, i);
  }

  lemma ByteStep(b: byte, crc: Word)
    ensures CrcAccumulate(b, crc) == Feed(crc, ByteBits(b))
  {
    FeedIsShifts(crc, ByteBits(b));
    forall i: nat | i < 16
      ensures CrcAccumulate(b, crc)[i] == Feed(crc, ByteBits(b))[i]
    {
      AccumulateAt(b, crc, i);
      EightShifts(Xor(crc, ByteBits(b)), i);
    }
  }

  lemma {:induction false} AccumulateIsFeed(crc: Word, buf: seq<byte>)
    ensures Accumulate(crc, buf) == Feed(crc, Bits(buf))
    decreases |buf|
  {
    if buf == [] {
    } else {
      ByteStep(buf[0], crc);
      FeedAppend(crc, ByteBits(buf[0]), Bits(buf[1..]));
      AccumulateIsFeed(CrcAccumulate(buf[0], crc), buf[1..]);
    }
  }

  lemma {:induction false} AccumulateAppend(crc: Word, x: seq<byte>, y: seq<byte>)
    ensures Accumulate(crc, x + y) == Accumulate(Accumulate(crc, x), y)
    decreases |x|
  {
    if x == [] {
      assert x + y == y;
    } else {
      assert (x + y)[1..] == x[1..] + y;
      AccumulateAppend(CrcAccumulate(x[0], crc), x[1..], y);
    }
  }

  lemma FastIsBitSerial(buf: seq<byte>, seed: byte)
    ensures CrcCalculate(buf, seed) == Feed(INIT, Bits(buf + [seed]))
  {
    AccumulateIsFeed(INIT, buf + [seed]);
    AccumulateAppend(INIT, buf, [seed]);
    AccumulateOne(Accumulate(INIT, buf), seed);
  }

  lemma AccumulateOne(crc: Word, b: byte)
    ensures Accumulate(crc, [b]) == CrcAccumulate(b, crc)
  {
    assert [b][1..] == [];
  }

  // ----- bursts -----

  /** Runs of at most sixteen bits that end in the same state started from states differing exactly as the bits do. */
  lemma EqualAfter(s: Word, u: seq<bool>, t: Word, v: seq<bool>)
    requires |u| == |v| <= 16
    requires Feed(s, u) == Feed(t, v)
    ensures Xor(s, u) == Xor(t, v)
  {
    FeedIsShifts(s, u);
    FeedIsShifts(t, v);
    ShiftsInjective(|u|, Xor(s, u), Xor(t, v));
  }

  lemma {:induction false} FeedInjective(s: Word, t: Word, bits: seq<bool>)
    requires Feed(s, bits) == Feed(t, bits)
    ensures s == t
    decreases |bits|
  {
    if bits == [] {
    } else {
      FeedInjective(BitStep(s, bits[0]), BitStep(t, bits[0]), bits[1..]);
      ShiftInjective(Xor(s, [bits[0]]), Xor(t, [bits[0]]));
      forall i: nat | i < 16
        ensures s[i] == t[i]
      {
        assert Xor(s, [bits[0]])[i] == Xor(t, [bits[0]])[i];
      }
    }
  }

  /** The two bit strings agree everywhere except possibly in the sixteen positions from `at`. */
  ghost predicate DifferWithinBurst(u: seq<bool>, v: seq<bool>, at: nat) {
    && |u| == |v|
    && forall i :: 0 <= i < |u| && !(at <= i < at + 16) ==> u[i] == v[i]
  }

  lemma FeedMiddle(s: Word, before: seq<bool>, u: seq<bool>, v: seq<bool>, after: seq<bool>)
    requires |u| == |v| <= 16
    requires Feed(s, before + (u + after)) == Feed(s, before + (v + after))
    ensures u == v
  {
    var t := Feed(s, before);
    FeedAppend(s, before, u + after);
    FeedAppend(s, before, v + after);
    FeedAppend(t, u, after);
    FeedAppend(t, v, after);
    FeedInjective(Feed(t, u), Feed(t, v), after);
    SameBurst(t, u, v);
  }

  lemma SameBurst(t: Word, u: seq<bool>, v: seq<bool>)
    requires |u| == |v| <= 16 && Feed(t, u) == Feed(t, v)
    ensures u == v
  {
    EqualAfter(t, u, t, v);
    forall i: nat | i < |u|
      ensures u[i] == v[i]
    {
      assert Xor(t, u)[i] == Xor(t, v)[i];
    }
  }

  /** Bit strings that differ only within a burst reach different states, whatever follows. */
  lemma FeedBurst(s: Word, x: seq<bool>, y: seq<bool>, at: nat)
    requires DifferWithinBurst(x, y, at) && Feed(s, x) == Feed(s, y)
    ensures x == y
  {
    var lo := if at < |x| then at else |x|;
    var hi := if at + 16 < |x| then at + 16 else |x|;
    assert x == x[..lo] + (x[lo..hi] + x[hi..]);
    assert y == x[..lo] + (y[lo..hi] + x[hi..]);
    FeedMiddle(s, x[..lo], x[lo..hi], y[lo..hi], x[hi..]);
  }

  /** Every error burst of at most sixteen consecutive bits changes the CRC. */
  lemma BurstDetected(x: seq<byte>, y: seq<byte>, seed: byte, at: nat)
    requires |x| == |y| && x != y
    requires DifferWithinBurst(Bits(x), Bits(y), at)
    ensures CrcCalculate(x, seed) != CrcCalculate(y, seed)
  {
    if CrcCalculate(x, seed) == CrcCalculate(y, seed) {
      AccumulateIsFeed(INIT, x);
      AccumulateIsFeed(INIT, y);
      ByteStep(seed, Accumulate(INIT, x));
      ByteStep(seed, Accumulate(INIT, y));
      FeedInjective(Accumulate(INIT, x), Accumulate(INIT, y), ByteBits(seed));
      FeedBurst(INIT, Bits(x), Bits(y), at);
      BitsInjective(x, y);
    }
  }

  /** The byte-aligned case: any change confined to two adjacent bytes is detected. */
  lemma AdjacentBytesDetected(x: seq<byte>, y: seq<byte>, seed: byte, i: nat)
    requires |x| == |y| && x != y
    requires forall k :: 0 <= k < |x| && k != i && k != i + 1 ==> x[k] == y[k]
    ensures CrcCalculate(x, seed) != CrcCalculate(y, seed)
  {
    forall b | 0 <= b < |Bits(x)| && !(8 * i <= b < 8 * i + 16)
      ensures Bits(x)[b] == Bits(y)[b]
    {
      BitAt(x, b);
      BitAt(y, b);
    }
    BurstDetected(x, y, seed, 8 * i);
  }

  // ----- parity -----

  lemma {:induction false} OddDiffers(x: seq<bool>, y: seq<bool>, z: seq<bool>)
    requires |x| == |y| == |z|
    requires forall i :: 0 <= i < |x| ==> z[i] == (x[i] != y[i])
    ensures Odd(z) == (Odd(x) != Odd(y))
  {
    if x == [] {
    } else {
      assert z[0] == (x[0] != y[0]);
      OddDiffers(x[1..], y[1..], z[1..]);
    }
  }

  lemma ShiftParity(x: Word)
    ensures Odd(Shift(x)) == Odd(x)
  {
    var r := ShiftRight(x, 1);
    forall i: nat | i < 16
      ensures r[i] == (x[1..] + [false])[i]
    {
      assert r[i] == At(x, i + 1);
    }
    assert r == x[1..] + [false];
    OddAppend(x[1..], [false]);
    if x[0] {
      OddDiffers(r, POLY, Shift(x));
      PolyIsOdd();
    }
  }

  lemma PolyIsOdd()
    ensures Odd(POLY)
  {
    assert POLY == POLY[..4] + POLY[4..8] + POLY[8..12] + POLY[12..];
    OddAppend(POLY[..4] + POLY[4..8] + POLY[8..12], POLY[12..]);
    OddAppend(POLY[..4] + POLY[4..8], POLY[8..12]);
    OddAppend(POLY[..4], POLY[4..8]);
    OddFour(POLY[..4]);
    OddFour(POLY[4..8]);
    OddFour(POLY[8..12]);
    OddFour(POLY[12..]);
  }

  lemma OddFour(u: seq<bool>)
    requires |u| == 4
    ensures Odd(u) == ((u[0] != u[1]) != (u[2] != u[3]))
  {
    assert u[1..][1..] == u[2..] && u[2..][1..] == u[3..] && u[3..][1..] == [];
    assert Odd(u[3..]) == u[3];
    assert Odd(u[2..]) == (u[2] != u[3]);
  }

  lemma {:induction false} FeedParity(crc: Word, bits: seq<bool>)
    ensures Odd(Feed(crc, bits)) == (Odd(crc) != Odd(bits))
    decreases |bits|
  {
    if bits == [] {
    } else {
      var x := Xor(crc, [bits[0]]);
      assert x == [crc[0] != bits[0]] + crc[1..];
      ShiftParity(x);
      FeedParity(BitStep(crc, bits[0]), bits[1..]);
    }
  }

  /** The CRC carries the parity of everything fed into it. */
  lemma CrcParity(buf: seq<byte>, seed: byte)
    ensures Odd(CrcCalculate(buf, seed)) == (Odd(Bits(buf)) != Odd(ByteBits(seed)))
  {
    AccumulateIsFeed(INIT, buf);
    ByteStep(seed, Accumulate(INIT, buf));
    FeedParity(INIT, Bits(buf));
    FeedParity(Accumulate(INIT, buf), ByteBits(seed));
    InitIsEven();
  }

  lemma InitIsEven()
    ensures !Odd(INIT)
  {
    assert INIT == INIT[..8] + INIT[..8];
    OddAppend(INIT[..8], INIT[..8]);
  }

  // ----- residue -----

  /** The word whose little-endian bytes are `lo` and `hi`. */
  function FromBytes(lo: byte, hi: byte): Word {
    ByteBits(lo) + ByteBits(hi)
  }

  /** A register that holds exactly the bits still to come is shifted out to zero. */
  lemma {:induction false} ShiftedOut(k: nat, x: Word)
    requires k <= 16 && forall i :: k <= i < 16 ==> !x[i]
    ensures Feed(x, x[..k]) == ZERO
    decreases k
  {
    if k == 0 {
      assert x == ZERO;
    } else {
      var y := ShiftRight(x, 1);
      assert BitStep(x, x[0]) == y by {
        var z := Xor(x, [x[0]]);
        assert !z[0];
        forall i: nat | i < 16
          ensures ShiftRight(z, 1)[i] == y[i]
        {
          assert y[i] == At(x, i + 1) && ShiftRight(z, 1)[i] == At(z, i + 1);
        }
        assert ShiftRight(z, 1) == y;
      }
      assert x[..k][1..] == y[..k - 1];
      ShiftedOut(k - 1, y);
    }
  }

  /** Running the CRC on through the two checksum bytes gives 0 exactly for the right checksum. */
  lemma Residue(crc: Word, lo: byte, hi: byte)
    ensures Accumulate(crc, [lo, hi]) == ZERO <==> crc == FromBytes(lo, hi)
  {
    var x := FromBytes(lo, hi);
    AccumulateIsFeed(crc, [lo, hi]);
    assert Bits([lo, hi]) == ByteBits(lo) + Bits([hi]) && Bits([hi]) == ByteBits(hi) + [];
    assert Bits([lo, hi]) == x && x[..16] == x;
    ShiftedOut(16, x);
    if Feed(crc, x) == ZERO {
      FeedInjective(crc, x, x);
    }
  }

  /** The register starts with all ones: of all two-byte buffers only FF FF takes it to zero. */
  lemma StartsAtOnes(lo: byte, hi: byte)
    ensures Accumulate(INIT, [lo, hi]) == ZERO <==> lo == 255 && hi == 255
  {
    Residue(INIT, lo, hi);
    AllOnes();
    if FromBytes(lo, hi) == INIT {
      var ones := FromBytes(255, 255);
      assert ByteBits(lo) == ones[..8] == ByteBits(255) && ByteBits(hi) == ones[8..] == ByteBits(255);
      ByteFromBits(lo);
      ByteFromBits(hi);
      ByteFromBits(255);
    }
  }

  lemma AllOnes()
    ensures FromBytes(255, 255) == INIT
  {}

  // ----- the register is linear -----

  /** Bit by bit, `z` is the exclusive or of `x` and `y`. */
  ghost predicate Sums(x: Word, y: Word, z: Word) {
    forall i: nat :: i < 16 ==> z[i] == (x[i] != y[i])
  }

  lemma ShiftLinear(x: Word, y: Word, z: Word)
    requires Sums(x, y, z)
    ensures Sums(Shift(x), Shift(y), Shift(z))
  {
    forall i: nat | i < 16
      ensures Shift(z)[i] == (Shift(x)[i] != Shift(y)[i])
    {
      ShiftAt(z, i);
      ShiftAt(x, i);
      ShiftAt(y, i);
      assert At(z, i + 1) == (At(x, i + 1) != At(y, i + 1));
    }
  }

  lemma {:induction false} ShiftsAdd(j: nat, k: nat, x: Word)
    ensures Shifts(j + k, x) == Shifts(k, Shifts(j, x))
    decreases j
  {
    if j == 0 {
    } else {
      var y := Shift(x);
      ShiftsAdd(j - 1, k, y);
      assert Shifts(j + k, x) == Shifts(j - 1 + k, y) && Shifts(j, x) == Shifts(j - 1, y);
    }
  }

  predicate OneByte(x: Word) {
    forall i :: 8 <= i < 16 ==> !x[i]
  }

  /** Eight shifts of a byte, bit by bit. */
  lemma StepOfByte(e: Word, f: Word)
    requires OneByte(e) && forall i: nat :: i < 16 ==> f[i] == StepAt(e, i)
    ensures f[0] == (e[4] != e[0]) && f[1] == (e[5] != e[1]) && f[2] == (e[6] != e[2]) && f[3] == ((e[7] != e[3]) != e[0])
    ensures f[4] == e[1] && f[5] == e[2] && f[6] == e[3] && f[7] == (e[4] != e[0])
    ensures f[8] == ((e[5] != e[1]) != e[0]) && f[9] == ((e[6] != e[2]) != e[1]) && f[10] == ((e[7] != e[3]) != e[2]) && f[11] == e[3]
    ensures f[12] == (e[4] != e[0]) && f[13] == (e[5] != e[1]) && f[14] == (e[6] != e[2]) && f[15] == (e[7] != e[3])
  {
    assert f[0] == StepAt(e, 0) && f[1] == StepAt(e, 1) && f[2] == StepAt(e, 2) && f[3] == StepAt(e, 3);
    assert f[4] == StepAt(e, 4) && f[5] == StepAt(e, 5) && f[6] == StepAt(e, 6) && f[7] == StepAt(e, 7);
    assert f[8] == StepAt(e, 8) && f[9] == StepAt(e, 9) && f[10] == StepAt(e, 10) && f[11] == StepAt(e, 11);
    assert f[12] == StepAt(e, 12) && f[13] == StepAt(e, 13) && f[14] == StepAt(e, 14) && f[15] == StepAt(e, 15);
  }
}
