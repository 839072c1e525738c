/**
  Which corruptions the CRC misses: exactly the bit strings that take the zero register back to
  zero. Those of at most 24 bits are the multiples of the polynomial by a byte.
 */
module Bursts {
  import opened Bytes
  import opened Crc

  /** The positions in which two bit strings differ. */
  function XorBits(x: seq<bool>, y: seq<bool>): (z: seq<bool>)
    requires |x| == |y|
    ensures |z| == |x|
  {
    seq(|x|, i requires 0 <= i < |x| => x[i] != y[i])
  }

  lemma XorAppend(x: seq<bool>, u: seq<bool>, y: seq<bool>, v: seq<bool>)
    requires |x| == |y| && |u| == |v|
    ensures XorBits(x + u, y + v) == XorBits(x, y) + XorBits(u, v)
  {}

  /** A difference that leaves the register as it would have been. */
  predicate Unseen(z: seq<bool>) {
    Feed(ZERO, z) == ZERO
  }

  function Zeros(n: nat): (z: seq<bool>)
    ensures |z| == n
  {
    seq(n, _ => false)
  }

  // ----- the register is linear -----

  lemma BitStepLinear(x: Word, y: Word, z: Word, a: bool, b: bool)
    requires Sums(x, y, z)
    ensures Sums(BitStep(x, a), BitStep(y, b), BitStep(z, a != b))
  {
    forall i: nat | i < 16
      ensures Xor(z, [a != b])[i] == (Xor(x, [a])[i] != Xor(y, [b])[i])
    {
      assert Xor(z, [a != b])[i] == (z[i] != At([a != b], i));
      assert Xor(x, [a])[i] == (x[i] != At([a], i)) && Xor(y, [b])[i] == (y[i] != At([b], i));
    }
    ShiftLinear(Xor(x, [a]), Xor(y, [b]), Xor(z, [a != b]));
  }

  lemma {:induction false} FeedLinear(s: Word, t: Word, r: Word, x: seq<bool>, y: seq<bool>)
    requires Sums(s, t, r) && |x| == |y|
    ensures Sums(Feed(s, x), Feed(t, y), Feed(r, XorBits(x, y)))
    decreases |x|
  {
    if x == [] {
    } else {
      BitStepLinear(s, t, r, x[0], y[0]);
      FeedLinear(BitStep(s, x[0]), BitStep(t, y[0]), BitStep(r, x[0] != y[0]), x[1..], y[1..]);
      assert XorBits(x, y)[1..] == XorBits(x[1..], y[1..]);
    }
  }

  /** Two inputs reach the same state if and only if their difference is unseen. */
  lemma SameIffUnseen(s: Word, x: seq<bool>, y: seq<bool>)
    requires |x| == |y|
    ensures Feed(s, x) == Feed(s, y) <==> Unseen(XorBits(x, y))
  {
    FeedLinear(s, s, ZERO, x, y);
    SumZero(Feed(s, x), Feed(s, y), Feed(ZERO, XorBits(x, y)));
  }

  lemma SumZero(x: Word, y: Word, z: Word)
    requires Sums(x, y, z)
    ensures x == y <==> z == ZERO
  {
    if x == y {
      assert forall i: nat :: i < 16 ==> !z[i];
      assert z == ZERO;
    }
    if z == ZERO {
      forall i: nat | i < 16
        ensures x[i] == y[i]
      {
        assert !z[i];
      }
    }
  }

  // ----- zeros around a difference do not matter -----

  lemma {:induction false} FeedZeros(n: nat)
    ensures Unseen(Zeros(n))
  {
    if n == 0 {
    } else {
      ShiftZero();
      assert Zeros(n)[1..] == Zeros(n - 1);
      FeedZeros(n - 1);
    }
  }

  lemma ShiftZero()
    ensures BitStep(ZERO, false) == ZERO
  {
    assert Xor(ZERO, [false]) == ZERO;
    assert ShiftRight(ZERO, 1) == ZERO;
  }

  lemma Strip(a: nat, w: seq<bool>, b: nat)
    ensures Unseen(Zeros(a) + w + Zeros(b)) <==> Unseen(w)
  {
    FeedAppend(ZERO, Zeros(a) + w, Zeros(b));
    FeedAppend(ZERO, Zeros(a), w);
    FeedZeros(a);
    FeedZeros(b);
    if Feed(Feed(ZERO, w), Zeros(b)) == ZERO {
      FeedInjective(Feed(ZERO, w), ZERO, Zeros(b));
    }
  }

  // ----- short differences -----

  /** Up to sixteen bits, every difference is seen. */
  lemma ShortSeen(w: seq<bool>)
    requires |w| <= 16
    ensures Unseen(w) <==> w == Zeros(|w|)
  {
    FeedZeros(|w|);
    if Unseen(w) {
      EqualAfter(ZERO, w, ZERO, Zeros(|w|));
      forall i: nat | i < |w|
        ensures !w[i]
      {
        assert Xor(ZERO, w)[i] == Xor(ZERO, Zeros(|w|))[i];
      }
    }
  }

  /** A 24-bit difference is unseen if and only if it is the multiple of the polynomial its first byte gives. */
  predicate Multiple(w: seq<bool>)
    requires |w| == 24
  {
    && w[8] == (w[4] != w[0]) && w[9] == (w[5] != w[1]) && w[10] == (w[6] != w[2]) && w[11] == ((w[7] != w[3]) != w[0])
    && w[12] == w[1] && w[13] == w[2] && w[14] == w[3] && w[15] == (w[4] != w[0])
    && w[16] == ((w[5] != w[1]) != w[0]) && w[17] == ((w[6] != w[2]) != w[1]) && w[18] == ((w[7] != w[3]) != w[2])
    && w[19] == w[3] && w[20] == (w[4] != w[0]) && w[21] == (w[5] != w[1]) && w[22] == (w[6] != w[2]) && w[23] == (w[7] != w[3])
  }

  lemma UnseenIsMultiple(w: seq<bool>)
    requires |w| == 24
    ensures Unseen(w) <==> Multiple(w)
  {
    var e, f := FirstByte(ZERO, w);
    MultipleIs(w, e, f);
  }

  lemma FirstByte(zero: Word, w: seq<bool>) returns (e: Word, f: Word)
    requires |w| == 24 && forall i :: 0 <= i < 16 ==> !zero[i]
    ensures OneByte(e) && forall i :: 0 <= i < 8 ==> e[i] == w[i]
    ensures forall i: nat :: i < 16 ==> f[i] == StepAt(e, i)
    ensures Feed(zero, w) == ZERO <==> w[8..] == f
  {
    e, f := FedByte(zero, w);
    ByteOnly(zero, w, e);
    ShiftedByte(e, f);
  }

  lemma FedByte(zero: Word, w: seq<bool>) returns (e: Word, f: Word)
    requires |w| == 24
    ensures e == Xor(zero, w[..8]) && f == Shifts(8, e)
    ensures Feed(zero, w) == ZERO <==> w[8..] == f
  {
    e := Xor(zero, w[..8]);
    f := Shifts(8, e);
    assert w == w[..8] + w[8..];
    FeedAppend(zero, w[..8], w[8..]);
    FeedIsShifts(zero, w[..8]);
    FillsZero(f, w[8..]);
  }

  lemma ByteOnly(zero: Word, w: seq<bool>, e: Word)
    requires |w| == 24 && e == Xor(zero, w[..8]) && forall i :: 0 <= i < 16 ==> !zero[i]
    ensures OneByte(e) && forall i :: 0 <= i < 8 ==> e[i] == w[i]
  {}

  lemma ShiftedByte(e: Word, f: Word)
    requires f == Shifts(8, e)
    ensures forall i: nat :: i < 16 ==> f[i] == StepAt(e, i)
  {
    forall i: nat | i < 16
      ensures f[i] == StepAt(e, i)
    {
      EightShifts(e, i);
    }
  }

  lemma MultipleIs(w: seq<bool>, e: Word, f: Word)
    requires |w| == 24 && OneByte(e) && forall i :: 0 <= i < 8 ==> e[i] == w[i]
    requires forall i: nat :: i < 16 ==> f[i] == StepAt(e, i)
    ensures w[8..] == f <==> Multiple(w)
  {
    StepOfByte(e, f);
    TailIs(w, f);
  }

  lemma TailIs(w: seq<bool>, f: Word)
    requires |w| == 24
    ensures w[8..] == f <==>
      && w[8] == f[0] && w[9] == f[1] && w[10] == f[2] && w[11] == f[3]
      && w[12] == f[4] && w[13] == f[5] && w[14] == f[6] && w[15] == f[7]
      && w[16] == f[8] && w[17] == f[9] && w[18] == f[10] && w[19] == f[11]
      && w[20] == f[12] && w[21] == f[13] && w[22] == f[14] && w[23] == f[15]
  {
    if w[8..] == f {
      assert forall i :: 0 <= i < 16 ==> w[8..][i] == w[i + 8];
    }
  }

  /** Sixteen bits clear the register if and only if they are what it holds. */
  lemma FillsZero(f: Word, v: seq<bool>)
    requires |v| == 16
    ensures Feed(f, v) == ZERO <==> v == f
  {
    ShiftedOut(16, f);
    assert f[..16] == f;
    if Feed(f, v) == ZERO {
      EqualAfter(f, v, f, f);
      forall i: nat | i < 16
        ensures v[i] == f[i]
      {
        assert Xor(f, v)[i] == Xor(f, f)[i];
      }
    }
  }

  // ----- differences with a byte of zeros inside -----

  /** The eight bits from position m are zeros: the seed, which no corruption touches, lies there. */
  predicate Gap(m: nat, w: seq<bool>) {
    1 <= m <= 15 && |w| == 24 && forall i :: m <= i < m + 8 ==> !w[i]
  }

  /** Bit i of the multiple of the polynomial that a first byte gives. */
  predicate TimesAt(c: seq<bool>, i: nat)
    requires |c| == 8
  {
    match i
    case 8 => c[4] != c[0]
    case 9 => c[5] != c[1]
    case 10 => c[6] != c[2]
    case 11 => (c[7] != c[3]) != c[0]
    case 12 => c[1]
    case 13 => c[2]
    case 14 => c[3]
    case 15 => c[4] != c[0]
    case 16 => (c[5] != c[1]) != c[0]
    case 17 => (c[6] != c[2]) != c[1]
    case 18 => (c[7] != c[3]) != c[2]
    case 19 => c[3]
    case 20 => c[4] != c[0]
    case 21 => c[5] != c[1]
    case 22 => c[6] != c[2]
    case 23 => c[7] != c[3]
    case _ => i < 8 && c[i]
  }

  function Times(c: seq<bool>): (w: seq<bool>)
    requires |c| == 8
    ensures |w| == 24
  {
    seq(24, i requires 0 <= i < 24 => TimesAt(c, i))
  }

  lemma MultipleIsTimes(w: seq<bool>, c: seq<bool>)
    requires |w| == 24 && |c| == 8
    ensures w == Times(c) <==> w[..8] == c && Multiple(w)
  {
    var t := Times(c);
    assert t[..8] == c;
    assert Multiple(t);
    if w[..8] == c && Multiple(w) {
      SameMultiple(w, t);
    }
  }

  lemma SameMultiple(w: seq<bool>, v: seq<bool>)
    requires |w| == |v| == 24 && Multiple(w) && Multiple(v) && w[..8] == v[..8]
    ensures w == v
  {
    var c, d := w[..8], v[..8];
    assert w[0] == c[0] && w[1] == c[1] && w[2] == c[2] && w[3] == c[3]
        && w[4] == c[4] && w[5] == c[5] && w[6] == c[6] && w[7] == c[7];
    assert v[0] == d[0] && v[1] == d[1] && v[2] == d[2] && v[3] == d[3]
        && v[4] == d[4] && v[5] == d[5] && v[6] == d[6] && v[7] == d[7];
  }

  /** Where the gap is and the first byte of the multiple, in the seven solutions. */
  const SOLUTIONS: seq<(nat, seq<bool>)> := [
    (8, [true, false, false, false, true, false, false, true]),
    (13, [true, false, false, false, true, true, false, false]),
    (12, [true, false, false, false, true, true, false, false]),
    (13, [true, true, false, false, true, false, true, false]),
    (6, [true, false, false, true, true, false, false, false]),
    (10, [true, false, false, false, true, true, false, true]),
    (5, [true, false, false, true, true, false, false, false])]

  /** Every multiple that starts with a one and has a byte of zeros inside is one of them. */
  lemma MultipleWithGap(m: nat, w: seq<bool>) returns (k: nat)
    requires Gap(m, w) && w[0] && Multiple(w)
    ensures k < |SOLUTIONS| && (m, w[..8]) == SOLUTIONS[k]
  {
    var q := w[..8];
    assert q == [w[0], w[1], w[2], w[3], w[4], w[5], w[6], w[7]];
    k := if m == 8 then 0 else if m == 13 && !w[1] then 1 else if m == 12 then 2 else if m == 13 then 3
         else if m == 6 then 4 else if m == 10 then 5 else 6;
  }

  // ----- the bursts that go unseen -----

  /** The changes of the last two covered bytes and of the two checksum bytes that cancel out. */
  const LOST_BURSTS: seq<seq<byte>> := [
    [0x00, 0x91, 0x85, 0x00],
    [0x88, 0x51, 0x01, 0x00],
    [0x10, 0xA3, 0x02, 0x00],
    [0x98, 0xF2, 0x03, 0x00],
    [0x00, 0x64, 0x35, 0x02],
    [0x40, 0xAC, 0x29, 0x00],
    [0x00, 0xC8, 0x6A, 0x04]]

  /** The difference is one of the lost bursts, at the very end. */
  predicate Lost(z: seq<bool>) {
    |z| >= 32 && exists k :: 0 <= k < |LOST_BURSTS| && z == Zeros(|z| - 32) + Bits(LOST_BURSTS[k])
  }

  lemma QuadBits(a: byte, b: byte, c: byte, d: byte)
    ensures Bits([a, b, c, d]) == ByteBits(a) + ByteBits(b) + ByteBits(c) + ByteBits(d)
  {
    PairBits(a, b);
    PairBits(c, d);
    BitsAppend([a, b], [c, d]);
    assert [a, b] + [c, d] == [a, b, c, d];
  }

  lemma PairBits(a: byte, b: byte)
    ensures Bits([a, b]) == ByteBits(a) + ByteBits(b)
  {
    assert [a, b][1..] == [b];
    assert Bits([b]) == ByteBits(b) + [];
  }

  /** What the 24 bits around the seed leave in the 32 last bits when the seed's byte is taken out. */
  function Around(m: nat, w: seq<bool>): (d: seq<bool>)
    requires 1 <= m <= 15 && |w| == 24
    ensures |d| == 32
  {
    Zeros(16 - m) + w[..m] + w[m + 8..] + Zeros(m)
  }

  lemma AroundInjective(m: nat, w: seq<bool>, n: nat, v: seq<bool>)
    requires Gap(m, w) && Gap(n, v) && w[0] && v[0]
    ensures Around(m, w) == Around(n, v) <==> m == n && w == v
  {
    if Around(m, w) == Around(n, v) {
      assert Around(m, w)[16 - m] && Around(n, v)[16 - n];
      forall i | 0 <= i < 24
        ensures w[i] == v[i]
      {
        if i < m {
          assert Around(m, w)[16 - m + i] == w[i] && Around(n, v)[16 - m + i] == v[i];
        } else if i >= m + 8 {
          assert Around(m, w)[8 - m + i] == w[i] && Around(n, v)[8 - m + i] == v[i];
        }
      }
    }
  }

  /** The byte at position i of a bit string, as a number. */
  function NumberAt(d: seq<bool>, i: nat): nat
    requires i + 8 <= |d|
  {
    (if d[i] then 1 else 0) + (if d[i + 1] then 2 else 0) + (if d[i + 2] then 4 else 0) + (if d[i + 3] then 8 else 0)
    + (if d[i + 4] then 16 else 0) + (if d[i + 5] then 32 else 0) + (if d[i + 6] then 64 else 0) + (if d[i + 7] then 128 else 0)
  }

  lemma ByteIs(b: byte, c: seq<bool>)
    requires |c| == 8 && b == NumberAt(c, 0)
    ensures ByteBits(b) == c
  {
    ValueOfByte(c);
    BitsOfValue(c);
  }

  lemma ValueOfByte(c: seq<bool>)
    requires |c| == 8
    ensures Value(c) == NumberAt(c, 0)
  {
    var d := c[4..];
    ValueOfNibble(c);
    ValueOfNibble(d);
    assert d[4..] == [];
    HighNibble(c, d);
  }

  lemma HighNibble(c: seq<bool>, d: seq<bool>)
    requires |c| == 8 && d == c[4..]
    ensures d[0] == c[4] && d[1] == c[5] && d[2] == c[6] && d[3] == c[7]
  {}

  lemma ValueOfNibble(c: seq<bool>)
    requires |c| >= 4
    ensures Value(c) == (if c[0] then 1 else 0) + (if c[1] then 2 else 0) + (if c[2] then 4 else 0) + (if c[3] then 8 else 0)
                      + 16 * Value(c[4..])
  {
    assert c[1..][1..] == c[2..] && c[2..][1..] == c[3..] && c[3..][1..] == c[4..];
    assert Value(c[3..]) == (if c[3] then 1 else 0) + 2 * Value(c[4..]);
    assert Value(c[2..]) == (if c[2] then 1 else 0) + 2 * Value(c[3..]);
    assert Value(c[1..]) == (if c[1] then 1 else 0) + 2 * Value(c[2..]);
  }

  /** The burst `q` is what the multiple `v` leaves around the seed. */
  ghost predicate Leaves(q: seq<byte>, n: nat, v: seq<bool>) {
    && |q| == 4 && Gap(n, v) && v[0]
    && var d := Around(n, v);
       q[0] == NumberAt(d, 0) && q[1] == NumberAt(d, 8) && q[2] == NumberAt(d, 16) && q[3] == NumberAt(d, 24)
  }

  lemma FromNumbers(q: seq<byte>, d: seq<bool>)
    requires |q| == 4 && |d| == 32
    requires q[0] == NumberAt(d, 0) && q[1] == NumberAt(d, 8) && q[2] == NumberAt(d, 16) && q[3] == NumberAt(d, 24)
    ensures Bits(q) == d
  {
    assert q == [q[0], q[1], q[2], q[3]];
    QuadBits(q[0], q[1], q[2], q[3]);
    SliceIs(q[0], d, 0);
    SliceIs(q[1], d, 8);
    SliceIs(q[2], d, 16);
    SliceIs(q[3], d, 24);
    assert d == d[0..8] + d[8..16] + d[16..24] + d[24..32];
  }

  lemma SliceIs(b: byte, d: seq<bool>, i: nat)
    requires i + 8 <= |d| && b == NumberAt(d, i)
    ensures ByteBits(b) == d[i..i + 8]
  {
    ByteIs(b, d[i..i + 8]);
  }

  lemma SolutionLeaves(k: nat, q: seq<byte>, n: nat, v: seq<bool>)
    requires |v| == 24 && Multiple(v) && k < |LOST_BURSTS| && q == LOST_BURSTS[k] && (n, v[..8]) == SOLUTIONS[k]
    ensures Leaves(q, n, v)
  {}

  /** Around the seed, an unseen difference is exactly a lost burst. */
  lemma LostAround(m: nat, w: seq<bool>)
    requires Gap(m, w) && w[0]
    ensures Multiple(w) <==> exists k :: 0 <= k < |LOST_BURSTS| && Around(m, w) == Bits(LOST_BURSTS[k])
  {
    if Multiple(w) {
      var k := MultipleWithGap(m, w);
      SolutionMatches(k, m, w, LOST_BURSTS[k], SOLUTIONS[k].0, SOLUTIONS[k].1);
    } else {
      forall k | 0 <= k < |LOST_BURSTS|
        ensures Around(m, w) != Bits(LOST_BURSTS[k])
      {
        SolutionMatches(k, m, w, LOST_BURSTS[k], SOLUTIONS[k].0, SOLUTIONS[k].1);
      }
    }
  }

  lemma SolutionMatches(k: nat, m: nat, w: seq<bool>, q: seq<byte>, n: nat, c: seq<bool>)
    requires Gap(m, w) && w[0] && k < |LOST_BURSTS| && q == LOST_BURSTS[k] && |c| == 8 && (n, c) == SOLUTIONS[k]
    ensures Around(m, w) == Bits(q) <==> m == n && w[..8] == c && Multiple(w)
  {
    var v := Times(c);
    MultipleIsTimes(v, c);
    SolutionLeaves(k, q, n, v);
    FromNumbers(q, Around(n, v));
    AroundInjective(m, w, n, v);
    MultipleIsTimes(w, c);
  }

  /** The first one of a difference that is not all zeros. */
  lemma {:induction false} FirstOne(z: seq<bool>) returns (first: nat)
    requires z != Zeros(|z|)
    ensures first < |z| && z[first] && forall i :: 0 <= i < first ==> !z[i]
  {
    if z[0] {
      first := 0;
    } else {
      assert z[1..] != Zeros(|z| - 1) by {
        assert z == [z[0]] + z[1..];
      }
      var rest := FirstOne(z[1..]);
      first := rest + 1;
    }
  }

  /** The ones of a bit string lie within sixteen consecutive positions. */
  ghost predicate Within(z: seq<bool>, at: nat) {
    forall i :: 0 <= i < |z| && z[i] ==> at <= i < at + 16
  }

  lemma NonZeroByte(b: byte)
    requires b != 0
    ensures ByteBits(b) != Zeros(8)
  {
    ByteIs(0, Zeros(8));
    ByteFromBits(0);
    ByteFromBits(b);
  }

  /** Every lost burst has ones on both sides of the seed. */
  lemma LostCrosses(zc: seq<bool>, zs: seq<bool>)
    requires |zc| >= 16 && |zs| == 16 && Lost(zc + zs)
    ensures zc != Zeros(|zc|) && zs != Zeros(16)
  {
    Inner(LOST_BURSTS);
    Crosses(zc, zs, LOST_BURSTS);
  }

  ghost predicate InnerSet(bursts: seq<seq<byte>>) {
    forall k :: 0 <= k < |bursts| ==> |bursts[k]| == 4 && bursts[k][1] != 0 && bursts[k][2] != 0
  }

  lemma Inner(bursts: seq<seq<byte>>)
    requires bursts == LOST_BURSTS
    ensures InnerSet(bursts)
  {}

  lemma Crosses(zc: seq<bool>, zs: seq<bool>, bursts: seq<seq<byte>>)
    requires |zc| >= 16 && |zs| == 16 && InnerSet(bursts)
    requires exists k :: 0 <= k < |bursts| && zc + zs == Zeros(|zc| - 16) + Bits(bursts[k])
    ensures zc != Zeros(|zc|) && zs != Zeros(16)
  {
    var k :| 0 <= k < |bursts| && zc + zs == Zeros(|zc| - 16) + Bits(bursts[k]);
    NonZeroByte(bursts[k][1]);
    NonZeroByte(bursts[k][2]);
    BothSides(zc, zs, bursts[k]);
  }

  lemma BothSides(zc: seq<bool>, zs: seq<bool>, q: seq<byte>)
    requires |zc| >= 16 && |zs| == 16 && |q| == 4 && zc + zs == Zeros(|zc| - 16) + Bits(q)
    ensures zc[|zc| - 8..] == ByteBits(q[1]) && zs[..8] == ByteBits(q[2])
  {
    QuadBits(q[0], q[1], q[2], q[3]);
    assert q == [q[0], q[1], q[2], q[3]];
    var z := zc + zs;
    var t := z[|zc| - 16..];
    assert t == Bits(q);
    assert t == zc[|zc| - 16..] + zs;
    assert zc[|zc| - 8..] == t[8..16];
    assert zs[..8] == t[16..24];
  }

  /** A burst that ends before the seed. */
  lemma BeforeSeed(zc: seq<bool>, zs: seq<bool>, first: nat)
    requires |zs| == 16 && first + 16 <= |zc| && zc[first]
    requires forall i :: 0 <= i < |zc| + 16 && !(first <= i < first + 16) ==> !(zc + zs)[i]
    ensures !Unseen(zc + Zeros(8) + zs) && zs == Zeros(16)
  {
    assert forall i :: 0 <= i < 16 ==> zs[i] == (zc + zs)[|zc| + i];
    assert forall i :: 0 <= i < |zc| ==> zc[i] == (zc + zs)[i];
    var u := zc[first..first + 16];
    var rest := |zc| - first - 16 + 24;
    assert zc + Zeros(8) + zs == Zeros(first) + u + Zeros(rest);
    Strip(first, u, rest);
    ShortSeen(u);
    assert u[0];
  }

  /** A burst in the checksum only. */
  lemma AfterSeed(zc: seq<bool>, zs: seq<bool>, first: nat)
    requires |zs| == 16 && |zc| <= first < |zc| + 16 && (zc + zs)[first]
    requires forall i :: 0 <= i < first ==> !(zc + zs)[i]
    ensures !Unseen(zc + Zeros(8) + zs) && zc == Zeros(|zc|)
  {
    assert forall i :: 0 <= i < |zc| ==> zc[i] == (zc + zs)[i];
    assert zc + Zeros(8) + zs == Zeros(|zc| + 8) + zs + Zeros(0);
    Strip(|zc| + 8, zs, 0);
    ShortSeen(zs);
    assert zs[first - |zc|];
  }

  /** A burst with the seed inside. */
  lemma AcrossSeed(zc: seq<bool>, zs: seq<bool>, first: nat)
    requires |zs| == 16 && 16 <= |zc| && |zc| - 16 < first < |zc| && zc[first]
    requires forall i :: 0 <= i < |zc| + 16 && !(first <= i < first + 16) ==> !(zc + zs)[i]
    ensures Unseen(zc + Zeros(8) + zs) <==> Lost(zc + zs)
  {
    var m := |zc| - first;
    var w := zc[first..] + Zeros(8) + zs[..16 - m];
    assert forall i :: 0 <= i < 16 ==> zs[i] == (zc + zs)[|zc| + i];
    assert forall i :: 0 <= i < |zc| ==> zc[i] == (zc + zs)[i];
    assert zc + Zeros(8) + zs == Zeros(first) + w + Zeros(m);
    Strip(first, w, m);
    UnseenIsMultiple(w);
    LostAround(m, w);
    TailIsAround(zc, zs, first, m, w);
    LostTail(zc + zs, Around(m, w));
  }

  lemma TailIsAround(zc: seq<bool>, zs: seq<bool>, first: nat, m: nat, w: seq<bool>)
    requires |zs| == 16 && 16 <= |zc| && |zc| - 16 < first < |zc| && m == |zc| - first
    requires w == zc[first..] + Zeros(8) + zs[..16 - m]
    requires forall i :: 0 <= i < first ==> !zc[i]
    requires forall i :: 16 - m <= i < 16 ==> !zs[i]
    ensures zc + zs == Zeros(|zc| - 16) + Around(m, w)
  {
    assert w[..m] == zc[first..] && w[m + 8..] == zs[..16 - m];
    assert zc == Zeros(|zc| - 16) + Zeros(16 - m) + w[..m];
    assert zs == w[m + 8..] + Zeros(m);
  }

  lemma LostTail(z: seq<bool>, d: seq<bool>)
    requires |z| >= 32 && |d| == 32 && z == Zeros(|z| - 32) + d
    ensures Lost(z) <==> exists k :: 0 <= k < |LOST_BURSTS| && d == Bits(LOST_BURSTS[k])
  {
    forall k | 0 <= k < |LOST_BURSTS|
      ensures z == Zeros(|z| - 32) + Bits(LOST_BURSTS[k]) <==> d == Bits(LOST_BURSTS[k])
    {
      assert z[|z| - 32..] == d;
      assert (Zeros(|z| - 32) + Bits(LOST_BURSTS[k]))[|z| - 32..] == Bits(LOST_BURSTS[k]);
    }
  }

  /** A burst of at most sixteen bits over covered bits and checksum is unseen if and only if it is a lost one. */
  lemma BurstUnseen(zc: seq<bool>, zs: seq<bool>, at: nat)
    requires |zc| >= 16 && |zs| == 16 && Within(zc + zs, at) && zc + zs != Zeros(|zc| + 16)
    ensures Unseen(zc + Zeros(8) + zs) <==> Lost(zc + zs)
  {
    var z := zc + zs;
    var first := FirstOne(z);
    assert forall i :: first + 16 <= i < |z| ==> !z[i];
    if Lost(z) {
      LostCrosses(zc, zs);
    }
    if first + 16 <= |zc| {
      BeforeSeed(zc, zs, first);
    } else if first >= |zc| {
      AfterSeed(zc, zs, first);
    } else {
      AcrossSeed(zc, zs, first);
    }
  }

  /** Every lost burst spans at most sixteen bits. */
  lemma BurstSpan(k: nat, q: seq<byte>, n: nat, c: seq<bool>)
    requires k < |LOST_BURSTS| && q == LOST_BURSTS[k] && |c| == 8 && (n, c) == SOLUTIONS[k]
    ensures n <= 15 && Within(Bits(q), 16 - n)
  {
    var v := Times(c);
    MultipleIsTimes(v, c);
    SolutionLeaves(k, q, n, v);
    FromNumbers(q, Around(n, v));
  }

  lemma WithinMoved(d: seq<bool>, n: nat, at: nat)
    requires Within(d, at)
    ensures Within(Zeros(n) + d, n + at)
  {}

  lemma NothingUnseen(zc: seq<bool>, zs: seq<bool>)
    requires zc + zs == Zeros(|zc| + 16) && |zs| == 16
    ensures Unseen(zc + Zeros(8) + zs)
  {
    assert forall i :: 0 <= i < |zc| ==> zc[i] == (zc + zs)[i];
    assert forall i :: 0 <= i < 16 ==> zs[i] == (zc + zs)[|zc| + i];
    assert zc + Zeros(8) + zs == Zeros(|zc| + 24);
    FeedZeros(|zc| + 24);
  }

  /** A change of sixteen bits, the seed, and a change of the checksum: the register takes 24 shifts from one to the other. */
  lemma ShiftedIntoSum(n: nat, e: Word, d: Word)
    ensures Unseen(Zeros(n) + e + Zeros(8) + d) <==> Shifts(24, e) == d
  {
    var u := e + Zeros(8) + d;
    assert Zeros(n) + e + Zeros(8) + d == Zeros(n) + u + Zeros(0);
    Strip(n, u, 0);
    Shifted(ZERO, e, d);
  }

  lemma Shifted(zero: Word, e: Word, d: Word)
    requires zero == ZERO
    ensures Feed(zero, e + Zeros(8) + d) == ZERO <==> Shifts(24, e) == d
  {
    FeedAppend(zero, e + Zeros(8), d);
    FeedAppend(zero, e, Zeros(8));
    SixteenIn(zero, e);
    ZerosIn(Shifts(16, e), Zeros(8));
    ShiftsAdd(16, 8, e);
    FillsZero(Shifts(24, e), d);
  }

  lemma SixteenIn(zero: Word, e: Word)
    requires zero == ZERO
    ensures Feed(zero, e) == Shifts(16, e)
  {
    FeedIsShifts(zero, e);
    assert Xor(zero, e) == e;
  }

  lemma ZerosIn(f: Word, z: seq<bool>)
    requires |z| <= 16 && forall i :: 0 <= i < |z| ==> !z[i]
    ensures Feed(f, z) == Shifts(|z|, f)
  {
    FeedIsShifts(f, z);
    assert Xor(f, z) == f;
  }
}
