/** What the frame format is for: round trips, unique splitting and error detection. */
module FrameLaws {
  import opened Bytes
  import opened Crc
  import opened Frames

  // ----- round trip -----

  /** The frame a receiver should see for what the builder was given. */
  function Sent(sequence: byte, systemID: byte, msgID: nat, payload: seq<byte>): Frame {
    var covered := Covered(sequence, systemID, msgID, payload);
    var sum := ChecksumBytes(covered, msgID);
    Frame(|payload| % 256, 0, 0, sequence, systemID, 1, msgID, payload, Checksum(sum))
  }

  /** The parser accepts the builder's checksum: the builder has the seed, the parser lacks it, or the CRC happens to be 0. */
  predicate ChecksumAgrees(sequence: byte, systemID: byte, msgID: nat, payload: seq<byte>) {
    || msgID in SIM_SEEDS
    || msgID !in SEEDS
    || CrcCalculate(Covered(sequence, systemID, msgID, payload), SEEDS[msgID]) == ZERO
  }

  /** Parsing a built frame, followed by anything, gives back every field and consumes exactly the frame. */
  lemma RoundTrip(sequence: byte, systemID: byte, msgID: nat, payload: seq<byte>, tail: seq<byte>)
    ensures ParseFrame(FrameBytes(sequence, systemID, msgID, payload) + tail, true)
         == Ok((Sent(sequence, systemID, msgID, payload), |payload| + 12))
      <==> |payload| <= 255 && msgID < 0x100_0000 && ChecksumAgrees(sequence, systemID, msgID, payload)
  {
    if |payload| <= 255 {
      ShortRoundTrip(sequence, systemID, msgID, payload, tail);
    } else {
      LongRefused(sequence, systemID, msgID, payload, tail);
    }
  }

  /** A frame claims at most 255 payload bytes. */
  lemma LongRefused(sequence: byte, systemID: byte, msgID: nat, payload: seq<byte>, tail: seq<byte>)
    requires |payload| > 255
    ensures ParseFrame(FrameBytes(sequence, systemID, msgID, payload) + tail, true)
         != Ok((Sent(sequence, systemID, msgID, payload), |payload| + 12))
  {
    FramePayload(FrameBytes(sequence, systemID, msgID, payload) + tail, true);
  }

  lemma FramePayload(data: seq<byte>, validateCRC: bool)
    ensures ParseFrame(data, validateCRC).Ok? ==> |ParseFrame(data, validateCRC).value.0.payload| <= 255
  {}

  lemma ShortRoundTrip(sequence: byte, systemID: byte, msgID: nat, payload: seq<byte>, tail: seq<byte>)
    requires |payload| <= 255
    ensures ParseFrame(FrameBytes(sequence, systemID, msgID, payload) + tail, true)
         == Ok((Sent(sequence, systemID, msgID, payload), |payload| + 12))
      <==> msgID < 0x100_0000 && ChecksumAgrees(sequence, systemID, msgID, payload)
  {
    var h := Header(sequence, systemID, msgID, |payload|);
    var sum := ChecksumBytes(h + payload, msgID);
    var data := FrameBytes(sequence, systemID, msgID, payload) + tail;
    assert data == [MAGIC_V2] + h + (payload + sum + tail);
    FieldsIn(data, h, sequence, systemID, msgID, payload, sum, tail);
    if msgID in SEEDS {
      SumAgrees(h + payload, msgID, sum);
    }
    Verdict(data);
  }

  lemma FieldsIn(data: seq<byte>, h: seq<byte>, sequence: byte, systemID: byte, msgID: nat, payload: seq<byte>,
                 sum: seq<byte>, tail: seq<byte>)
    requires |payload| <= 255 && |sum| == 2 && h == Header(sequence, systemID, msgID, |payload|)
    requires data == [MAGIC_V2] + h + (payload + sum + tail)
    ensures Complete(data) && FrameSize(data) == |payload| + 12 && data[1..PayloadEnd(data)] == h + payload && SumBytes(data) == sum
    ensures MessageID(data) == msgID % 0x100_0000 && (msgID < 0x100_0000 <==> MessageID(data) == msgID)
    ensures FrameIn(data) == Frame(|payload| % 256, 0, 0, sequence, systemID, 1, msgID % 0x100_0000, payload, Checksum(sum))
  {
    HeaderAt(data, h, payload + sum + tail);
    HeaderID(h, sequence, systemID, msgID, |payload|);
    Layout(data, h, payload, sum, tail);
  }

  /** A complete frame is accepted unless its ID is known and its checksum wrong. */
  lemma Verdict(data: seq<byte>)
    requires Complete(data)
    ensures ParseFrame(data, true)
      == if MessageID(data) in SEEDS && !ChecksumValid(data) then Err(ChecksumMismatch) else Ok((FrameIn(data), FrameSize(data)))
  {}

  lemma HeaderID(h: seq<byte>, sequence: byte, systemID: byte, msgID: nat, n: nat)
    requires h == Header(sequence, systemID, msgID, n)
    ensures U24(h, 6) == msgID % 0x100_0000
    ensures msgID < 0x100_0000 <==> msgID % 0x100_0000 == msgID
  {
    LittleEndian24(msgID);
  }

  lemma HeaderAt(data: seq<byte>, h: seq<byte>, rest: seq<byte>)
    requires |h| == 9 && |rest| >= 2 && data == [MAGIC_V2] + h + rest
    ensures data[1] == h[0] && data[2] == h[1] && data[3] == h[2] && data[4] == h[3] && data[5] == h[4] && data[6] == h[5]
    ensures MessageID(data) == U24(h, 6)
  {}

  lemma Layout(data: seq<byte>, h: seq<byte>, payload: seq<byte>, sum: seq<byte>, tail: seq<byte>)
    requires |h| == 9 && |sum| == 2 && data == [MAGIC_V2] + h + (payload + sum + tail)
    requires h[0] == |payload| && h[1] == 0
    ensures Complete(data) && PayloadEnd(data) == |payload| + 10 && FrameSize(data) == |payload| + 12
    ensures data[1..PayloadEnd(data)] == h + payload && data[10..PayloadEnd(data)] == payload
    ensures SumBytes(data) == sum
  {
    assert data[1] == h[0] && data[2] == h[1];
    assert data == [MAGIC_V2] + (h + payload) + (sum + tail);
    assert data[|payload| + 10..] == sum + tail;
    assert SumBytes(data) == data[|payload| + 10..][..2];
  }

  lemma SumAgrees(covered: seq<byte>, msgID: nat, sum: seq<byte>)
    requires sum == ChecksumBytes(covered, msgID) && msgID in SEEDS
    ensures CrcCalculate(covered, SEEDS[msgID]) == Checksum(sum)
      <==> msgID in SIM_SEEDS || CrcCalculate(covered, SEEDS[msgID]) == ZERO
  {
    ZeroWord();
  }

  lemma LittleEndian24(x: nat)
    ensures x % 256 + 0x100 * (x / 0x100 % 256) + 0x1_0000 * (x / 0x1_0000 % 256) == x % 0x100_0000
  {
    assert x / 0x1_0000 == x / 0x100 / 0x100;
  }

  lemma ZeroWord()
    ensures FromBytes(0, 0) == ZERO
  {
    var b := ByteBits(0);
    assert b == [false, false, false, false, false, false, false, false] by {
      assert LowBits(0, 4) == [false, false, false, false];
    }
  }

  /**
    Re-building an accepted frame gives back its bytes if and only if it is unsigned and flag-free, of component 1,
    and carries the checksum the builder writes.
   */
  lemma Rebuild(data: seq<byte>, f: Frame, n: nat)
    requires ParseFrame(data, true) == Ok((f, n))
    ensures FrameBytes(f.sequence, f.systemID, f.messageID, f.payload) == data[..n]
      <==> f.incompatFlags == 0 && f.compatFlags == 0 && f.componentID == 1 && (f.messageID in SIM_SEEDS || f.checksum == ZERO)
  {
    var built := FrameBytes(f.sequence, f.systemID, f.messageID, f.payload);
    if built == data[..n] {
      BuiltShape(f.sequence, f.systemID, f.messageID, f.payload);
      assert data[2] == data[..n][2] && data[3] == data[..n][3] && data[6] == data[..n][6];
      if f.messageID !in SIM_SEEDS {
        assert SumBytes(data) == data[..n][|f.payload| + 10..];
        ZeroWord();
      }
    } else if f.incompatFlags == 0 && f.compatFlags == 0 && f.componentID == 1 {
      HeaderFrom(data, |f.payload|);
      Reassemble(data);
      if f.messageID in SIM_SEEDS {
        SumRebuilt(data);
      } else if f.checksum == ZERO {
        ZeroWord();
        SameSum(SumBytes(data), [0, 0]);
      }
    }
  }

  lemma BuiltShape(sequence: byte, systemID: byte, msgID: nat, payload: seq<byte>)
    ensures var built := FrameBytes(sequence, systemID, msgID, payload);
      && |built| == |payload| + 12 && built[2] == 0 && built[3] == 0 && built[6] == 1
      && (msgID !in SIM_SEEDS ==> built[|payload| + 10..] == [0, 0])
  {}

  lemma Reassemble(data: seq<byte>)
    requires Complete(data) && data[2] == 0
    ensures data[1..10] + data[10..PayloadEnd(data)] == data[1..PayloadEnd(data)]
    ensures data[..FrameSize(data)] == [MAGIC_V2] + data[1..PayloadEnd(data)] + SumBytes(data)
  {}

  lemma SumRebuilt(data: seq<byte>)
    requires Complete(data) && MessageID(data) in SIM_SEEDS && ChecksumValid(data)
    ensures ChecksumBytes(data[1..PayloadEnd(data)], MessageID(data)) == SumBytes(data)
  {
    SameSum(ChecksumBytes(data[1..PayloadEnd(data)], MessageID(data)), SumBytes(data));
  }

  lemma HeaderFrom(data: seq<byte>, n: nat)
    requires |data| >= MIN_FRAME && data[1] == n && data[2] == 0 && data[3] == 0 && data[6] == 1
    ensures Header(data[4], data[5], MessageID(data), n) == data[1..10]
  {
    Bytes24(data[7], data[8], data[9]);
  }

  lemma SameSum(x: seq<byte>, y: seq<byte>)
    requires |x| == |y| == 2 && Checksum(x) == Checksum(y)
    ensures x == y
  {
    FromBytesInjective(x[0], x[1], y[0], y[1]);
  }

  lemma Bytes24(b0: byte, b1: byte, b2: byte)
    ensures var x: nat := b0 + (0x100 * b1 as int) + (0x1_0000 * b2 as int);
      x % 256 == b0 && x / 0x100 % 256 == b1 && x / 0x1_0000 % 256 == b2
  {}

  lemma FromBytesInjective(a: byte, b: byte, c: byte, d: byte)
    requires FromBytes(a, b) == FromBytes(c, d)
    ensures a == c && b == d
  {
    assert FromBytes(a, b)[..8] == ByteBits(a) && FromBytes(c, d)[..8] == ByteBits(c);
    assert FromBytes(a, b)[8..] == ByteBits(b) && FromBytes(c, d)[8..] == ByteBits(d);
    ByteFromBits(a);
    ByteFromBits(b);
    ByteFromBits(c);
    ByteFromBits(d);
  }

  /** Where the parser has a seed and the builders have none, a frame of the wrong parity is always refused. */
  lemma UnseededRefused(sequence: byte, systemID: byte, msgID: nat, payload: seq<byte>)
    requires |payload| <= 255 && msgID in SEEDS && msgID !in SIM_SEEDS && msgID < 0x100_0000
    requires Odd(Bits(Covered(sequence, systemID, msgID, payload))) != Odd(ByteBits(SEEDS[msgID]))
    ensures ParseFrame(FrameBytes(sequence, systemID, msgID, payload), true) == Err(ChecksumMismatch)
  {
    OddIsNotZero(Covered(sequence, systemID, msgID, payload), SEEDS[msgID]);
    BareFrame(sequence, systemID, msgID, payload);
    var h := Header(sequence, systemID, msgID, |payload|);
    UnseededBytes(sequence, systemID, msgID, payload, h, FrameBytes(sequence, systemID, msgID, payload));
  }

  lemma UnseededBytes(sequence: byte, systemID: byte, msgID: nat, payload: seq<byte>, h: seq<byte>, data: seq<byte>)
    requires |payload| <= 255 && msgID in SEEDS && msgID < 0x100_0000
    requires h == Header(sequence, systemID, msgID, |payload|) && data == [MAGIC_V2] + (h + payload) + [0, 0]
    requires CrcCalculate(h + payload, SEEDS[msgID]) != Checksum([0, 0])
    ensures ParseFrame(data, true) == Err(ChecksumMismatch)
  {
    HeaderID(h, sequence, systemID, msgID, |payload|);
    BareChecksum(h, payload, msgID, data);
  }

  lemma BareFrame(sequence: byte, systemID: byte, msgID: nat, payload: seq<byte>)
    requires msgID !in SIM_SEEDS
    ensures FrameBytes(sequence, systemID, msgID, payload) == [MAGIC_V2] + Covered(sequence, systemID, msgID, payload) + [0, 0]
  {}

  lemma BareChecksum(h: seq<byte>, payload: seq<byte>, msgID: nat, data: seq<byte>)
    requires |h| == 9 && h[0] == |payload| && h[1] == 0 && U24(h, 6) == msgID && msgID in SEEDS
    requires CrcCalculate(h + payload, SEEDS[msgID]) != Checksum([0, 0])
    requires data == [MAGIC_V2] + (h + payload) + [0, 0]
    ensures ParseFrame(data, true) == Err(ChecksumMismatch)
  {
    assert data == [MAGIC_V2] + h + (payload + [0, 0]) && data == [MAGIC_V2] + h + (payload + [0, 0] + []);
    HeaderAt(data, h, payload + [0, 0]);
    Layout(data, h, payload, [0, 0], []);
  }

  lemma OddIsNotZero(covered: seq<byte>, seed: byte)
    requires Odd(Bits(covered)) != Odd(ByteBits(seed))
    ensures CrcCalculate(covered, seed) != Checksum([0, 0])
  {
    CrcParity(covered, seed);
    ZeroWord();
    assert ZERO == ZERO[..8] + ZERO[..8];
    OddAppend(ZERO[..8], ZERO[..8]);
  }

  /** Such frames exist: message 245 without a payload, whenever sequence number and system ID are the same. */
  lemma MissingSeedRefused(b: byte)
    ensures ParseFrame(FrameBytes(b, b, 245, []), true) == Err(ChecksumMismatch)
  {
    CoveredBytes(b);
    ParityOf(Covered(b, b, 245, []), b, SEEDS[245]);
    UnseededRefused(b, b, 245, []);
  }

  lemma CoveredBytes(b: byte)
    ensures Covered(b, b, 245, []) == [0, 0, 0, b, b, 1, 245, 0, 0]
  {}

  lemma ParityOf(covered: seq<byte>, b: byte, seed: byte)
    requires covered == [0, 0, 0, b, b, 1, 245, 0, 0] && seed == 130
    ensures Odd(Bits(covered)) != Odd(ByteBits(seed))
  {
    Parity245();
    Parity130();
    OddNine(0, b, 1, 245);
  }

  lemma Parity245()
    ensures !Odd(ByteBits(0)) && Odd(ByteBits(1)) && !Odd(ByteBits(245))
  {}

  lemma Parity130()
    ensures !Odd(ByteBits(130))
  {}

  lemma OddNine(z: byte, b: byte, o: byte, x: byte)
    requires !Odd(ByteBits(z)) && Odd(ByteBits(o)) && !Odd(ByteBits(x))
    ensures Odd(Bits([z, z, z, b, b, o, x, z, z]))
  {
    OddFirst([z, z, z, b, b, o, x, z, z]);
    OddFirst([z, z, b, b, o, x, z, z]);
    OddFirst([z, b, b, o, x, z, z]);
    OddFirst([b, b, o, x, z, z]);
    OddFirst([b, o, x, z, z]);
    OddFirst([o, x, z, z]);
    OddFirst([x, z, z]);
    OddFirst([z, z]);
    OddFirst([z]);
  }

  lemma OddFirst(x: seq<byte>)
    requires x != []
    ensures Odd(Bits(x)) == (Odd(ByteBits(x[0])) != Odd(Bits(x[1..])))
  {
    OddAppend(ByteBits(x[0]), Bits(x[1..]));
  }

  // ----- prefix-freeness -----

  /** Acceptance depends on the frame's own bytes only, and every strict prefix of them is too short. */
  lemma PrefixTooShort(data: seq<byte>, validateCRC: bool, f: Frame, n: nat, k: nat)
    requires ParseFrame(data, validateCRC) == Ok((f, n)) && k <= |data|
    ensures ParseFrame(data[..k], validateCRC) == if k < n then Err(FrameTooShort) else Ok((f, n))
  {
    if k >= n {
      FrontDecides(data, data[..k]);
    }
  }

  /** Everything the parser looks at lies in the frame. */
  lemma FrontDecides(data: seq<byte>, p: seq<byte>)
    requires Complete(data) && p <= data && |p| >= FrameSize(data)
    ensures Complete(p) && FrameSize(p) == FrameSize(data) && MessageID(p) == MessageID(data)
    ensures PayloadEnd(p) == PayloadEnd(data) && p[1..PayloadEnd(p)] == data[1..PayloadEnd(p)]
    ensures SumBytes(p) == SumBytes(data) && FrameIn(p) == FrameIn(data)
  {
    assert p[1] == data[1] && p[2] == data[2] && p[7] == data[7] && p[8] == data[8] && p[9] == data[9];
    var end := PayloadEnd(data);
    assert p[1..end] == data[1..end] && p[10..end] == data[10..end] && p[end..end + 2] == data[end..end + 2];
  }

  ghost predicate WholeFrame(x: seq<byte>, validateCRC: bool) {
    exists f :: ParseFrame(x, validateCRC) == Ok((f, |x|))
  }

  function Concat(xs: seq<seq<byte>>): seq<byte> {
    if xs == [] then [] else xs[0] + Concat(xs[1..])
  }

  /** A stream of concatenated frames splits in exactly one way. */
  lemma {:induction false} UniqueSplit(xs: seq<seq<byte>>, ys: seq<seq<byte>>, validateCRC: bool)
    requires forall x :: x in xs ==> WholeFrame(x, validateCRC)
    requires forall y :: y in ys ==> WholeFrame(y, validateCRC)
    requires Concat(xs) == Concat(ys)
    ensures xs == ys
  {
    if xs == [] || ys == [] {
      if xs != [] { NotEmpty(xs[0], validateCRC); }
      if ys != [] { NotEmpty(ys[0], validateCRC); }
    } else {
      assert xs[0] in xs && ys[0] in ys;
      SameHead(xs[0], Concat(xs[1..]), ys[0], Concat(ys[1..]), validateCRC);
      assert Concat(xs)[|xs[0]|..] == Concat(xs[1..]) && Concat(ys)[|ys[0]|..] == Concat(ys[1..]);
      UniqueSplit(xs[1..], ys[1..], validateCRC);
      assert xs == [xs[0]] + xs[1..] && ys == [ys[0]] + ys[1..];
    }
  }

  lemma NotEmpty(x: seq<byte>, validateCRC: bool)
    requires WholeFrame(x, validateCRC)
    ensures x != []
  {}

  lemma SameHead(x: seq<byte>, u: seq<byte>, y: seq<byte>, v: seq<byte>, validateCRC: bool)
    requires WholeFrame(x, validateCRC) && WholeFrame(y, validateCRC) && x + u == y + v
    ensures x == y
  {
    var f :| ParseFrame(x, validateCRC) == Ok((f, |x|));
    var g :| ParseFrame(y, validateCRC) == Ok((g, |y|));
    assert x == (x + u)[..|x|] && y == (x + u)[..|y|];
    if |x| < |y| {
      assert y[..|x|] == x;
      PrefixTooShort(y, validateCRC, g, |y|, |x|);
    } else if |y| < |x| {
      assert x[..|y|] == y;
      PrefixTooShort(x, validateCRC, f, |x|, |y|);
    }
  }
}
