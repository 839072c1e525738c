/** What the checksum of a frame detects, and exactly which bursts it does not. */
module ErrorDetection {
  import opened Bursts
  import opened Bytes
  import opened Crc
  import opened FrameLaws
  import opened Frames
  import opened Telemetry
  import D = Decoder

  /**
    Bytes are accepted as a frame exactly when they are complete and, if the message ID is known, running the CRC on over
    seed and checksum ends in 0.
   */
  lemma AcceptedIffResidueZero(data: seq<byte>)
    ensures ParseFrame(data, true).Ok? <==>
      && Complete(data)
      && (MessageID(data) in SEEDS ==>
            Feed(INIT, Bits(data[1..PayloadEnd(data)] + [SEEDS[MessageID(data)]] + SumBytes(data))) == ZERO)
  {
    if Complete(data) && MessageID(data) in SEEDS {
      ResidueOf(data[1..PayloadEnd(data)], SEEDS[MessageID(data)], SumBytes(data));
    }
  }

  lemma ResidueOf(covered: seq<byte>, seed: byte, sum: seq<byte>)
    requires |sum| == 2
    ensures Feed(INIT, Bits(covered + [seed] + sum)) == ZERO <==> CrcCalculate(covered, seed) == Checksum(sum)
  {
    AccumulateIsFeed(INIT, covered + [seed] + sum);
    AccumulateAppend(INIT, covered + [seed], sum);
    AccumulateAppend(INIT, covered, [seed]);
    AccumulateOne(Accumulate(INIT, covered), seed);
    assert sum == [sum[0], sum[1]];
    Residue(CrcCalculate(covered, seed), sum[0], sum[1]);
  }

  /** The two bytes that say where the checksum is are untouched: start byte and length. */
  predicate SameFraming(data: seq<byte>, bad: seq<byte>) {
    |data| == |bad| >= MIN_FRAME && data[0] == bad[0] && data[1] == bad[1]
  }

  /** Header, payload and checksum: what the checksum protects, and the checksum itself. */
  function Protected(data: seq<byte>): seq<byte>
    requires |data| >= MIN_FRAME && |data| >= PayloadEnd(data) + 2
  {
    data[1..PayloadEnd(data)] + SumBytes(data)
  }

  lemma BitsOfSum(sum: seq<byte>)
    requires |sum| == 2
    ensures Bits(sum) == Checksum(sum)
  {
    assert sum[1..] == [sum[1]];
    assert Bits([sum[1]]) == ByteBits(sum[1]) + [];
  }

  /** What the CRC sees of a corruption: the changes of the covered bytes, of the seed (with the message ID) and of the checksum. */
  function Change(data: seq<byte>, bad: seq<byte>): seq<bool>
    requires Complete(data) && SameFraming(data, bad) && MessageID(data) in SEEDS && MessageID(bad) in SEEDS
  {
    XorBits(Bits(data[1..PayloadEnd(data)]), Bits(bad[1..PayloadEnd(data)]))
      + XorBits(Bits([SEEDS[MessageID(data)]]), Bits([SEEDS[MessageID(bad)]]))
      + XorBits(Bits(SumBytes(data)), Bits(SumBytes(bad)))
  }

  /** A corrupted frame that is still complete is accepted unless its message ID is known and the CRC sees the change. */
  lemma ChangeDecides(data: seq<byte>, bad: seq<byte>)
    requires ParseFrame(data, true).Ok? && MessageID(data) in SEEDS && SameFraming(data, bad)
    ensures ParseFrame(bad, true).Ok? <==> Complete(bad) && (MessageID(bad) in SEEDS ==> Unseen(Change(data, bad)))
  {
    AcceptedIffResidueZero(data);
    AcceptedIffResidueZero(bad);
    if MessageID(bad) in SEEDS {
      var end := PayloadEnd(data);
      ChangeInFeed(data[1..end], bad[1..end], SEEDS[MessageID(data)], SEEDS[MessageID(bad)], SumBytes(data), SumBytes(bad));
    }
  }

  lemma ChangeInFeed(x: seq<byte>, y: seq<byte>, seed: byte, seed2: byte, sum: seq<byte>, sum2: seq<byte>)
    requires |x| == |y| && |sum| == |sum2| == 2
    ensures Feed(INIT, Bits(x + [seed] + sum)) == Feed(INIT, Bits(y + [seed2] + sum2))
      <==> Unseen(XorBits(Bits(x), Bits(y)) + XorBits(Bits([seed]), Bits([seed2])) + XorBits(Bits(sum), Bits(sum2)))
  {
    BitsAppend(x + [seed], sum);
    BitsAppend(x, [seed]);
    BitsAppend(y + [seed2], sum2);
    BitsAppend(y, [seed2]);
    var s, t := Bits([seed]), Bits([seed2]);
    XorAppend(Bits(x) + s, Bits(sum), Bits(y) + t, Bits(sum2));
    XorAppend(Bits(x), s, Bits(y), t);
    SameIffUnseen(INIT, Bits(x) + s + Bits(sum), Bits(y) + t + Bits(sum2));
  }

  lemma SameSeed(data: seq<byte>, bad: seq<byte>)
    requires Complete(data) && SameFraming(data, bad) && MessageID(data) in SEEDS && MessageID(bad) == MessageID(data)
    ensures Change(data, bad) == XorBits(Bits(data[1..PayloadEnd(data)]), Bits(bad[1..PayloadEnd(data)])) + Zeros(8)
                               + XorBits(Bits(SumBytes(data)), Bits(SumBytes(bad)))
  {
    var s := Bits([SEEDS[MessageID(data)]]);
    assert XorBits(s, s) == Zeros(8);
  }

  /**
    A burst of at most sixteen bits in header, payload and checksum of an accepted known frame, the length byte apart,
    leaves an accepted frame exactly when it turns the message ID into an unknown one; turns it into another known one and
    the CRC does not see it, the change of the seed included; or is one of the seven lost bursts at the very end.
   */
  lemma BurstRejected(data: seq<byte>, bad: seq<byte>, at: nat)
    requires ParseFrame(data, true).Ok? && MessageID(data) in SEEDS && SameFraming(data, bad)
    requires DifferWithinBurst(Bits(Protected(data)), Bits(Protected(bad)), at)
    ensures ParseFrame(bad, true).Ok? <==>
      && Complete(bad)
      && if MessageID(bad) !in SEEDS then true
         else if MessageID(bad) != MessageID(data) then Unseen(Change(data, bad))
         else Protected(bad) == Protected(data) || Lost(XorBits(Bits(Protected(data)), Bits(Protected(bad))))
    ensures !ParseFrame(bad, true).Ok? ==> ParseFrame(bad, true) == Err(if Complete(bad) then ChecksumMismatch else FrameTooShort)
  {
    ChangeDecides(data, bad);
    if Complete(bad) {
      Verdict(bad);
    }
    if MessageID(bad) == MessageID(data) {
      var end := PayloadEnd(data);
      SameSeed(data, bad);
      ChangeOfProtected(data[1..end], bad[1..end], SumBytes(data), SumBytes(bad), at);
    }
  }

  lemma ChangeOfProtected(x: seq<byte>, y: seq<byte>, sum: seq<byte>, sum2: seq<byte>, at: nat)
    requires |x| == |y| >= 2 && |sum| == |sum2| == 2
    requires DifferWithinBurst(Bits(x + sum), Bits(y + sum2), at)
    ensures Unseen(XorBits(Bits(x), Bits(y)) + Zeros(8) + XorBits(Bits(sum), Bits(sum2)))
      <==> x + sum == y + sum2 || Lost(XorBits(Bits(x + sum), Bits(y + sum2)))
  {
    var zc, zs := XorBits(Bits(x), Bits(y)), XorBits(Bits(sum), Bits(sum2));
    BitsAppend(x, sum);
    BitsAppend(y, sum2);
    XorAppend(Bits(x), Bits(sum), Bits(y), Bits(sum2));
    NoChange(x + sum, y + sum2);
    StaysWithin(Bits(x + sum), Bits(y + sum2), at);
    if zc + zs == Zeros(|zc| + 16) {
      NothingUnseen(zc, zs);
    } else {
      BurstUnseen(zc, zs, at);
    }
  }

  lemma StaysWithin(u: seq<bool>, v: seq<bool>, at: nat)
    requires DifferWithinBurst(u, v, at)
    ensures Within(XorBits(u, v), at)
  {}

  lemma NoChange(x: seq<byte>, y: seq<byte>)
    requires |x| == |y|
    ensures x == y <==> XorBits(Bits(x), Bits(y)) == Zeros(|Bits(x)|)
  {
    if XorBits(Bits(x), Bits(y)) == Zeros(|Bits(x)|) {
      forall i | 0 <= i < |Bits(x)|
        ensures Bits(x)[i] == Bits(y)[i]
      {
        assert !XorBits(Bits(x), Bits(y))[i];
      }
      BitsInjective(x, y);
    }
  }

  /**
    A change of the last two covered bytes and of the checksum goes unseen exactly when 24 shifts turn one into the other,
    unless those two bytes are the message ID's and it becomes unknown.
   */
  lemma TailChange(data: seq<byte>, bad: seq<byte>)
    requires ParseFrame(data, true).Ok? && MessageID(data) in SEEDS && |bad| == |data|
    requires bad[..PayloadEnd(data) - 2] == data[..PayloadEnd(data) - 2]
    ensures var end := PayloadEnd(data);
      var e := Xor(Checksum(data[end - 2..end]), Checksum(bad[end - 2..end]));
      var d := Xor(Checksum(SumBytes(data)), Checksum(bad[end..end + 2]));
      ParseFrame(bad, true).Ok? <==> MessageID(bad) != MessageID(data) || Shifts(24, e) == d
  {
    TailFraming(data, bad);
    ChangeDecides(data, bad);
    if MessageID(bad) == MessageID(data) {
      TailSplit(data, bad);
      SameSeed(data, bad);
      var end := PayloadEnd(data);
      TailUnseen(data[1..end - 2], data[end - 2..end], bad[end - 2..end], SumBytes(data), SumBytes(bad));
    }
  }

  lemma TailFraming(data: seq<byte>, bad: seq<byte>)
    requires Complete(data) && MessageID(data) in SEEDS && |bad| == |data|
    requires bad[..PayloadEnd(data) - 2] == data[..PayloadEnd(data) - 2]
    ensures SameFraming(data, bad) && Complete(bad) && SumBytes(bad) == bad[PayloadEnd(data)..PayloadEnd(data) + 2]
    ensures MessageID(bad) != MessageID(data) ==> MessageID(bad) !in SEEDS
  {
    assert forall i :: 0 <= i < 8 ==> bad[i] == bad[..PayloadEnd(data) - 2][i] && data[i] == data[..PayloadEnd(data) - 2][i];
    assert bad[7] == data[7];
  }

  lemma TailSplit(data: seq<byte>, bad: seq<byte>)
    requires Complete(data) && |bad| == |data| && bad[..PayloadEnd(data) - 2] == data[..PayloadEnd(data) - 2]
    ensures var end := PayloadEnd(data);
      data[1..end] == data[1..end - 2] + data[end - 2..end] && bad[1..end] == data[1..end - 2] + bad[end - 2..end]
  {
    var end := PayloadEnd(data);
    assert bad[1..end - 2] == bad[..end - 2][1..] && data[1..end - 2] == data[..end - 2][1..];
  }

  lemma TailUnseen(before: seq<byte>, x: seq<byte>, y: seq<byte>, sum: seq<byte>, sum2: seq<byte>)
    requires |x| == |y| == |sum| == |sum2| == 2
    ensures Unseen(XorBits(Bits(before + x), Bits(before + y)) + Zeros(8) + XorBits(Bits(sum), Bits(sum2)))
      <==> Shifts(24, Xor(Checksum(x), Checksum(y))) == Xor(Checksum(sum), Checksum(sum2))
  {
    LastTwo(before, x, y);
    XorWords(sum, sum2);
    ShiftedIntoSum(8 * |before|, Xor(Checksum(x), Checksum(y)), Xor(Checksum(sum), Checksum(sum2)));
  }

  lemma LastTwo(before: seq<byte>, x: seq<byte>, y: seq<byte>)
    requires |x| == |y| == 2
    ensures XorBits(Bits(before + x), Bits(before + y)) == Zeros(8 * |before|) + Xor(Checksum(x), Checksum(y))
  {
    BitsAppend(before, x);
    BitsAppend(before, y);
    XorAppend(Bits(before), Bits(x), Bits(before), Bits(y));
    XorWords(x, y);
    assert XorBits(Bits(before), Bits(before)) == Zeros(8 * |before|);
  }

  lemma XorWords(x: seq<byte>, y: seq<byte>)
    requires |x| == |y| == 2
    ensures XorBits(Bits(x), Bits(y)) == Xor(Checksum(x), Checksum(y))
  {
    BitsOfSum(x);
    BitsOfSum(y);
  }

  /** Bit by bit exclusive or. */
  function XorBytes(x: seq<byte>, y: seq<byte>): (r: seq<byte>)
    requires |x| == |y|
    ensures |r| == |x|
  {
    seq(|x|, i requires 0 <= i < |x| => ToByte(XorBits(ByteBits(x[i]), ByteBits(y[i]))))
  }

  lemma {:induction false} XorBytesBits(x: seq<byte>, y: seq<byte>)
    requires |x| == |y|
    ensures XorBits(Bits(x), Bits(XorBytes(x, y))) == Bits(y)
  {
    if x == [] {
    } else {
      var z := XorBytes(x, y);
      assert z[1..] == XorBytes(x[1..], y[1..]);
      XorBytesBits(x[1..], y[1..]);
      XorAppend(ByteBits(x[0]), Bits(x[1..]), ByteBits(z[0]), Bits(z[1..]));
      assert XorBits(ByteBits(x[0]), ByteBits(z[0])) == ByteBits(y[0]);
    }
  }

  /** The frame with its last two covered bytes and its checksum changed by the four bytes `q`. */
  function Struck(data: seq<byte>, q: seq<byte>): seq<byte>
    requires Complete(data) && |q| == 4
  {
    var end := PayloadEnd(data);
    data[..end - 2] + XorBytes(data[end - 2..end + 2], q) + data[end + 2..]
  }

  /** Each lost burst turns every accepted known frame with at least two payload bytes into another accepted frame. */
  lemma LostAccepted(data: seq<byte>, k: nat)
    requires ParseFrame(data, true).Ok? && MessageID(data) in SEEDS && data[1] >= 2 && k < |LOST_BURSTS|
    ensures |LOST_BURSTS[k]| == 4
    ensures var bad := Struck(data, LOST_BURSTS[k]);
      && ParseFrame(bad, true).Ok? && MessageID(bad) == MessageID(data) && |bad| == |data| && bad != data
      && exists at :: DifferWithinBurst(Bits(Protected(data)), Bits(Protected(bad)), at)
  {
    Inner(LOST_BURSTS);
    BurstSpan(k, LOST_BURSTS[k], SOLUTIONS[k].0, SOLUTIONS[k].1);
    StruckAccepted(data, k, LOST_BURSTS[k], 16 - SOLUTIONS[k].0);
  }

  lemma StruckAccepted(data: seq<byte>, k: nat, q: seq<byte>, at: nat)
    requires ParseFrame(data, true).Ok? && MessageID(data) in SEEDS && data[1] >= 2
    requires k < |LOST_BURSTS| && q == LOST_BURSTS[k] && |q| == 4 && Within(Bits(q), at)
    ensures var bad := Struck(data, q);
      && ParseFrame(bad, true).Ok? && MessageID(bad) == MessageID(data) && |bad| == |data| && bad != data
      && exists at :: DifferWithinBurst(Bits(Protected(data)), Bits(Protected(bad)), at)
  {
    var bad, end := Struck(data, q), PayloadEnd(data);
    StruckShape(data, q);
    var u, v := Bits(Protected(data)), Bits(Protected(bad));
    StruckChange(data[1..end - 2], data[end - 2..end + 2], q);
    LostAt(XorBits(u, v), k, q);
    WithinMoved(Bits(q), |u| - 32, at);
    WithinDiffers(u, v, |u| - 32 + at);
    BurstRejected(data, bad, |u| - 32 + at);
    LostNotZeros(XorBits(u, v));
    NoChange(Protected(data), Protected(bad));
  }

  lemma LostAt(z: seq<bool>, k: nat, q: seq<byte>)
    requires |z| >= 32 && k < |LOST_BURSTS| && q == LOST_BURSTS[k] && z == Zeros(|z| - 32) + Bits(q)
    ensures Lost(z)
  {}

  lemma StruckShape(data: seq<byte>, q: seq<byte>)
    requires Complete(data) && |q| == 4 && data[1] >= 2
    ensures var bad, end := Struck(data, q), PayloadEnd(data);
      && SameFraming(data, bad) && Complete(bad) && MessageID(bad) == MessageID(data)
      && Protected(data) == data[1..end - 2] + data[end - 2..end + 2]
      && Protected(bad) == data[1..end - 2] + XorBytes(data[end - 2..end + 2], q)
  {
    var bad, end := Struck(data, q), PayloadEnd(data);
    assert forall i :: 0 <= i < 10 ==> bad[i] == data[i];
    assert bad[1..end + 2] == data[1..end - 2] + XorBytes(data[end - 2..end + 2], q);
    assert Protected(bad) == bad[1..end + 2];
  }

  lemma StruckChange(before: seq<byte>, four: seq<byte>, q: seq<byte>)
    requires |four| == |q| == 4
    ensures XorBits(Bits(before + four), Bits(before + XorBytes(four, q))) == Zeros(8 * |before|) + Bits(q)
  {
    BitsAppend(before, four);
    BitsAppend(before, XorBytes(four, q));
    XorAppend(Bits(before), Bits(four), Bits(before), Bits(XorBytes(four, q)));
    XorBytesBits(four, q);
    assert XorBits(Bits(before), Bits(before)) == Zeros(8 * |before|);
  }

  lemma LostNotZeros(z: seq<bool>)
    requires Lost(z)
    ensures z != Zeros(|z|)
  {
    var zc, zs := z[..|z| - 16], z[|z| - 16..];
    assert z == zc + zs;
    LostCrosses(zc, zs);
    assert Zeros(|z|)[|z| - 16..] == Zeros(16);
  }

  lemma WithinDiffers(u: seq<bool>, v: seq<bool>, at: nat)
    requires |u| == |v| && Within(XorBits(u, v), at)
    ensures DifferWithinBurst(u, v, at)
  {
    forall i | 0 <= i < |u| && !(at <= i < at + 16)
      ensures u[i] == v[i]
    {
      assert !XorBits(u, v)[i];
    }
  }

  /** A complete frame with an unknown message ID is handed on undecoded whatever its bytes are, if only its system ID is valid. */
  lemma UnknownUnchecked(data: seq<byte>, sourceAddr: string, now: int)
    requires Complete(data) && MessageID(data) !in SEEDS
    ensures D.DecodePacket(data, sourceAddr, now)
      == if !D.ValidSystemID(data[5]) then Err(InvalidSystemID)
         else Ok(Event(DroneID(data[5], data[6]), MessageID(data), now, sourceAddr, RawPayload(data[10..PayloadEnd(data)])))
  {
    Verdict(data);
  }

  /** The next message ID but one, up or down: bit 1 of its low byte flipped. */
  function Flipped(b: byte): byte {
    if b / 2 % 2 == 1 then b - 2 else b + 2
  }

  /** One flipped bit in the message ID of any accepted known frame takes it to an unknown one, which is accepted unchecked. */
  lemma OneBitAccepted(data: seq<byte>)
    requires ParseFrame(data, true).Ok? && MessageID(data) in SEEDS
    ensures var bad := data[7 := Flipped(data[7])];
      && ParseFrame(bad, true) == Ok((FrameIn(bad), FrameSize(data))) && MessageID(bad) !in SEEDS
      && forall i :: 0 <= i < |Bits(data)| ==> (Bits(bad)[i] != Bits(data)[i] <==> i == 57)
  {
    var bad := data[7 := Flipped(data[7])];
    FlippedUnknown(data);
    assert Complete(bad);
    Verdict(bad);
    FlippedBits(data[7]);
    forall i | 0 <= i < |Bits(data)|
      ensures Bits(bad)[i] != Bits(data)[i] <==> i == 57
    {
      BitAt(data, i);
      BitAt(bad, i);
    }
  }

  lemma FlippedUnknown(data: seq<byte>)
    requires |data| >= MIN_FRAME && MessageID(data) in SEEDS
    ensures MessageID(data[7 := Flipped(data[7])]) !in SEEDS
  {}

  lemma FlippedBits(b: byte)
    ensures forall j :: 0 <= j < 8 ==> (ByteBits(Flipped(b))[j] != ByteBits(b)[j] <==> j == 1)
  {
    var c := Flipped(b);
    assert LowBits(b, 8) == [b % 2 == 1] + LowBits(b / 2, 7) && LowBits(b / 2, 7) == [b / 2 % 2 == 1] + LowBits(b / 2 / 2, 6);
    assert LowBits(c, 8) == [c % 2 == 1] + LowBits(c / 2, 7) && LowBits(c / 2, 7) == [c / 2 % 2 == 1] + LowBits(c / 2 / 2, 6);
    assert c % 2 == b % 2 && c / 2 / 2 == b / 2 / 2;
  }

  /** Any change of the two checksum bytes alone is rejected. */
  lemma ChecksumChangeRejected(data: seq<byte>, bad: seq<byte>)
    requires ParseFrame(data, true).Ok? && MessageID(data) in SEEDS && |bad| == |data|
    requires bad[..PayloadEnd(data)] == data[..PayloadEnd(data)]
    requires bad[PayloadEnd(data)..PayloadEnd(data) + 2] != SumBytes(data)
    ensures ParseFrame(bad, true) == Err(ChecksumMismatch)
  {
    ShapeKept(data, bad);
    if Checksum(SumBytes(bad)) == Checksum(SumBytes(data)) {
      SameSum(SumBytes(bad), SumBytes(data));
    }
  }

  lemma ShapeKept(data: seq<byte>, bad: seq<byte>)
    requires Complete(data) && |bad| == |data| && bad[..PayloadEnd(data)] == data[..PayloadEnd(data)]
    ensures Complete(bad) && PayloadEnd(bad) == PayloadEnd(data) && MessageID(bad) == MessageID(data)
    ensures bad[1..PayloadEnd(data)] == data[1..PayloadEnd(data)]
  {
    var end := PayloadEnd(data);
    assert forall i :: 0 <= i < end ==> bad[i] == bad[..end][i] && data[i] == data[..end][i];
    assert bad[1..end] == bad[..end][1..] && data[1..end] == data[..end][1..];
  }

  /** What accepted frames of one known message have in common: the parity of the seed. */
  lemma AcceptedParity(data: seq<byte>)
    requires Complete(data) && ParseFrame(data, true).Ok? && MessageID(data) in SEEDS
    ensures Odd(Bits(Protected(data))) == Odd(ByteBits(SEEDS[MessageID(data)]))
  {
    var covered, sum := data[1..PayloadEnd(data)], SumBytes(data);
    CrcParity(covered, SEEDS[MessageID(data)]);
    BitsAppend(covered, sum);
    OddAppend(Bits(covered), Bits(sum));
    BitsOfSum(sum);
  }

  /** Two accepted frames of the same known message and length differ in an even number of bits. */
  lemma EvenDistance(x: seq<byte>, y: seq<byte>)
    requires Complete(x) && Complete(y) && ParseFrame(x, true).Ok? && ParseFrame(y, true).Ok?
    requires MessageID(x) == MessageID(y) && MessageID(x) in SEEDS && x[1] == y[1]
    ensures Distance(Bits(Protected(x)), Bits(Protected(y))) % 2 == 0
  {
    AcceptedParity(x);
    AcceptedParity(y);
    DistanceParity(Bits(Protected(x)), Bits(Protected(y)));
  }
}
