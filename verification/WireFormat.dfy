/**
  The wire format written down from the outside, byte by byte, and what the parser and the decoders make of it: the reference
  that frames, payloads and bounds are checked against.
 */
module WireFormat {
  import opened Bytes
  import opened Crc
  import opened Frames
  import opened Telemetry
  import opened Decoder

  // ----- numbers -----

  /** The number whose bytes these are, the lowest first. */
  function Number(x: seq<byte>): nat {
    if x == [] then 0 else x[0] as int + 256 * Number(x[1..])
  }

  /** 256 to the n. */
  function Size(n: nat): nat {
    if n == 0 then 1 else 256 * Size(n - 1)
  }

  /** The same bytes as a two's-complement number: a set top bit counts negatively. */
  function TwosComplement(x: seq<byte>): int
    requires x != []
  {
    if ByteBits(x[|x| - 1])[7] then Number(x) - Size(|x|) else Number(x)
  }

  lemma TopBit(b: byte)
    ensures ByteBits(b)[7] <==> b >= 128
  {
    HighBits(b, 7);
  }

  lemma {:induction false} HighBits(x: nat, n: nat)
    requires x < 2 * Pow2(n)
    ensures LowBits(x, n + 1)[n] <==> x >= Pow2(n)
    decreases n
  {
    if n == 0 {
    } else {
      HighBits(x / 2, n - 1);
      assert LowBits(x, n + 1) == [x % 2 == 1] + LowBits(x / 2, n);
    }
  }

  lemma TwoBytes(p: seq<byte>, at: nat)
    requires at + 2 <= |p|
    ensures U16(p, at) == Number(p[at..at + 2])
    ensures Int16(p, at) == TwosComplement(p[at..at + 2])
  {
    var x := p[at..at + 2];
    assert x[1..][1..] == [];
    assert Number(x[1..]) == x[1] as int;
    TopBit(x[1]);
    assert Size(2) == 0x1_0000;
  }

  lemma NumberOfFour(x: seq<byte>)
    requires |x| == 4
    ensures Number(x) == x[0] as int + 0x100 * x[1] as int + 0x1_0000 * x[2] as int + 0x100_0000 * x[3] as int
  {
    assert x[1..][1..] == x[2..] && x[2..][1..] == x[3..] && x[3..][1..] == [];
    assert Number(x[3..]) == x[3] as int;
    assert Number(x[2..]) == x[2] as int + 256 * Number(x[3..]);
    assert Number(x[1..]) == x[1] as int + 256 * Number(x[2..]);
  }

  lemma FourBytes(p: seq<byte>, at: nat)
    requires at + 4 <= |p|
    ensures U32(p, at) == Number(p[at..at + 4])
    ensures Int32(p, at) == TwosComplement(p[at..at + 4])
  {
    var x := p[at..at + 4];
    NumberOfFour(x);
    TopBit(x[3]);
    assert Size(4) == 0x1_0000_0000;
  }

  lemma ThreeBytes(p: seq<byte>, at: nat)
    requires at + 3 <= |p|
    ensures U24(p, at) == Number(p[at..at + 3])
  {
    var x := p[at..at + 3];
    assert x[1..][1..] == x[2..] && x[2..][1..] == [];
    assert Number(x[2..]) == x[2] as int;
    assert Number(x[1..]) == x[1] as int + 256 * Number(x[2..]);
  }

  lemma OneByteSigned(b: byte)
    ensures Signed(b, 0x80) == TwosComplement([b])
  {
    var x := [b];
    assert x[1..] == [];
    assert Number(x) == b as int + 256 * Number(x[1..]) && Number(x[1..]) == 0;
    TopBit(b);
    assert Size(1) == 256 * Size(0);
  }

  lemma PutTwo(x: int)
    ensures Number(PutU16(x)) == x % 0x1_0000
  {
    var b := PutU16(x);
    TwoBytes(b, 0);
    assert b[0..2] == b;
  }

  lemma PutFour(x: int)
    ensures Number(PutU32(x)) == x % 0x1_0000_0000
  {
    var b := PutU32(x);
    FourBytes(b, 0);
    assert b[0..4] == b;
  }

  // ----- frames -----

  /** The extra byte each known message puts into the checksum. */
  function Extra(msgID: nat): Option<byte> {
    match msgID
    case 0 => Some(50)
    case 1 => Some(124)
    case 24 => Some(24)
    case 30 => Some(39)
    case 33 => Some(104)
    case 147 => Some(154)
    case 245 => Some(130)
    case _ => None
  }

  lemma KnownSeeds(msgID: nat)
    ensures msgID in SEEDS <==> Extra(msgID).Some?
    ensures msgID in SEEDS ==> SEEDS[msgID] == Extra(msgID).value
    ensures msgID in SIM_SEEDS <==> msgID in SEEDS && msgID != 245
    ensures msgID in SIM_SEEDS ==> SIM_SEEDS[msgID] == SEEDS[msgID]
  {}

  /** A frame on the wire, its signature if any included. */
  function Wire(f: Frame, id: seq<byte>, sum: seq<byte>, signature: seq<byte>): seq<byte> {
    [0xFD, f.payloadLength, f.incompatFlags, f.compatFlags, f.sequence, f.systemID, f.componentID] + id + f.payload + sum + signature
  }

  /** The parts have their sizes: a 24-bit ID, a 16-bit checksum, and 13 signature bytes exactly when flag bit 0 is set. */
  ghost predicate WellFormed(f: Frame, id: seq<byte>, sum: seq<byte>, signature: seq<byte>) {
    && |f.payload| == f.payloadLength as int
    && |id| == 3 && f.messageID == Number(id)
    && |sum| == 2 && f.checksum == ByteBits(sum[0]) + ByteBits(sum[1])
    && |signature| == if ByteBits(f.incompatFlags)[0] then 13 else 0
  }

  /** The checksum is right, or cannot be checked. */
  predicate SumFits(f: Frame, id: seq<byte>, sum: seq<byte>) {
    Extra(f.messageID).Some? ==>
      Feed(INIT, Bits(Wire(f, id, [], [])[1..] + [Extra(f.messageID).value])) == f.checksum
  }

  lemma FlagBit(b: byte)
    ensures ByteBits(b)[0] <==> b % 2 == 1
  {
    assert LowBits(b, 8) == [b % 2 == 1] + LowBits(b / 2, 7);
  }

  lemma Middle(x: seq<byte>, y: seq<byte>, z: seq<byte>, all: seq<byte>)
    requires all == x + y + z
    ensures all[|x|..|x| + |y|] == y && all[..|x|] == x
  {}

  /** Where the parts of a frame are, given the sizes of the first four. */
  lemma Pieces(head: seq<byte>, id: seq<byte>, payload: seq<byte>, sum: seq<byte>, rest: seq<byte>, data: seq<byte>)
    requires |head| == 7 && |id| == 3 && |sum| == 2 && data == head + id + payload + sum + rest
    ensures |data| == 12 + |payload| + |rest|
    ensures data[..7] == head && data[7..10] == id && data[10..10 + |payload|] == payload
    ensures data[10 + |payload|..12 + |payload|] == sum
    ensures data[..10 + |payload|] == head + id + payload
  {
    Middle([], head, id + payload + sum + rest, data);
    Middle(head, id, payload + sum + rest, data);
    Middle(head + id, payload, sum + rest, data);
    Middle(head + id + payload, sum, rest, data);
  }

  lemma WireParts(f: Frame, id: seq<byte>, sum: seq<byte>, signature: seq<byte>, tail: seq<byte>, data: seq<byte>)
    requires WellFormed(f, id, sum, signature) && data == Wire(f, id, sum, signature) + tail
    ensures Complete(data) && PayloadEnd(data) == 10 + |f.payload| && FrameSize(data) == 12 + |f.payload| + |signature|
    ensures data[10..PayloadEnd(data)] == f.payload && SumBytes(data) == sum
    ensures data[1..PayloadEnd(data)] == Wire(f, id, [], [])[1..]
    ensures data[7..10] == id && FrameIn(data) == f
  {
    FlagBit(f.incompatFlags);
    var head := [0xFD, f.payloadLength, f.incompatFlags, f.compatFlags, f.sequence, f.systemID, f.componentID];
    assert data == head + id + f.payload + sum + (signature + tail);
    Pieces(head, id, f.payload, sum, signature + tail, data);
    assert forall i :: 0 <= i < 7 ==> data[i] == data[..7][i] == head[i];
    assert Wire(f, id, [], []) == head + id + f.payload;
    assert data[1..PayloadEnd(data)] == data[..10 + |f.payload|][1..];
    ThreeBytes(data, 7);
  }

  /** With any flags, signed or not: a frame is read back from the wire, whatever follows it, unless its checksum is wrong. */
  lemma ParsesBack(f: Frame, id: seq<byte>, sum: seq<byte>, signature: seq<byte>, tail: seq<byte>, validateCRC: bool)
    requires WellFormed(f, id, sum, signature)
    ensures ParseFrame(Wire(f, id, sum, signature) + tail, validateCRC)
      == if validateCRC && !SumFits(f, id, sum) then Err(ChecksumMismatch)
         else Ok((f, 12 + |f.payload| + (if ByteBits(f.incompatFlags)[0] then 13 else 0)))
  {
    var data := Wire(f, id, sum, signature) + tail;
    WireParts(f, id, sum, signature, tail, data);
    KnownSeeds(f.messageID);
    if f.messageID in SEEDS {
      FastIsBitSerial(data[1..PayloadEnd(data)], SEEDS[f.messageID]);
    }
  }

  lemma Cut(data: seq<byte>, end: nat, n: nat)
    requires 10 <= end && end + 2 <= n <= |data|
    ensures data[..end] == data[..7] + data[7..10] + data[10..end]
    ensures data[..n] == data[..7] + data[7..10] + data[10..end] + data[end..end + 2] + data[end + 2..n]
  {}

  lemma OnlySum(data: seq<byte>, f: Frame)
    requires Complete(data) && f == FrameIn(data) && (MessageID(data) in SEEDS ==> ChecksumValid(data))
    requires var end := 10 + data[1] as int; Wire(f, data[7..10], [], []) == data[..end]
    ensures SumFits(f, data[7..10], data[10 + data[1] as int..12 + data[1] as int])
  {
    var end := 10 + data[1] as int;
    KnownSeeds(f.messageID);
    assert data[..end][1..] == data[1..end];
    if f.messageID in SEEDS {
      FastIsBitSerial(data[1..end], SEEDS[f.messageID]);
    }
  }

  /** Nothing else is accepted: what was parsed lies on the wire as that frame. */
  lemma OnlyWire(data: seq<byte>, validateCRC: bool, f: Frame, n: nat)
    requires ParseFrame(data, validateCRC) == Ok((f, n))
    ensures |data| >= n == 12 + data[1] as int + (if ByteBits(data[2])[0] then 13 else 0)
    ensures var end := 10 + data[1] as int;
      && WellFormed(f, data[7..10], data[end..end + 2], data[end + 2..n])
      && data[..n] == Wire(f, data[7..10], data[end..end + 2], data[end + 2..n])
      && (validateCRC ==> SumFits(f, data[7..10], data[end..end + 2]))
  {
    FlagBit(data[2]);
    ThreeBytes(data, 7);
    var end := 10 + data[1] as int;
    var head := [0xFD, data[1], data[2], data[3], data[4], data[5], data[6]];
    assert data[..7] == head;
    Cut(data, end, n);
    assert f.payload == data[10..end];
    if validateCRC {
      assert Wire(f, data[7..10], [], []) == data[..end];
      OnlySum(data, f);
    }
  }

  /** Why bytes are refused, the checksum apart. */
  lemma Refusals(data: seq<byte>, validateCRC: bool)
    ensures ParseFrame(data, validateCRC) == Err(FrameTooShort) <==>
      || data == []
      || (data[0] == 0xFD && (|data| < 12 || |data| < 12 + data[1] as int + (if ByteBits(data[2])[0] then 13 else 0)))
    ensures ParseFrame(data, validateCRC) == Err(UnsupportedVersion) <==> data != [] && data[0] == 0xFE
    ensures ParseFrame(data, validateCRC) == Err(InvalidMagic) <==> data != [] && data[0] != 0xFD && data[0] != 0xFE
    ensures ParseFrame(data, validateCRC).Err? ==>
      ParseFrame(data, validateCRC).error in {FrameTooShort, UnsupportedVersion, InvalidMagic, ChecksumMismatch}
  {
    if |data| >= 3 {
      FlagBit(data[2]);
    }
  }

  // ----- what becomes of a packet -----

  /** The frame at the start of the packet is accepted. */
  ghost predicate Carries(data: seq<byte>, f: Frame) {
    exists n :: ParseFrame(data, true) == Ok((f, n))
  }

  /** A packet whose frame is refused is refused for the same reason, one with a system ID outside 1..250 for that. */
  lemma PacketRefused(data: seq<byte>, addr: string, now: int)
    ensures ParseFrame(data, true).Err? ==> DecodePacket(data, addr, now) == Err(ParseFrame(data, true).error)
    ensures DecodePacket(data, addr, now) == Err(InvalidSystemID) <==>
      exists f :: Carries(data, f) && !(1 <= f.systemID as int <= 250)
  {
    var r := ParseFrame(data, true);
    if r.Ok? {
      assert ParseFrame(data, true) == Ok((r.value.0, r.value.1));
      assert Carries(data, r.value.0);
      assert forall f :: Carries(data, f) ==> f == r.value.0;
    }
  }

  /** What an accepted packet becomes, its payload given. */
  function EventFor(f: Frame, addr: string, now: int, payload: Payload): Result<Event> {
    Ok(Event(DroneID(f.systemID, f.componentID), f.messageID, now, addr, payload))
  }

  /** A heartbeat: mode word, type, autopilot, base mode whose bit 7 says armed, status, version. */
  lemma HeartbeatFromWire(data: seq<byte>, addr: string, now: int, f: Frame)
    requires Carries(data, f) && 1 <= f.systemID as int <= 250 && f.messageID == 0
    ensures var p := f.payload;
      DecodePacket(data, addr, now) == EventFor(f, addr, now, HeartbeatPayload(
        if |p| < 9 then None
        else Some(Heartbeat(p[4], p[5], p[6], Number(p[0..4]), p[7], p[8], ByteBits(p[6])[7]))))
  {
    if |f.payload| >= 9 {
      FourBytes(f.payload, 0);
      TopBit(f.payload[6]);
    }
  }

  /** A position in bounds, heading reduced to less than a full turn; or the packet is refused. */
  function PositionFor(f: Frame, addr: string, now: int, lat: int, lon: int, alt: int, heading: nat): Result<Event> {
    if -900_000_000 <= lat <= 900_000_000 && -1_800_000_000 <= lon <= 1_800_000_000 && alt <= 100_000_000
    then EventFor(f, addr, now, GpsPayload(Some(Gps(lat, lon, alt, heading % 36_000))))
    else Err(InvalidTelemetry)
  }

  lemma GlobalPositionFields(p: seq<byte>)
    requires |p| >= 28
    ensures DecodeGlobalPosition(p)
         == Some(Gps(TwosComplement(p[4..8]), TwosComplement(p[8..12]), TwosComplement(p[12..16]), Number(p[26..28])))
  {
    FourBytes(p, 4);
    FourBytes(p, 8);
    FourBytes(p, 12);
    TwoBytes(p, 26);
  }

  /** A global position: latitude, longitude and altitude from byte 4 on, heading in bytes 26 and 27. */
  lemma GlobalPositionFromWire(data: seq<byte>, addr: string, now: int, f: Frame)
    requires Carries(data, f) && 1 <= f.systemID as int <= 250 && f.messageID == 33
    ensures var p := f.payload;
      DecodePacket(data, addr, now) ==
        if |p| < 28 then EventFor(f, addr, now, GpsPayload(None))
        else PositionFor(f, addr, now, TwosComplement(p[4..8]), TwosComplement(p[8..12]), TwosComplement(p[12..16]),
                         Number(p[26..28]))
  {
    if |f.payload| >= 28 {
      GlobalPositionFields(f.payload);
    }
  }

  lemma GPSRawFields(p: seq<byte>)
    requires |p| >= 30
    ensures DecodeGPSRaw(p)
         == Some(Gps(TwosComplement(p[8..12]), TwosComplement(p[12..16]), TwosComplement(p[16..20]), Number(p[26..28])))
  {
    FourBytes(p, 8);
    FourBytes(p, 12);
    FourBytes(p, 16);
    TwoBytes(p, 26);
  }

  /** A raw GPS fix: the same four bytes further on, course in bytes 26 and 27. */
  lemma GPSRawFromWire(data: seq<byte>, addr: string, now: int, f: Frame)
    requires Carries(data, f) && 1 <= f.systemID as int <= 250 && f.messageID == 24
    ensures var p := f.payload;
      DecodePacket(data, addr, now) ==
        if |p| < 30 then EventFor(f, addr, now, GpsPayload(None))
        else PositionFor(f, addr, now, TwosComplement(p[8..12]), TwosComplement(p[12..16]), TwosComplement(p[16..20]),
                         Number(p[26..28]))
  {
    if |f.payload| >= 30 {
      GPSRawFields(f.payload);
    }
  }

  /** The ten cell voltages of a battery report. */
  function Cells(p: seq<byte>): seq<nat>
    requires |p| >= 36
  {
    seq(10, i requires 0 <= i < 10 => Number(p[10 + 2 * i..12 + 2 * i]))
  }

  /** The sum of the cells that report a voltage: 0 and 65535 stand for none. */
  function Total(cells: seq<nat>): nat {
    if cells == [] then 0 else (if cells[0] == 0 || cells[0] == 65535 then 0 else cells[0]) + Total(cells[1..])
  }

  lemma {:induction false} TotalLast(cells: seq<nat>, cell: nat)
    ensures Total(cells + [cell]) == Total(cells) + (if cell == 0 || cell == 65535 then 0 else cell)
  {
    if cells == [] {
      assert ([] + [cell])[1..] == [];
    } else {
      assert (cells + [cell])[1..] == cells[1..] + [cell];
      TotalLast(cells[1..], cell);
    }
  }

  lemma {:induction false} CellsTotal(p: seq<byte>, n: nat, cells: seq<nat>)
    requires |p| >= 36 && n <= 10 && |cells| == 10
    requires forall i :: 0 <= i < 10 ==> cells[i] == U16(p, 10 + 2 * i)
    ensures CellSum(p, n) == Total(cells[..n])
  {
    if n == 0 {
    } else {
      CellsTotal(p, n - 1, cells);
      assert cells[..n] == cells[..n - 1] + [cells[n - 1]];
      TotalLast(cells[..n - 1], cells[n - 1]);
    }
  }

  lemma AllCells(p: seq<byte>)
    requires |p| >= 36
    ensures CellSum(p, 10) == Total(Cells(p))
  {
    var cells := Cells(p);
    forall i | 0 <= i < 10
      ensures cells[i] == U16(p, 10 + 2 * i)
    {
      TwoBytes(p, 10 + 2 * i);
    }
    CellsTotal(p, 10, cells);
    assert cells[..10] == cells;
  }

  /** A battery report: the cells that count, current in bytes 30 and 31, charge in byte 35, refused above 100 per cent. */
  lemma BatteryFromWire(data: seq<byte>, addr: string, now: int, f: Frame)
    requires Carries(data, f) && 1 <= f.systemID as int <= 250 && f.messageID == 147
    ensures var p := f.payload;
      DecodePacket(data, addr, now) ==
        if |p| < 36 then EventFor(f, addr, now, BatteryPayload(None))
        else if TwosComplement(p[35..36]) > 100 then Err(InvalidTelemetry)
        else EventFor(f, addr, now, BatteryPayload(Some(
          Battery(Total(Cells(p)), TwosComplement(p[30..32]), TwosComplement(p[35..36])))))
  {
    var p := f.payload;
    if |p| >= 36 {
      AllCells(p);
      TwoBytes(p, 30);
      OneByteSigned(p[35]);
      assert p[35..36] == [p[35]];
    }
  }

  /** An attitude: six words from byte 4 on, roll first, not interpreted. */
  lemma AttitudeFromWire(data: seq<byte>, addr: string, now: int, f: Frame)
    requires Carries(data, f) && 1 <= f.systemID as int <= 250 && f.messageID == 30
    ensures var p := f.payload;
      DecodePacket(data, addr, now) == EventFor(f, addr, now, AttitudePayload(
        if |p| < 28 then None else Some(p[4..8] + p[8..12] + p[12..16] + p[16..20] + p[20..24] + p[24..28])))
  {
    var p := f.payload;
    if |p| >= 28 {
      assert p[4..28] == p[4..8] + p[8..12] + p[12..16] + p[16..20] + p[20..24] + p[24..28];
    }
  }

  /** Any other message is handed on as it is. */
  lemma OtherFromWire(data: seq<byte>, addr: string, now: int, f: Frame)
    requires Carries(data, f) && 1 <= f.systemID as int <= 250
    requires f.messageID != 0 && f.messageID != 24 && f.messageID != 30 && f.messageID != 33 && f.messageID != 147
    ensures DecodePacket(data, addr, now) == EventFor(f, addr, now, RawPayload(f.payload))
  {}
}
