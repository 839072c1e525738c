/**
  MAVLink v2 frames: ParseFrame and parseV2Frame of internal/mavlink/parser.go against
  buildFrame of cmd/simulator/main.go (and its twin buildSimFrame of cmd/replay/generate.go).
 */
module Frames {
  import opened Bytes
  import opened Crc

  const MAGIC_V2: byte := 0xFD
  const MAGIC_V1: byte := 0xFE
  const MAX_PAYLOAD := 255
  const MIN_FRAME := 12
  const SIGNATURE := 13

  /** CRC_EXTRA bytes the parser knows. */
  const SEEDS: map<nat, byte> := map[0 := 50, 1 := 124, 24 := 24, 30 := 39, 33 := 104, 147 := 154, 245 := 130]
  /** CRC_EXTRA bytes the simulator and the capture generator know: 245 is missing. */
  const SIM_SEEDS: map<nat, byte> := map[0 := 50, 1 := 124, 24 := 24, 30 := 39, 33 := 104, 147 := 154]

  datatype Error =
    | InvalidMagic
    | FrameTooShort
    | PayloadTooLarge
    | ChecksumMismatch
    | UnsupportedVersion
    | InvalidSystemID
    | InvalidTelemetry

  datatype Result<+T> = Ok(value: T) | Err(error: Error)

  datatype Frame = Frame(
    payloadLength: byte,
    incompatFlags: byte,
    compatFlags: byte,
    sequence: byte,
    systemID: byte,
    componentID: byte,
    messageID: nat,
    payload: seq<byte>,
    checksum: Word)

  // ----- parser -----

  /** The frame at the start of `data` and the number of bytes it takes. */
  function ParseFrame(data: seq<byte>, validateCRC: bool): Result<(Frame, nat)> {
    if |data| < 1 then Err(FrameTooShort)
    else if data[0] == MAGIC_V2 then ParseV2Frame(data, validateCRC)
    else if data[0] == MAGIC_V1 then Err(UnsupportedVersion)
    else Err(InvalidMagic)
  }

  function ParseV2Frame(data: seq<byte>, validateCRC: bool): Result<(Frame, nat)> {
    if |data| < MIN_FRAME then Err(FrameTooShort)
    else if data[1] > MAX_PAYLOAD then Err(PayloadTooLarge)
    else if |data| < FrameSize(data) then Err(FrameTooShort)
    else if validateCRC && MessageID(data) in SEEDS && !ChecksumValid(data) then Err(ChecksumMismatch)
    else Ok((FrameIn(data), FrameSize(data)))
  }

  function PayloadEnd(data: seq<byte>): nat
    requires |data| >= MIN_FRAME
  {
    var length: int := data[1];
    10 + length
  }

  /** Total size: the signature is there when bit 0 of the incompatibility flags is set. */
  function FrameSize(data: seq<byte>): nat
    requires |data| >= MIN_FRAME
  {
    PayloadEnd(data) + 2 + (if data[2] % 2 == 1 then SIGNATURE else 0)
  }

  /** All bytes of the frame are there. */
  predicate Complete(data: seq<byte>) {
    |data| >= MIN_FRAME && data[0] == MAGIC_V2 && |data| >= FrameSize(data)
  }

  function MessageID(data: seq<byte>): nat
    requires |data| >= MIN_FRAME
  {
    U24(data, 7)
  }

  function SumBytes(data: seq<byte>): (sum: seq<byte>)
    requires |data| >= MIN_FRAME && |data| >= PayloadEnd(data) + 2
    ensures |sum| == 2
  {
    data[PayloadEnd(data)..PayloadEnd(data) + 2]
  }

  function Checksum(sum: seq<byte>): Word
    requires |sum| == 2
  {
    FromBytes(sum[0], sum[1])
  }

  predicate ChecksumValid(data: seq<byte>)
    requires |data| >= MIN_FRAME && |data| >= FrameSize(data) && MessageID(data) in SEEDS
  {
    CrcCalculate(data[1..PayloadEnd(data)], SEEDS[MessageID(data)]) == Checksum(SumBytes(data))
  }

  function FrameIn(data: seq<byte>): Frame
    requires |data| >= MIN_FRAME && |data| >= FrameSize(data)
  {
    Frame(data[1], data[2], data[3], data[4], data[5], data[6], MessageID(data),
          data[10..PayloadEnd(data)], Checksum(SumBytes(data)))
  }

  // ----- builder -----

  /** The nine header bytes after the start byte, for a payload of `n` bytes. */
  function Header(sequence: byte, systemID: byte, msgID: nat, n: nat): (header: seq<byte>)
    ensures |header| == 9
  {
    [n % 256, 0, 0, sequence, systemID, 1, msgID % 256, msgID / 0x100 % 256, msgID / 0x1_0000 % 256]
  }

  /** What the checksum covers: header and payload, without the start byte. */
  function Covered(sequence: byte, systemID: byte, msgID: nat, payload: seq<byte>): seq<byte> {
    Header(sequence, systemID, msgID, |payload|) + payload
  }

  /** The two checksum bytes; they stay zero when the builder knows no seed. */
  function ChecksumBytes(covered: seq<byte>, msgID: nat): (bytes: seq<byte>)
    ensures |bytes| == 2
    ensures msgID in SIM_SEEDS ==> Checksum(bytes) == CrcCalculate(covered, SIM_SEEDS[msgID])
  {
    if msgID in SIM_SEEDS then
      var crc := CrcCalculate(covered, SIM_SEEDS[msgID]);
      assert crc == crc[..8] + crc[8..];
      [ToByte(crc[..8]), ToByte(crc[8..])]
    else [0, 0]
  }

  function FrameBytes(sequence: byte, systemID: byte, msgID: nat, payload: seq<byte>): seq<byte> {
    var covered := Covered(sequence, systemID, msgID, payload);
    [MAGIC_V2] + covered + ChecksumBytes(covered, msgID)
  }

  lemma CoveredIn(built: seq<byte>, sequence: byte, systemID: byte, msgID: nat, payload: seq<byte>)
    requires |built| == |payload| + 12
    requires built[..10] == [MAGIC_V2] + Header(sequence, systemID, msgID, |payload|)
    requires built[10..10 + |payload|] == payload
    ensures built[1..|payload| + 10] == Covered(sequence, systemID, msgID, payload)
    ensures built[..|payload| + 10] == [MAGIC_V2] + Covered(sequence, systemID, msgID, payload)
  {
    assert built[..|payload| + 10] == built[..10] + built[10..10 + |payload|];
  }

  lemma Assembled(bytes: seq<byte>, sequence: byte, systemID: byte, msgID: nat, payload: seq<byte>)
    requires |bytes| == |payload| + 12
    requires bytes[..|payload| + 10] == [MAGIC_V2] + Covered(sequence, systemID, msgID, payload)
    requires bytes[|payload| + 10..] == ChecksumBytes(Covered(sequence, systemID, msgID, payload), msgID)
    ensures bytes == FrameBytes(sequence, systemID, msgID, payload)
  {
    assert bytes == bytes[..|payload| + 10] + bytes[|payload| + 10..];
  }

  class SimDrone {
    const systemID: byte
    var sequence: byte

    constructor (systemID: byte)
      ensures this.systemID == systemID && sequence == 0
    {
      this.systemID := systemID;
      sequence := 0;
    }

    /** Fills a fresh buffer field by field and advances the sequence counter. */
    method BuildFrame(msgID: nat, payload: seq<byte>) returns (buf: array<byte>)
      modifies this
      ensures fresh(buf)
      ensures buf[..] == FrameBytes(old(sequence), systemID, msgID, payload)
      ensures sequence == (old(sequence) + 1) % 256
    {
      var n := |payload|;
      buf := new byte[1 + 9 + n + 2](_ => 0);
      WriteHeader(buf, msgID, n);
      Copy(buf, 10, payload);
      ghost var built := buf[..];
      assert built[..10] == [MAGIC_V2] + Header(sequence, systemID, msgID, n);
      CoveredIn(built, sequence, systemID, msgID, payload);
      WriteChecksum(buf, n, msgID);
      Assembled(buf[..], sequence, systemID, msgID, payload);
      sequence := (sequence + 1) % 256;
    }

    /** Go's copy(buf[at:], src) */
    method Copy(buf: array<byte>, at: nat, src: seq<byte>)
      requires at + |src| <= buf.Length
      modifies buf
      ensures buf[..at] == old(buf[..at])
      ensures buf[at..at + |src|] == src
      ensures buf[at + |src|..] == old(buf[at + |src|..])
    {
      forall i | 0 <= i < |src| {
        buf[at + i] := src[i];
      }
    }

    method WriteHeader(buf: array<byte>, msgID: nat, n: nat)
      requires buf.Length >= 12 && forall i :: 0 <= i < buf.Length ==> buf[i] == 0
      modifies buf
      ensures buf[..10] == [MAGIC_V2] + Header(sequence, systemID, msgID, n)
      ensures buf[10..] == old(buf[10..])
    {
      buf[0] := MAGIC_V2;
      buf[1] := n % 256;
      buf[4] := sequence;
      buf[5] := systemID;
      buf[6] := 1;
      buf[7] := msgID % 256;
      buf[8] := msgID / 0x100 % 256;
      buf[9] := msgID / 0x1_0000 % 256;
    }

    method WriteChecksum(buf: array<byte>, n: nat, msgID: nat)
      requires buf.Length == n + 12 && buf[n + 10..] == [0, 0]
      modifies buf
      ensures buf[..n + 10] == old(buf[..n + 10])
      ensures buf[n + 10..] == ChecksumBytes(old(buf[1..n + 10]), msgID)
    {
      if msgID in SIM_SEEDS {
        var crc := Calculate(buf[1..10 + n], SIM_SEEDS[msgID]);
        buf[10 + n], buf[11 + n] := ToByte(crc[..8]), ToByte(crc[8..]);
      }
    }
  }
}
