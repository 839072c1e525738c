/**
  The payload builders of cmd/simulator/main.go, and the wire round trip: what a simulated
  drone sends is what DecodePacket reports. Coordinates are the integers put on the wire.
 */
module Builders {
  import opened Bytes
  import opened Frames
  import opened FrameLaws
  import opened Telemetry
  import opened Decoder
  import opened WireFormat

  // ----- payload layouts -----

  function HeartbeatBytes(customMode: nat, armed: bool): seq<byte> {
    PutU32(customMode) + [2, 12, if armed then 0x81 else 0x01, 4, 3]
  }

  function GlobalPositionBytes(time: nat, g: Gps, relAlt: int, vx: int, vy: int): seq<byte> {
    PutU32(time) + PutU32(g.latitude) + PutU32(g.longitude) + PutU32(g.altitude) + PutU32(relAlt)
    + PutU16(vx) + PutU16(vy) + PutU16(0) + PutU16(g.heading)
  }

  /** Eight bytes of time whose last is overwritten by the fix type, then position, HDOP, VDOP, speed, course. */
  function GPSRawBytes(time: seq<byte>, g: Gps): seq<byte>
    requires |time| == 7
  {
    time + [3] + PutU32(g.latitude) + PutU32(g.longitude) + PutU32(g.altitude)
    + PutU16(120) + PutU16(150) + PutU16(500) + PutU16(g.heading) + [0, 12]
  }

  /** Four equal cells, six marked as unused, current and remaining charge at their offsets. */
  function BatteryBytes(cell: nat, current: int, remaining: byte): seq<byte> {
    var c, k := PutU16(cell), PutU16(current);
    [0, 0, 0, 0, 0, 0, 0, 0, 0, 0, c[0], c[1], c[0], c[1], c[0], c[1], c[0], c[1],
     0xFF, 0xFF, 0xFF, 0xFF, 0xFF, 0xFF, 0xFF, 0xFF, 0xFF, 0xFF, 0xFF, 0xFF, k[0], k[1], 0, 0, 0, remaining]
  }

  // ----- where the fields are -----

  lemma HeartbeatLayout(customMode: nat, armed: bool)
    ensures var p := HeartbeatBytes(customMode, armed);
      && |p| == 9 && Number(p[0..4]) == customMode % 0x1_0000_0000
      && p[4] == 2 && p[5] == 12 && p[6] == (if armed then 0x81 else 0x01) && p[7] == 4 && p[8] == 3
  {
    var p := HeartbeatBytes(customMode, armed);
    assert p[0..4] == PutU32(customMode);
    PutFour(customMode);
  }

  /** Time, position, relative altitude, the two horizontal speeds, no vertical speed, heading. */
  lemma GlobalPositionLayout(time: nat, g: Gps, relAlt: int, vx: int, vy: int)
    ensures var p := GlobalPositionBytes(time, g, relAlt, vx, vy);
      && |p| == 28
      && Number(p[0..4]) == time % 0x1_0000_0000 && Number(p[4..8]) == g.latitude % 0x1_0000_0000
      && Number(p[8..12]) == g.longitude % 0x1_0000_0000 && Number(p[12..16]) == g.altitude % 0x1_0000_0000
      && Number(p[16..20]) == relAlt % 0x1_0000_0000
      && Number(p[20..22]) == vx % 0x1_0000 && Number(p[22..24]) == vy % 0x1_0000
      && Number(p[24..26]) == 0 && Number(p[26..28]) == g.heading % 0x1_0000
  {
    var p := GlobalPositionBytes(time, g, relAlt, vx, vy);
    var where := PutU32(time) + PutU32(g.latitude) + PutU32(g.longitude) + PutU32(g.altitude);
    var speeds := PutU16(vx) + PutU16(vy) + PutU16(0) + PutU16(g.heading);
    assert p == where + PutU32(relAlt) + speeds;
    assert p[0..4] == where[0..4] == PutU32(time) && p[4..8] == where[4..8] == PutU32(g.latitude);
    assert p[8..12] == where[8..12] == PutU32(g.longitude) && p[12..16] == where[12..16] == PutU32(g.altitude);
    assert p[16..20] == PutU32(relAlt);
    assert p[20..22] == speeds[0..2] == PutU16(vx) && p[22..24] == speeds[2..4] == PutU16(vy);
    assert p[24..26] == speeds[4..6] == PutU16(0) && p[26..28] == speeds[6..8] == PutU16(g.heading);
    PutFour(time);
    PutFour(g.latitude);
    PutFour(g.longitude);
    PutFour(g.altitude);
    PutFour(relAlt);
    PutTwo(vx);
    PutTwo(vy);
    PutTwo(0);
    PutTwo(g.heading);
  }

  /** The fix type overwrites the time's last byte; dilutions, speed, course and satellites follow the position. */
  lemma GPSRawLayout(time: seq<byte>, g: Gps)
    requires |time| == 7
    ensures var p := GPSRawBytes(time, g);
      && |p| == 30 && p[0..7] == time && p[7] == 3
      && Number(p[8..12]) == g.latitude % 0x1_0000_0000 && Number(p[12..16]) == g.longitude % 0x1_0000_0000
      && Number(p[16..20]) == g.altitude % 0x1_0000_0000
      && Number(p[20..22]) == 120 && Number(p[22..24]) == 150 && Number(p[24..26]) == 500
      && Number(p[26..28]) == g.heading % 0x1_0000 && p[28] == 0 && p[29] == 12
  {
    var p := GPSRawBytes(time, g);
    assert p[8..12] == PutU32(g.latitude) && p[12..16] == PutU32(g.longitude) && p[16..20] == PutU32(g.altitude);
    assert p[20..22] == PutU16(120) && p[22..24] == PutU16(150) && p[24..26] == PutU16(500) && p[26..28] == PutU16(g.heading);
    PutFour(g.latitude);
    PutFour(g.longitude);
    PutFour(g.altitude);
    PutTwo(120);
    PutTwo(150);
    PutTwo(500);
    PutTwo(g.heading);
  }

  /** Four cells, six marked absent, current and charge; all other bytes are zero. */
  lemma BatteryLayout(cell: nat, current: int, remaining: byte)
    ensures var p := BatteryBytes(cell, current, remaining);
      && |p| == 36 && (forall i :: 0 <= i < 10 ==> p[i] == 0)
      && (forall i :: 0 <= i < 10 ==> Number(p[10 + 2 * i..12 + 2 * i]) == if i < 4 then cell % 0x1_0000 else 65535)
      && Number(p[30..32]) == current % 0x1_0000 && p[32] == 0 && p[33] == 0 && p[34] == 0 && p[35] == remaining
  {
    var p := BatteryBytes(cell, current, remaining);
    forall i | 0 <= i < 10
      ensures Number(p[10 + 2 * i..12 + 2 * i]) == if i < 4 then cell % 0x1_0000 else 65535
    {
      CellLayout(p, cell, i);
    }
    PutTwo(current);
    assert p[30..32] == PutU16(current);
  }

  lemma CellLayout(p: seq<byte>, cell: nat, i: nat)
    requires |p| == 36 && i < 10
    requires forall k :: 0 <= k < 4 ==> p[10 + 2 * k] == PutU16(cell)[0] && p[11 + 2 * k] == PutU16(cell)[1]
    requires forall k :: 18 <= k < 30 ==> p[k] == 0xFF
    ensures Number(p[10 + 2 * i..12 + 2 * i]) == if i < 4 then cell % 0x1_0000 else 65535
  {
    TwoBytes(p, 10 + 2 * i);
    if i < 4 {
      assert U16(p, 10 + 2 * i) == U16(PutU16(cell), 0);
    }
  }

  // ----- buffers written in place -----

  method PutUint32(buf: array<byte>, at: nat, x: int)
    requires at + 4 <= buf.Length
    modifies buf
    ensures buf[..at + 4] == old(buf[..at]) + PutU32(x)
    ensures buf[at + 4..] == old(buf[at + 4..])
  {
    var b := PutU32(x);
    buf[at], buf[at + 1], buf[at + 2], buf[at + 3] := b[0], b[1], b[2], b[3];
  }

  method PutUint16(buf: array<byte>, at: nat, x: int)
    requires at + 2 <= buf.Length
    modifies buf
    ensures buf[..at + 2] == old(buf[..at]) + PutU16(x)
    ensures buf[at + 2..] == old(buf[at + 2..])
  {
    var b := PutU16(x);
    buf[at], buf[at + 1] := b[0], b[1];
  }

  method FillHeartbeat(customMode: nat, armed: bool) returns (payload: array<byte>)
    ensures fresh(payload) && payload[..] == HeartbeatBytes(customMode, armed)
  {
    payload := new byte[9](_ => 0);
    PutUint32(payload, 0, customMode);
    assert payload[..4] == PutU32(customMode);
    payload[4], payload[5] := 2, 12;
    payload[6] := if armed then 0x81 else 0x01;
    payload[7], payload[8] := 4, 3;
    assert payload[..] == payload[..4] + [payload[4], payload[5], payload[6], payload[7], payload[8]];
  }

  method FillPosition(time: nat, g: Gps, relAlt: int) returns (payload: array<byte>)
    ensures fresh(payload) && payload.Length == 28
    ensures payload[..20] == PutU32(time) + PutU32(g.latitude) + PutU32(g.longitude) + PutU32(g.altitude) + PutU32(relAlt)
  {
    payload := new byte[28](_ => 0);
    PutUint32(payload, 0, time);
    PutUint32(payload, 4, g.latitude);
    PutUint32(payload, 8, g.longitude);
    PutUint32(payload, 12, g.altitude);
    PutUint32(payload, 16, relAlt);
  }

  method FillVelocity(payload: array<byte>, vx: int, vy: int, heading: int)
    requires payload.Length == 28
    modifies payload
    ensures payload[..] == old(payload[..20]) + PutU16(vx) + PutU16(vy) + PutU16(0) + PutU16(heading)
  {
    PutUint16(payload, 20, vx);
    PutUint16(payload, 22, vy);
    PutUint16(payload, 24, 0);
    PutUint16(payload, 26, heading);
    assert payload[..] == payload[..28];
  }

  method BuildHeartbeat(d: SimDrone, customMode: nat, armed: bool) returns (buf: array<byte>)
    modifies d
    ensures fresh(buf) && d.sequence == (old(d.sequence) + 1) % 256
    ensures buf[..] == FrameBytes(old(d.sequence), d.systemID, HEARTBEAT, HeartbeatBytes(customMode, armed))
  {
    var payload := FillHeartbeat(customMode, armed);
    buf := d.BuildFrame(HEARTBEAT, payload[..]);
  }

  method BuildGlobalPosition(d: SimDrone, time: nat, g: Gps, relAlt: int, vx: int, vy: int) returns (buf: array<byte>)
    modifies d
    ensures fresh(buf) && d.sequence == (old(d.sequence) + 1) % 256
    ensures buf[..] == FrameBytes(old(d.sequence), d.systemID, GLOBAL_POSITION_INT, GlobalPositionBytes(time, g, relAlt, vx, vy))
  {
    var payload := FillPosition(time, g, relAlt);
    FillVelocity(payload, vx, vy, g.heading);
    ghost var bytes := GlobalPositionBytes(time, g, relAlt, vx, vy);
    assert payload[..] == bytes;
    buf := d.BuildFrame(GLOBAL_POSITION_INT, payload[..]);
  }

  // ----- the wire round trip -----

  predicate IsInt32(x: int) {
    -0x8000_0000 <= x < 0x8000_0000
  }

  /** Coordinates that fit their wire fields. */
  predicate OnWire(g: Gps) {
    IsInt32(g.latitude) && IsInt32(g.longitude) && IsInt32(g.altitude) && 0 <= g.heading < 0x1_0000
  }

  lemma ReadInt32(p: seq<byte>, before: seq<byte>, x: int, after: seq<byte>)
    requires p == before + (PutU32(x) + after) && IsInt32(x)
    ensures Int32(p, |before|) == x
  {
    var b := PutU32(x);
    assert p[|before|] == b[0] && p[|before| + 1] == b[1] && p[|before| + 2] == b[2] && p[|before| + 3] == b[3];
    assert U32(p, |before|) == U32(b, 0) == x % 0x1_0000_0000;
  }

  lemma ReadU16(p: seq<byte>, before: seq<byte>, x: nat, after: seq<byte>)
    requires p == before + (PutU16(x) + after) && x < 0x1_0000
    ensures U16(p, |before|) == x
  {
    assert p[|before|] == PutU16(x)[0] && p[|before| + 1] == PutU16(x)[1];
  }

  lemma GlobalPositionFields(time: nat, g: Gps, relAlt: int, vx: int, vy: int)
    requires OnWire(g)
    ensures DecodeGlobalPosition(GlobalPositionBytes(time, g, relAlt, vx, vy)) == Some(g)
  {
    var p := GlobalPositionBytes(time, g, relAlt, vx, vy);
    var head, tail := PutU32(time), PutU32(relAlt) + PutU16(vx) + PutU16(vy) + PutU16(0) + PutU16(g.heading);
    var lat, lon, alt := PutU32(g.latitude), PutU32(g.longitude), PutU32(g.altitude);
    assert p == head + (lat + (lon + alt + tail)) && p == head + lat + (lon + (alt + tail)) && p == head + lat + lon + (alt + tail);
    ReadInt32(p, head, g.latitude, lon + alt + tail);
    ReadInt32(p, head + lat, g.longitude, alt + tail);
    ReadInt32(p, head + lat + lon, g.altitude, tail);
    var front := p[..26];
    assert p == front + (PutU16(g.heading) + []);
    ReadU16(p, front, g.heading, []);
  }

  lemma GPSRawFields(time: seq<byte>, g: Gps)
    requires OnWire(g) && |time| == 7
    ensures DecodeGPSRaw(GPSRawBytes(time, g)) == Some(g)
  {
    var p := GPSRawBytes(time, g);
    var head, tail := time + [3], PutU16(120) + PutU16(150) + PutU16(500) + PutU16(g.heading) + [0, 12];
    var lat, lon, alt := PutU32(g.latitude), PutU32(g.longitude), PutU32(g.altitude);
    assert p == head + (lat + (lon + alt + tail)) && p == head + lat + (lon + (alt + tail)) && p == head + lat + lon + (alt + tail);
    ReadInt32(p, head, g.latitude, lon + alt + tail);
    ReadInt32(p, head + lat, g.longitude, alt + tail);
    ReadInt32(p, head + lat + lon, g.altitude, tail);
    var front := p[..26];
    assert p == front + (PutU16(g.heading) + [0, 12]);
    ReadU16(p, front, g.heading, [0, 12]);
  }

  /** A built frame with a seed both sides know decodes to its own payload. */
  lemma BuiltFrameDecodes(sequence: byte, systemID: byte, msgID: nat, payload: seq<byte>, addr: string, now: int)
    requires |payload| <= 255 && msgID in SIM_SEEDS && msgID < 0x100_0000 && ValidSystemID(systemID)
    ensures DecodePacket(FrameBytes(sequence, systemID, msgID, payload), addr, now)
         == match Validated(DecodePayload(Sent(sequence, systemID, msgID, payload)))
            case None => Err(InvalidTelemetry)
            case Some(p) => Ok(Event(DroneID(systemID, 1), msgID, now, addr, p))
  {
    RoundTrip(sequence, systemID, msgID, payload, []);
    var data := FrameBytes(sequence, systemID, msgID, payload);
    assert data + [] == data;
  }

  /** A simulated position arrives unchanged but for full turns of heading, or is refused for its bounds alone. */
  lemma GlobalPositionOverWire(sequence: byte, systemID: byte, time: nat, g: Gps, relAlt: int, vx: int, vy: int, addr: string, now: int)
    requires OnWire(g) && ValidSystemID(systemID)
    ensures DecodePacket(FrameBytes(sequence, systemID, GLOBAL_POSITION_INT, GlobalPositionBytes(time, g, relAlt, vx, vy)), addr, now)
         == if GpsInBounds(g) then Ok(Event(DroneID(systemID, 1), GLOBAL_POSITION_INT, now, addr, GpsPayload(Some(Normal(g)))))
            else Err(InvalidTelemetry)
  {
    GlobalPositionFields(time, g, relAlt, vx, vy);
    BuiltFrameDecodes(sequence, systemID, GLOBAL_POSITION_INT, GlobalPositionBytes(time, g, relAlt, vx, vy), addr, now);
  }

  lemma GPSRawOverWire(sequence: byte, systemID: byte, time: seq<byte>, g: Gps, addr: string, now: int)
    requires OnWire(g) && ValidSystemID(systemID) && |time| == 7
    ensures DecodePacket(FrameBytes(sequence, systemID, GPS_RAW_INT, GPSRawBytes(time, g)), addr, now)
         == if GpsInBounds(g) then Ok(Event(DroneID(systemID, 1), GPS_RAW_INT, now, addr, GpsPayload(Some(Normal(g)))))
            else Err(InvalidTelemetry)
  {
    GPSRawFields(time, g);
    BuiltFrameDecodes(sequence, systemID, GPS_RAW_INT, GPSRawBytes(time, g), addr, now);
  }

  /** A heartbeat arrives with its mode and armed flag. */
  lemma HeartbeatOverWire(sequence: byte, systemID: byte, customMode: nat, armed: bool, addr: string, now: int)
    requires customMode < 0x1_0000_0000 && ValidSystemID(systemID)
    ensures DecodePacket(FrameBytes(sequence, systemID, HEARTBEAT, HeartbeatBytes(customMode, armed)), addr, now)
         == Ok(Event(DroneID(systemID, 1), HEARTBEAT, now, addr,
               HeartbeatPayload(Some(Heartbeat(2, 12, if armed then 0x81 else 0x01, customMode, 4, 3, armed)))))
  {
    var p := HeartbeatBytes(customMode, armed);
    assert U32(p, 0) == U32(PutU32(customMode), 0) == customMode;
    BuiltFrameDecodes(sequence, systemID, HEARTBEAT, p, addr, now);
  }

  /** A heartbeat frame with a short payload is accepted and carries a nil pointer. */
  lemma ShortHeartbeatIsNil(sequence: byte, systemID: byte, payload: seq<byte>, addr: string, now: int)
    requires |payload| < 9 && ValidSystemID(systemID)
    ensures DecodePacket(FrameBytes(sequence, systemID, HEARTBEAT, payload), addr, now)
         == Ok(Event(DroneID(systemID, 1), HEARTBEAT, now, addr, HeartbeatPayload(None)))
  {
    BuiltFrameDecodes(sequence, systemID, HEARTBEAT, payload, addr, now);
  }

  /** What a cell slot adds to the total. */
  function CellValue(cell: nat): nat {
    if cell != 0xFFFF && cell != 0 then cell else 0
  }

  lemma {:induction false} EqualCells(p: seq<byte>, cell: nat, n: nat)
    requires |p| >= 36 && n <= 4 && forall i :: 0 <= i < 4 ==> U16(p, 10 + 2 * i) == cell
    ensures CellSum(p, n) == n * CellValue(cell)
  {
    if n == 0 {
    } else {
      EqualCells(p, cell, n - 1);
      assert U16(p, 10 + 2 * (n - 1)) == cell;
    }
  }

  lemma {:induction false} UnusedCells(p: seq<byte>, n: nat)
    requires |p| >= 36 && 4 <= n <= 10 && forall i :: 4 <= i < 10 ==> U16(p, 10 + 2 * i) == 0xFFFF
    ensures CellSum(p, n) == CellSum(p, 4)
  {
    if n == 4 {
    } else {
      UnusedCells(p, n - 1);
      assert U16(p, 10 + 2 * (n - 1)) == 0xFFFF;
    }
  }

  lemma BatteryFields(cell: nat, current: int, remaining: byte)
    requires cell < 0x1_0000 && -0x8000 <= current < 0x8000
    ensures DecodeBattery(BatteryBytes(cell, current, remaining))
         == Some(Battery(4 * CellValue(cell), current, Signed(remaining, 0x80)))
  {
    var p, c, k := BatteryBytes(cell, current, remaining), PutU16(cell), PutU16(current);
    assert U16(c, 0) == cell && U16(k, 0) == current % 0x1_0000;
    forall i | 0 <= i < 4
      ensures U16(p, 10 + 2 * i) == cell
    {
      assert p[10 + 2 * i] == c[0] && p[11 + 2 * i] == c[1];
    }
    EqualCells(p, cell, 4);
    UnusedCells(p, 10);
    assert U16(p, 30) == U16(k, 0);
  }

  /** A battery report arrives with four times the cell voltage, or is refused for its charge level alone. */
  lemma BatteryOverWire(sequence: byte, systemID: byte, cell: nat, current: int, remaining: byte, addr: string, now: int)
    requires cell < 0x1_0000 && -0x8000 <= current < 0x8000 && ValidSystemID(systemID)
    ensures DecodePacket(FrameBytes(sequence, systemID, BATTERY_STATUS, BatteryBytes(cell, current, remaining)), addr, now)
         == if 100 < remaining < 0x80 then Err(InvalidTelemetry)
            else Ok(Event(DroneID(systemID, 1), BATTERY_STATUS, now, addr,
                    BatteryPayload(Some(Battery(4 * CellValue(cell), current, Signed(remaining, 0x80))))))
  {
    BatteryFields(cell, current, remaining);
    BuiltFrameDecodes(sequence, systemID, BATTERY_STATUS, BatteryBytes(cell, current, remaining), addr, now);
  }
}
