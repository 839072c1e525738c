/**
  From a datagram to a telemetry event: DecodePacket and the payload decoders of
  internal/mavlink/parser.go, with the bounds of internal/mavlink/validate.go, in wire units.
 */
module Decoder {
  import opened Bytes
  import opened Frames
  import opened Telemetry

  const HEARTBEAT := 0
  const GPS_RAW_INT := 24
  const ATTITUDE := 30
  const GLOBAL_POSITION_INT := 33
  const BATTERY_STATUS := 147

  /** 90 and 180 degrees in 1e-7 degree, 100 km in millimetres, a full turn in centidegrees. */
  const MAX_LATITUDE := 900_000_000
  const MAX_LONGITUDE := 1_800_000_000
  const MAX_ALTITUDE := 100_000_000
  const TURN := 36_000

  // ----- payload decoders -----

  function Int32(p: seq<byte>, at: nat): int
    requires at + 4 <= |p|
  {
    Signed(U32(p, at), 0x8000_0000)
  }

  function Int16(p: seq<byte>, at: nat): int
    requires at + 2 <= |p|
  {
    Signed(U16(p, at), 0x8000)
  }

  function DecodeHeartbeat(p: seq<byte>): Option<Heartbeat> {
    if |p| < 9 then None
    else Some(Heartbeat(p[4], p[5], p[6], U32(p, 0), p[7], p[8], p[6] >= 0x80))
  }

  function DecodeGlobalPosition(p: seq<byte>): Option<Gps> {
    if |p| < 28 then None else Some(Gps(Int32(p, 4), Int32(p, 8), Int32(p, 12), U16(p, 26)))
  }

  function DecodeGPSRaw(p: seq<byte>): Option<Gps> {
    if |p| < 30 then None else Some(Gps(Int32(p, 8), Int32(p, 12), Int32(p, 16), U16(p, 26)))
  }

  /** The sum of the first `n` cell voltages, absent (0xFFFF) and zero cells left out. */
  function CellSum(p: seq<byte>, n: nat): nat
    requires 10 + 2 * n <= |p|
  {
    if n == 0 then 0
    else
      var cell := U16(p, 8 + 2 * n);
      CellSum(p, n - 1) + (if cell != 0xFFFF && cell != 0 then cell else 0)
  }

  function DecodeBattery(p: seq<byte>): Option<Battery> {
    if |p| < 36 then None else Some(Battery(CellSum(p, 10), Int16(p, 30), Signed(p[35], 0x80)))
  }

  function DecodeAttitude(p: seq<byte>): Option<seq<byte>> {
    if |p| < 28 then None else Some(p[4..28])
  }

  function DecodePayload(f: Frame): Payload {
    if f.messageID == HEARTBEAT then HeartbeatPayload(DecodeHeartbeat(f.payload))
    else if f.messageID == GLOBAL_POSITION_INT then GpsPayload(DecodeGlobalPosition(f.payload))
    else if f.messageID == GPS_RAW_INT then GpsPayload(DecodeGPSRaw(f.payload))
    else if f.messageID == BATTERY_STATUS then BatteryPayload(DecodeBattery(f.payload))
    else if f.messageID == ATTITUDE then AttitudePayload(DecodeAttitude(f.payload))
    else RawPayload(f.payload)
  }

  // ----- validation -----

  predicate GpsInBounds(g: Gps) {
    && -MAX_LATITUDE <= g.latitude <= MAX_LATITUDE
    && -MAX_LONGITUDE <= g.longitude <= MAX_LONGITUDE
    && g.altitude <= MAX_ALTITUDE
  }

  /** What ValidateGPS leaves of an in-bounds position. */
  function Normal(g: Gps): Gps {
    g.(heading := g.heading % TURN)
  }

  predicate ValidSystemID(id: byte) {
    1 <= id <= 250
  }

  /** The payload after validation, or None when its values are refused; a nil pointer is not looked at. */
  function Validated(p: Payload): Option<Payload> {
    match p
    case GpsPayload(Some(g)) => if GpsInBounds(g) then Some(GpsPayload(Some(Normal(g)))) else None
    case BatteryPayload(Some(b)) => if b.remaining > 100 then None else Some(p)
    case _ => Some(p)
  }

  function DecodePacket(data: seq<byte>, sourceAddr: string, now: int): Result<Event> {
    match ParseFrame(data, true)
    case Err(e) => Err(e)
    case Ok((f, _)) =>
      if !ValidSystemID(f.systemID) then Err(InvalidSystemID)
      else
        match Validated(DecodePayload(f))
        case None => Err(InvalidTelemetry)
        case Some(payload) =>
          Ok(Event(DroneID(f.systemID, f.componentID), f.messageID, now, sourceAddr, payload))
  }

  // ----- the imperative parts -----

  class GPSPosition {
    const latitude: int
    const longitude: int
    const altitude: int
    var heading: int

    ghost function Value(): Gps
      reads this
    {
      Gps(latitude, longitude, altitude, heading)
    }

    constructor (g: Gps)
      ensures Value() == g
    {
      latitude, longitude, altitude, heading := g.latitude, g.longitude, g.altitude, g.heading;
    }
  }

  /** Rejects out-of-range positions; turns any heading, however large, into [0, 360) degrees. */
  method ValidateGPS(gps: GPSPosition?) returns (ok: bool)
    modifies gps
    ensures ok <==> gps != null && old(GpsInBounds(gps.Value()))
    ensures gps != null ==> gps.Value() == if ok then Normal(old(gps.Value())) else old(gps.Value())
  {
    if gps == null {
      return false;
    }
    if gps.latitude < -MAX_LATITUDE || gps.latitude > MAX_LATITUDE {
      return false;
    }
    if gps.longitude < -MAX_LONGITUDE || gps.longitude > MAX_LONGITUDE {
      return false;
    }
    if gps.altitude > MAX_ALTITUDE {
      return false;
    }
    if gps.heading < 0 || gps.heading >= TURN {
      while gps.heading < 0
        invariant gps.heading % TURN == old(gps.heading) % TURN
        invariant old(gps.heading) >= 0 ==> gps.heading == old(gps.heading)
        decreases -gps.heading
      {
        gps.heading := gps.heading + TURN;
      }
      while gps.heading >= TURN
        invariant gps.heading >= 0 && gps.heading % TURN == old(gps.heading) % TURN
        decreases gps.heading
      {
        gps.heading := gps.heading - TURN;
      }
    }
    return true;
  }

  /** The loop of decodeBatteryStatus over the cell array. */
  method SumCells(p: seq<byte>) returns (total: nat)
    requires |p| >= 36
    ensures total == CellSum(p, 10)
  {
    total := 0;
    for i := 0 to 10
      invariant total == CellSum(p, i)
    {
      var cell := U16(p, 10 + i * 2);
      if cell != 0xFFFF && cell != 0 {
        total := total + cell;
      }
    }
  }

  /** DecodePacket as the source runs it: the position object is validated in place before it is published. */
  method Decode(data: seq<byte>, sourceAddr: string, now: int) returns (r: Result<Event>)
    ensures r == DecodePacket(data, sourceAddr, now)
  {
    var parsed := ParseFrame(data, true);
    if parsed.Err? {
      return Err(parsed.error);
    }
    var f := parsed.value.0;
    if !ValidSystemID(f.systemID) {
      return Err(InvalidSystemID);
    }
    var payload := DecodePayload(f);
    match payload {
      case GpsPayload(Some(g)) =>
        var gps := new GPSPosition(g);
        var ok := ValidateGPS(gps);
        if !ok {
          return Err(InvalidTelemetry);
        }
        payload := GpsPayload(Some(Gps(gps.latitude, gps.longitude, gps.altitude, gps.heading)));
      case BatteryPayload(Some(b)) =>
        var total := SumCells(f.payload);
        payload := BatteryPayload(Some(Battery(total, b.current, b.remaining)));
        if b.remaining > 100 {
          return Err(InvalidTelemetry);
        }
      case _ =>
    }
    return Ok(Event(DroneID(f.systemID, f.componentID), f.messageID, now, sourceAddr, payload));
  }

  // ----- what an accepted packet promises -----

  /** The position fields every consumer may rely on. */
  predicate GpsOK(g: Gps) {
    GpsInBounds(g) && 0 <= g.heading < TURN
  }

  predicate EventOK(e: Event) {
    && ValidSystemID(e.id.systemID)
    && (e.payload.GpsPayload? && e.payload.gps.Some? ==> GpsOK(e.payload.gps.value))
    && (e.payload.BatteryPayload? && e.payload.battery.Some? ==> e.payload.battery.value.remaining <= 100)
  }

  /** An accepted packet carries a valid drone and valid values. */
  lemma AcceptedIsValid(data: seq<byte>, sourceAddr: string, now: int, e: Event)
    requires DecodePacket(data, sourceAddr, now) == Ok(e)
    ensures EventOK(e) && e.timestamp == now && e.sourceAddr == sourceAddr
  {
    var f := ParseFrame(data, true).value.0;
    ValidatedIsOK(DecodePayload(f), e.payload);
  }

  lemma ValidatedIsOK(p: Payload, q: Payload)
    requires Validated(p) == Some(q)
    ensures q.GpsPayload? && q.gps.Some? ==> GpsOK(q.gps.value)
    ensures q.BatteryPayload? && q.battery.Some? ==> q.battery.value.remaining <= 100
    ensures IsNil(q) <==> IsNil(p)
  {}

  /** Its heading is the two heading bytes on the wire, reduced by full turns. */
  lemma HeadingFromWire(data: seq<byte>, sourceAddr: string, now: int, f: Frame, n: nat, g: Gps)
    requires ParseFrame(data, true) == Ok((f, n)) && DecodePacket(data, sourceAddr, now).Ok?
    requires DecodePacket(data, sourceAddr, now).value.payload == GpsPayload(Some(g))
    ensures |f.payload| >= 28 && 0 <= g.heading < TURN && g.heading == U16(f.payload, 26) % TURN
  {}

  /** The decoders hand on a nil pointer exactly for a known message whose payload is too short; the packet still passes. */
  function MinimumLength(msgID: nat): nat {
    if msgID == HEARTBEAT then 9
    else if msgID == GLOBAL_POSITION_INT || msgID == ATTITUDE then 28
    else if msgID == GPS_RAW_INT then 30
    else if msgID == BATTERY_STATUS then 36
    else 0
  }

  predicate IsNil(p: Payload) {
    || p == HeartbeatPayload(None) || p == GpsPayload(None)
    || p == BatteryPayload(None) || p == AttitudePayload(None)
  }

  lemma NilIffShort(data: seq<byte>, sourceAddr: string, now: int, f: Frame, n: nat)
    requires ParseFrame(data, true) == Ok((f, n)) && ValidSystemID(f.systemID)
    ensures |f.payload| < MinimumLength(f.messageID) <==>
      (DecodePacket(data, sourceAddr, now).Ok? && IsNil(DecodePacket(data, sourceAddr, now).value.payload))
  {}
}
