/**
  The values that flow through the server (pkg/protocol/mavlink.go, HistoryEntry of
  internal/drone/history.go), in wire units: 1e-7 degree, millimetre, centidegree, millivolt.
 */
module Telemetry {
  import opened Bytes

  datatype Option<+T> = None | Some(value: T)

  datatype DroneID = DroneID(systemID: byte, componentID: byte)

  datatype Heartbeat = Heartbeat(
    vehicleType: byte,
    autopilot: byte,
    baseMode: byte,
    customMode: nat,
    systemStatus: byte,
    mavlinkVersion: byte,
    armed: bool)

  datatype Gps = Gps(latitude: int, longitude: int, altitude: int, heading: int)

  datatype Battery = Battery(voltage: nat, current: int, remaining: int)

  /**
    The decoded payload. None stands for the typed nil pointer a decoder returns when the
    payload is too short; Raw is the undecoded slice of an unsupported message.
   */
  datatype Payload =
    | HeartbeatPayload(heartbeat: Option<Heartbeat>)
    | GpsPayload(gps: Option<Gps>)
    | BatteryPayload(battery: Option<Battery>)
    | AttitudePayload(attitude: Option<seq<byte>>)
    | RawPayload(raw: seq<byte>)

  datatype Event = Event(id: DroneID, messageID: nat, timestamp: int, sourceAddr: string, payload: Payload)

  /** PX4 mode names are a table lookup the model does not open: a mode is its two inputs. */
  datatype Mode = NoMode | Mode(customMode: nat, baseMode: byte)

  datatype HistoryEntry = HistoryEntry(
    timestamp: int,
    latitude: int,
    longitude: int,
    altitude: int,
    heading: int,
    battery: int,
    armed: bool,
    mode: Mode)
}
