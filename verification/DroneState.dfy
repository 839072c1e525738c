/**
  The state object of internal/drone/state.go, the structs it points to, and the part of
  ProcessEvent that works on one state, updated in place; its history is the ring buffer of
  History.dfy.
 */
module DroneState {
  import opened Bytes
  import opened Telemetry
  import opened History
  import opened Registry

  // ----- pointers -----

  /** A struct on the heap, as a Go pointer refers to it. */
  class Ref<T> {
    var value: T

    constructor (value: T)
      ensures this.value == value
    {
      this.value := value;
    }
  }

  ghost function Deref<T>(r: Ref?<T>): Option<T>
    reads r
  {
    if r == null then None else Some(r.value)
  }

  /** A struct copied to a new address. */
  method CopyOf<T>(r: Ref?<T>) returns (c: Ref?<T>)
    ensures (c == null <==> r == null) && (c != null ==> fresh(c))
    ensures Deref(c) == Deref(r)
  {
    c := null;
    if r != null {
      c := new Ref(r.value);
    }
  }

  datatype PayloadRef =
    | HeartbeatRef(heartbeat: Ref?<Heartbeat>)
    | GpsRef(gps: Ref?<Gps>)
    | BatteryRef(battery: Ref?<Battery>)
    | AttitudeRef(attitude: Ref?<seq<byte>>)
    | RawRef(raw: seq<byte>)

  /** An event as the decoder hands it over, with a pointer to its payload. */
  datatype EventRef = EventRef(id: DroneID, messageID: nat, timestamp: int, sourceAddr: string, payload: PayloadRef)

  function Pointee(p: PayloadRef): object? {
    match p
    case HeartbeatRef(r) => r
    case GpsRef(r) => r
    case BatteryRef(r) => r
    case AttitudeRef(r) => r
    case RawRef(_) => null
  }

  ghost function PayloadOf(p: PayloadRef): Payload
    reads Pointee(p)
  {
    match p
    case HeartbeatRef(r) => HeartbeatPayload(Deref(r))
    case GpsRef(r) => GpsPayload(Deref(r))
    case BatteryRef(r) => BatteryPayload(Deref(r))
    case AttitudeRef(r) => AttitudePayload(Deref(r))
    case RawRef(raw) => RawPayload(raw)
  }

  ghost function EventOf(e: EventRef): Event
    reads Pointee(e.payload)
  {
    Event(e.id, e.messageID, e.timestamp, e.sourceAddr, PayloadOf(e.payload))
  }

  // ----- copies -----

  /** The State struct Clone returns: its fields, pointers included. */
  datatype Snapshot = Snapshot(
    id: DroneID,
    sourceAddr: string,
    firstSeen: int,
    lastSeen: int,
    lastHeartbeat: int,
    heartbeat: Ref?<Heartbeat>,
    gps: Ref?<Gps>,
    battery: Ref?<Battery>,
    attitude: Ref?<seq<byte>>,
    isConnected: bool,
    isArmed: bool,
    flightMode: Mode,
    history: RingBuffer,
    messageCount: nat)

  /** What a reader of the snapshot sees when it follows the pointers, all but the history. */
  ghost function Shown(s: Snapshot): Drone
    reads s.heartbeat, s.gps, s.battery, s.attitude
  {
    Drone(s.id, s.sourceAddr, s.firstSeen, s.lastSeen, s.lastHeartbeat, Deref(s.heartbeat), Deref(s.gps), Deref(s.battery),
          Deref(s.attitude), s.isConnected, s.isArmed, s.flightMode, [], s.messageCount)
  }

  /** The summary for broadcasts: its position and battery are pointers into the state's own structs. */
  datatype Summary = Summary(
    id: DroneID,
    isConnected: bool,
    isArmed: bool,
    flightMode: Mode,
    vehicleType: Option<byte>,
    position: Ref?<Gps>,
    batteryPercent: Ref?<Battery>,
    batteryVoltage: Ref?<Battery>,
    lastSeenMs: int)

  datatype SummaryValue = SummaryValue(
    id: DroneID,
    isConnected: bool,
    isArmed: bool,
    flightMode: Mode,
    vehicleType: Option<byte>,
    position: Option<Gps>,
    percent: Option<int>,
    voltage: Option<nat>,
    lastSeenMs: int)

  /** What a reader of the summary sees when it follows the pointers. */
  ghost function Read(s: Summary): SummaryValue
    reads s.position, s.batteryPercent, s.batteryVoltage
  {
    SummaryValue(s.id, s.isConnected, s.isArmed, s.flightMode, s.vehicleType, Deref(s.position),
                 if s.batteryPercent == null then None else Some(s.batteryPercent.value.remaining),
                 if s.batteryVoltage == null then None else Some(s.batteryVoltage.value.voltage), s.lastSeenMs)
  }

  /** The summary of a drone's state: charge only if known, voltage only if measured, time in milliseconds. */
  function SummaryOf(d: Drone): SummaryValue {
    SummaryValue(d.id, d.isConnected, d.isArmed, d.flightMode,
                 if d.heartbeat.Some? then Some(d.heartbeat.value.vehicleType) else None, d.gps,
                 if d.battery.Some? && d.battery.value.remaining >= 0 then Some(d.battery.value.remaining) else None,
                 if d.battery.Some? && d.battery.value.voltage > 0 then Some(d.battery.value.voltage) else None,
                 d.lastSeen / 1_000_000)
  }

  // ----- the state -----

  datatype Part = Fields | Buffer

  class State {
    const id: DroneID
    var sourceAddr: string
    var firstSeen: int
    var lastSeen: int
    var lastHeartbeat: int
    var heartbeat: Ref?<Heartbeat>
    var gps: Ref?<Gps>
    var battery: Ref?<Battery>
    var attitude: Ref?<seq<byte>>
    var isConnected: bool
    var isArmed: bool
    var flightMode: Mode
    const history: RingBuffer
    var messageCount: nat
    ghost var value: Drone

    /** The whole state as a value, pointers followed. */
    ghost function Whole(): Drone
      reads this, history, heartbeat, gps, battery, attitude
    {
      Drone(id, sourceAddr, firstSeen, lastSeen, lastHeartbeat, Deref(heartbeat), Deref(gps), Deref(battery), Deref(attitude),
            isConnected, isArmed, flightMode, history.contents, messageCount)
    }

    ghost predicate Agrees(part: Part)
      reads this, history, history.entries, heartbeat, gps, battery, attitude
    {
      match part
      case Fields => value == Whole()
      case Buffer => history.Valid()
    }

    /** `value` is what every part of the state says. */
    ghost predicate Valid()
      reads this, history, history.entries, heartbeat, gps, battery, attitude
    {
      forall part :: Agrees(part)
    }

    lemma PartsAgree()
      requires Valid()
      ensures history.Valid() && value == Whole()
    {
      assert Agrees(Fields) && Agrees(Buffer);
    }

    constructor (e: EventRef, histSize: nat, ghost v: Event)
      requires histSize > 0 && v == EventOf(e)
      ensures Valid() && id == e.id && value == NewDrone(v) && history.cap == histSize
      ensures fresh(history) && fresh(history.entries)
      ensures heartbeat == null && gps == null && battery == null && attitude == null
    {
      id := e.id;
      sourceAddr := e.sourceAddr;
      firstSeen, lastSeen, lastHeartbeat := e.timestamp, e.timestamp, 0;
      heartbeat, gps, battery, attitude := null, null, null, null;
      isConnected, isArmed, flightMode := true, false, NoMode;
      history := new RingBuffer(histSize);
      messageCount := 0;
      value := NewDrone(v);
    }

    /** A copy of the state and of every struct it points to, at new addresses; only the history buffer is shared. */
    method Clone() returns (s: Snapshot)
      requires Valid()
      ensures Shown(s) == value.(history := []) && s.history == history
      ensures s.id == id && s.sourceAddr == sourceAddr && s.messageCount == messageCount
      ensures s.firstSeen == firstSeen && s.lastSeen == lastSeen && s.lastHeartbeat == lastHeartbeat
      ensures s.isConnected == isConnected && s.isArmed == isArmed && s.flightMode == flightMode
      ensures Deref(s.heartbeat) == Deref(heartbeat) && Deref(s.gps) == Deref(gps)
      ensures Deref(s.battery) == Deref(battery) && Deref(s.attitude) == Deref(attitude)
      ensures s.heartbeat == null || fresh(s.heartbeat)
      ensures s.gps == null || fresh(s.gps)
      ensures s.battery == null || fresh(s.battery)
      ensures s.attitude == null || fresh(s.attitude)
    {
      PartsAgree();
      var hb := CopyOf(heartbeat);
      var g := CopyOf(gps);
      var bat := CopyOf(battery);
      var att := CopyOf(attitude);
      s := Snapshot(id, sourceAddr, firstSeen, lastSeen, lastHeartbeat, hb, g, bat, att, isConnected, isArmed, flightMode,
                    history, messageCount);
    }

    /** A summary that points into this state's structs. */
    method ToSummary() returns (s: Summary)
      requires Valid()
      ensures Read(s) == SummaryOf(value)
      ensures s.id == id && s.isConnected == isConnected && s.isArmed == isArmed && s.flightMode == flightMode
      ensures s.position == gps && (s.batteryPercent != null ==> s.batteryPercent == battery)
      ensures s.batteryVoltage != null ==> s.batteryVoltage == battery
    {
      PartsAgree();
      var vehicleType, percent, voltage := None, null, null;
      if heartbeat != null {
        vehicleType := Some(heartbeat.value.vehicleType);
      }
      if battery != null {
        if battery.value.remaining >= 0 {
          percent := battery;
        }
        if battery.value.voltage > 0 {
          voltage := battery;
        }
      }
      s := Summary(id, isConnected, isArmed, flightMode, vehicleType, gps, percent, voltage, lastSeen / 1_000_000);
    }

    method See(e: EventRef, ghost v: Event)
      requires Valid() && v == EventOf(e)
      modifies `lastSeen, `sourceAddr, `messageCount, `value
      ensures Valid()
      ensures value == Touched(old(value), v)
    {
      PartsAgree();
      lastSeen := e.timestamp;
      sourceAddr := e.sourceAddr;
      messageCount := messageCount + 1;
      value := Whole();
    }

    method SetConnected(connected: bool)
      requires Valid()
      modifies `isConnected, `value
      ensures Valid() && value == old(value).(isConnected := connected)
    {
      PartsAgree();
      isConnected := connected;
      value := value.(isConnected := connected);
    }

    /** A heartbeat, nil or not: stored first, then dereferenced. */
    method ApplyHeartbeat(p: Ref?<Heartbeat>, ghost cfg: Config, ghost v: Event, ghost was: Drone, timestamp: int)
      returns (kind: Kind, panicked: bool)
      requires Valid() && was == value && v.payload == HeartbeatPayload(Deref(p)) && v.timestamp == timestamp
      modifies this
      ensures Valid()
      ensures value == Applied(cfg, was, v).0 && kind == Applied(cfg, was, v).1 && panicked == Applied(cfg, was, v).2
    {
      PartsAgree();
      kind, panicked := Kind.Telemetry, false;
      var previouslyArmed := isArmed;
      heartbeat := p;
      lastHeartbeat := timestamp;
      if p == null {
        panicked := true;
      } else {
        isArmed := p.value.armed;
        flightMode := Mode(p.value.customMode, p.value.baseMode);
        if p.value.armed && !previouslyArmed {
          kind := Armed;
        } else if !p.value.armed && previouslyArmed {
          kind := Disarmed;
        }
      }
      value := Whole();
    }

    /** A position, nil or not: stored first, then dereferenced for the history. */
    method ApplyPosition(p: Ref?<Gps>, ghost cfg: Config, ghost v: Event, ghost was: Drone, timestamp: int)
      returns (kind: Kind, panicked: bool)
      requires Valid() && was == value && v.payload == GpsPayload(Deref(p)) && v.timestamp == timestamp
      requires history.cap == Capacity(cfg)
      modifies this, history, history.entries
      ensures Valid()
      ensures value == Applied(cfg, was, v).0 && kind == Applied(cfg, was, v).1 && panicked == Applied(cfg, was, v).2
    {
      PartsAgree();
      kind, panicked := Kind.Telemetry, p == null;
      gps := p;
      if p != null {
        var level := -1;
        if battery != null {
          level := battery.value.remaining;
        }
        history.Push(HistoryEntry(timestamp, p.value.latitude, p.value.longitude, p.value.altitude, p.value.heading,
                                  level, isArmed, flightMode));
      }
      value := Whole();
    }

    /** The type switch of ProcessEvent. */
    method Apply(cfg: Config, e: EventRef, ghost v: Event, ghost was: Drone) returns (kind: Kind, panicked: bool)
      requires Valid() && history.cap == Capacity(cfg) && was == value && v == EventOf(e)
      modifies this, history, history.entries
      ensures Valid()
      ensures value == Applied(cfg, was, v).0 && kind == Applied(cfg, was, v).1 && panicked == Applied(cfg, was, v).2
    {
      PartsAgree();
      kind, panicked := Kind.Telemetry, false;
      match e.payload {
        case HeartbeatRef(p) =>
          kind, panicked := ApplyHeartbeat(p, cfg, v, was, e.timestamp);
        case GpsRef(p) =>
          kind, panicked := ApplyPosition(p, cfg, v, was, e.timestamp);
        case BatteryRef(p) =>
          battery := p;
          value := Whole();
        case AttitudeRef(p) =>
          attitude := p;
          value := Whole();
        case RawRef(_) =>
      }
    }

    /** ProcessEvent from the common fields on, up to the final update. */
    method Absorb(cfg: Config, e: EventRef, ghost v: Event, ghost was: Drone) returns (kind: Kind, panicked: bool)
      requires Valid() && history.cap == Capacity(cfg) && was == value && v == EventOf(e)
      modifies this, history, history.entries
      ensures Valid()
      ensures value == Applied(cfg, Touched(was, v), v).0
      ensures kind == Applied(cfg, Touched(was, v), v).1 && panicked == Applied(cfg, Touched(was, v), v).2
    {
      See(e, v);
      kind, panicked := Apply(cfg, e, v, value);
    }
  }
}
