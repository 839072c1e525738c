/**
  The drone registry of internal/drone/manager.go as a transition system on values: events,
  stale checks and the consumer of the update channel, in any interleaving (every one of
  them runs under the manager's lock). Manager.dfy proves the lock-protected code against it.
 */
module Registry {
  import opened Bytes
  import opened Telemetry
  import opened History

  datatype Config = Config(historySize: int, staleThreshold: int, channelCap: nat)

  function Capacity(cfg: Config): (n: nat)
    ensures n > 0
  {
    if cfg.historySize <= 0 then 1000 else cfg.historySize
  }

  /** The state kept for one drone; the history is the content of its ring buffer. */
  datatype Drone = Drone(
    id: DroneID,
    sourceAddr: string,
    firstSeen: int,
    lastSeen: int,
    lastHeartbeat: int,
    heartbeat: Option<Heartbeat>,
    gps: Option<Gps>,
    battery: Option<Battery>,
    attitude: Option<seq<byte>>,
    isConnected: bool,
    isArmed: bool,
    flightMode: Mode,
    history: seq<HistoryEntry>,
    messageCount: nat)

  datatype Kind = New | Telemetry | Armed | Disarmed | Disconnect | Reconnect

  datatype Update = Update(id: DroneID, timestamp: int, kind: Kind, state: Drone)

  /** What handling one event or check does to one drone, and the updates it emits in order. */
  datatype Outcome = Outcome(drone: Drone, updates: seq<Update>, panicked: bool)

  // ----- one drone -----

  function NewDrone(e: Event): Drone {
    Drone(e.id, e.sourceAddr, e.timestamp, e.timestamp, 0, None, None, None, None, true, false, NoMode, [], 0)
  }

  function Note(d: Drone, timestamp: int, kind: Kind): Update {
    Update(d.id, timestamp, kind, d)
  }

  /** The fields every message updates. */
  function Touched(d: Drone, e: Event): Drone {
    d.(lastSeen := e.timestamp, sourceAddr := e.sourceAddr, messageCount := d.messageCount + 1)
  }

  /** The first half of ProcessEvent: registration, reconnection, common fields. */
  function Seen(prev: Option<Drone>, e: Event): Outcome {
    var d0 := if prev.None? then NewDrone(e) else prev.value;
    var u0 := if prev.None? then [Note(d0, e.timestamp, New)] else [];
    var d1 := d0.(isConnected := true);
    var u1 := if d0.isConnected then u0 else u0 + [Note(d1, e.timestamp, Reconnect)];
    Outcome(Touched(d1, e), u1, false)
  }

  function Entry(d: Drone, timestamp: int, g: Gps): HistoryEntry {
    HistoryEntry(timestamp, g.latitude, g.longitude, g.altitude, g.heading,
                 if d.battery.Some? then d.battery.value.remaining else -1, d.isArmed, d.flightMode)
  }

  /** The type switch. A nil heartbeat or position is stored and then dereferenced: the call panics there. */
  function Applied(cfg: Config, d: Drone, e: Event): (Drone, Kind, bool) {
    match e.payload
    case HeartbeatPayload(None) =>
      (d.(heartbeat := None, lastHeartbeat := e.timestamp), Telemetry, true)
    case HeartbeatPayload(Some(h)) =>
      (d.(heartbeat := Some(h), lastHeartbeat := e.timestamp, isArmed := h.armed, flightMode := Mode(h.customMode, h.baseMode)),
       if h.armed && !d.isArmed then Armed else if !h.armed && d.isArmed then Disarmed else Telemetry, false)
    case GpsPayload(None) =>
      (d.(gps := None), Telemetry, true)
    case GpsPayload(Some(g)) =>
      (d.(gps := Some(g), history := TakeLast(d.history + [Entry(d, e.timestamp, g)], Capacity(cfg))), Telemetry, false)
    case BatteryPayload(b) => (d.(battery := b), Telemetry, false)
    case AttitudePayload(a) => (d.(attitude := a), Telemetry, false)
    case RawPayload(_) => (d, Telemetry, false)
  }

  /** ProcessEvent; a panic is recovered by the event processor and only the last update is lost. */
  function OnEvent(cfg: Config, prev: Option<Drone>, e: Event): Outcome {
    var seen := Seen(prev, e);
    var (d, kind, panicked) := Applied(cfg, seen.drone, e);
    Outcome(d, if panicked then seen.updates else seen.updates + [Note(d, e.timestamp, kind)], panicked)
  }

  predicate Stale(cfg: Config, d: Drone, now: int) {
    d.isConnected && now - d.lastSeen > cfg.staleThreshold
  }

  function OnStale(cfg: Config, d: Drone, now: int): Outcome {
    if Stale(cfg, d, now) then
      var off := d.(isConnected := false);
      Outcome(off, [Note(off, now, Disconnect)], false)
    else Outcome(d, [], false)
  }

  // ----- the registry -----

  /** `log` is every update emitted, `channel` what waits in the update channel, `received` what its consumer took. */
  datatype Reg = Reg(drones: map<DroneID, Drone>, log: seq<Update>, channel: seq<Update>, received: seq<Update>, dropped: nat)

  const EMPTY := Reg(map[], [], [], [], 0)

  /** emitUpdate: a non-blocking send. */
  function Emit(cfg: Config, r: Reg, u: Update): Reg {
    if |r.channel| < cfg.channelCap then r.(log := r.log + [u], channel := r.channel + [u])
    else r.(log := r.log + [u], dropped := r.dropped + 1)
  }

  function EmitAll(cfg: Config, r: Reg, us: seq<Update>): Reg
    decreases |us|
  {
    if us == [] then r else EmitAll(cfg, Emit(cfg, r, us[0]), us[1..])
  }

  function Get(r: Reg, id: DroneID): Option<Drone> {
    if id in r.drones then Some(r.drones[id]) else None
  }

  function Process(cfg: Config, r: Reg, e: Event): Reg {
    var o := OnEvent(cfg, Get(r, e.id), e);
    EmitAll(cfg, r.(drones := r.drones[e.id := o.drone]), o.updates)
  }

  function StaleOne(cfg: Config, r: Reg, now: int, id: DroneID): Reg
    requires id in r.drones
  {
    var o := OnStale(cfg, r.drones[id], now);
    EmitAll(cfg, r.(drones := r.drones[id := o.drone]), o.updates)
  }

  /** checkStale, visiting the map in the order the runtime happens to choose. */
  function StaleAll(cfg: Config, r: Reg, now: int, order: seq<DroneID>): Reg
    requires forall id :: id in order ==> id in r.drones
    decreases |order|, 0
  {
    if order == [] then r
    else
      var n := |order| - 1;
      var s := StaleAll(cfg, r, now, order[..n]);
      StaleKeeps(cfg, r, now, order[..n]);
      StaleOne(cfg, s, now, order[n])
  }

  lemma {:induction false} StaleKeeps(cfg: Config, r: Reg, now: int, order: seq<DroneID>)
    requires forall id :: id in order ==> id in r.drones
    ensures StaleAll(cfg, r, now, order).drones.Keys == r.drones.Keys
    decreases |order|, 1
  {
    if order == [] {
    } else {
      var n := |order| - 1;
      StaleKeeps(cfg, r, now, order[..n]);
      var s := StaleAll(cfg, r, now, order[..n]);
      var o := OnStale(cfg, s.drones[order[n]], now);
      EmitsOnly(cfg, s.(drones := s.drones[order[n] := o.drone]), o.updates);
    }
  }

  lemma {:induction false} EmitsOnly(cfg: Config, r: Reg, us: seq<Update>)
    ensures EmitAll(cfg, r, us).drones == r.drones
    ensures EmitAll(cfg, r, us).log == r.log + us
    ensures EmitAll(cfg, r, us).received == r.received
    decreases |us|
  {
    if us == [] {
    } else {
      EmitsOnly(cfg, Emit(cfg, r, us[0]), us[1..]);
      assert [us[0]] + us[1..] == us;
    }
  }

  datatype Step =
    | EventStep(event: Event)
    | StaleStep(now: int, order: seq<DroneID>)
    | ReceiveStep

  /** `order` visits every registered drone exactly once. */
  ghost predicate Visits(order: seq<DroneID>, keys: set<DroneID>) {
    && (forall id :: id in order <==> id in keys)
    && forall i, j :: 0 <= i < j < |order| ==> order[i] != order[j]
  }

  ghost predicate Enabled(r: Reg, s: Step) {
    s.StaleStep? ==> Visits(s.order, r.drones.Keys)
  }

  ghost function Next(cfg: Config, r: Reg, s: Step): Reg
    requires Enabled(r, s)
  {
    match s
    case EventStep(e) => Process(cfg, r, e)
    case StaleStep(now, order) => StaleAll(cfg, r, now, order)
    case ReceiveStep => if r.channel == [] then r else r.(channel := r.channel[1..], received := r.received + [r.channel[0]])
  }

  ghost predicate Feasible(cfg: Config, steps: seq<Step>)
    decreases |steps|, 0
  {
    steps == [] || (Feasible(cfg, steps[..|steps| - 1]) && Enabled(Run(cfg, steps[..|steps| - 1]), steps[|steps| - 1]))
  }

  /** The registry after a run from start-up. */
  ghost function Run(cfg: Config, steps: seq<Step>): Reg
    requires Feasible(cfg, steps)
    decreases |steps|, 1
  {
    if steps == [] then EMPTY else Next(cfg, Run(cfg, steps[..|steps| - 1]), steps[|steps| - 1])
  }
}
