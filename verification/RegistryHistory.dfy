/** The registry's state and history as plain functions of the events each drone sent. */
module RegistryHistory {
  import opened Bytes
  import opened Telemetry
  import opened History
  import opened Collections
  import opened Decoder
  import opened Frames
  import opened Registry
  import opened RegistryLaws
  import opened RegistryUpdates

  // ----- what the event history says -----

  /** A drone's events in a run, in order. */
  function EventsOf(steps: seq<Step>, id: DroneID): seq<Event> {
    if steps == [] then []
    else
      var n := |steps| - 1;
      EventsOf(steps[..n], id) + (if steps[n].EventStep? && steps[n].event.id == id then [steps[n].event] else [])
  }

  /** The latest battery report; a nil one erases what was known. */
  function LastBattery(es: seq<Event>): Option<Battery> {
    if es == [] then None
    else
      var n := |es| - 1;
      if es[n].payload.BatteryPayload? then es[n].payload.battery else LastBattery(es[..n])
  }

  /** The latest heartbeat that was not nil. */
  function LastBeat(es: seq<Event>): Option<Heartbeat> {
    if es == [] then None
    else
      var n := |es| - 1;
      if es[n].payload.HeartbeatPayload? && es[n].payload.heartbeat.Some? then es[n].payload.heartbeat else LastBeat(es[..n])
  }

  /** The latest heartbeat and its time, nil or not. */
  function LastHeartbeat(es: seq<Event>): (Option<Heartbeat>, int) {
    if es == [] then (None, 0)
    else
      var n := |es| - 1;
      if es[n].payload.HeartbeatPayload? then (es[n].payload.heartbeat, es[n].timestamp) else LastHeartbeat(es[..n])
  }

  /** The latest position, nil or not. */
  function LastGps(es: seq<Event>): Option<Gps> {
    if es == [] then None
    else
      var n := |es| - 1;
      if es[n].payload.GpsPayload? then es[n].payload.gps else LastGps(es[..n])
  }

  function LastAttitude(es: seq<Event>): Option<seq<byte>> {
    if es == [] then None
    else
      var n := |es| - 1;
      if es[n].payload.AttitudePayload? then es[n].payload.attitude else LastAttitude(es[..n])
  }

  function ArmedAfter(es: seq<Event>): bool {
    LastBeat(es).Some? && LastBeat(es).value.armed
  }

  function ModeAfter(es: seq<Event>): Mode {
    if LastBeat(es).None? then NoMode else Mode(LastBeat(es).value.customMode, LastBeat(es).value.baseMode)
  }

  /** The history entry a position makes after the events `es`. */
  function Stamped(es: seq<Event>, timestamp: int, g: Gps): HistoryEntry {
    HistoryEntry(timestamp, g.latitude, g.longitude, g.altitude, g.heading,
                 if LastBattery(es).Some? then LastBattery(es).value.remaining else -1, ArmedAfter(es), ModeAfter(es))
  }

  /** One entry per position, each stamped by what came before it. */
  function Track(es: seq<Event>): seq<HistoryEntry> {
    if es == [] then []
    else
      var n := |es| - 1;
      Track(es[..n]) +
      (if es[n].payload.GpsPayload? && es[n].payload.gps.Some?
       then [Stamped(es[..n], es[n].timestamp, es[n].payload.gps.value)] else [])
  }

  /** The payloads kept are the latest of each type. */
  predicate Reported(d: Drone, es: seq<Event>) {
    && d.battery == LastBattery(es)
    && (d.heartbeat, d.lastHeartbeat) == LastHeartbeat(es)
    && d.gps == LastGps(es)
    && d.attitude == LastAttitude(es)
  }

  /** The drone's state as a function of its events. */
  ghost predicate Summarises(cfg: Config, d: Drone, es: seq<Event>) {
    && es != []
    && d.messageCount == |es|
    && d.firstSeen == es[0].timestamp
    && d.lastSeen == es[|es| - 1].timestamp
    && d.sourceAddr == es[|es| - 1].sourceAddr
    && Reported(d, es)
    && d.isArmed == ArmedAfter(es)
    && d.flightMode == ModeAfter(es)
    && d.history == TakeLast(Track(es), Capacity(cfg))
  }

  lemma EventSummarises(cfg: Config, prev: Option<Drone>, es: seq<Event>, e: Event)
    requires if prev.None? then es == [] else Summarises(cfg, prev.value, es)
    ensures Summarises(cfg, OnEvent(cfg, prev, e).drone, es + [e])
  {
    SeenSummarised(cfg, prev, es, e);
    AppliedSummarised(cfg, Seen(prev, e).drone, es, e);
  }

  /** The drone as it is when the payload comes to be applied. */
  ghost predicate Between(cfg: Config, seen: Drone, es: seq<Event>, e: Event) {
    && seen.messageCount == |es| + 1 && seen.firstSeen == (es + [e])[0].timestamp
    && seen.lastSeen == e.timestamp && seen.sourceAddr == e.sourceAddr
    && Reported(seen, es) && seen.isArmed == ArmedAfter(es) && seen.flightMode == ModeAfter(es)
    && seen.history == TakeLast(Track(es), Capacity(cfg))
  }

  lemma SeenSummarised(cfg: Config, prev: Option<Drone>, es: seq<Event>, e: Event)
    requires if prev.None? then es == [] else Summarises(cfg, prev.value, es)
    ensures Between(cfg, Seen(prev, e).drone, es, e)
  {}

  lemma AppliedSummarised(cfg: Config, seen: Drone, es: seq<Event>, e: Event)
    requires Between(cfg, seen, es, e)
    ensures Summarises(cfg, Applied(cfg, seen, e).0, es + [e])
  {
    var all := es + [e];
    assert all[..|es|] == es;
    LastsStep(es, e);
    ReportedStep(cfg, seen, es, e);
    if e.payload.GpsPayload? && e.payload.gps.Some? {
      var entry := Stamped(es, e.timestamp, e.payload.gps.value);
      assert Entry(seen, e.timestamp, e.payload.gps.value) == entry;
      TakeLastPush(Track(es), entry, Capacity(cfg));
      assert Track(all) == Track(es) + [entry];
    } else {
      assert Track(all) == Track(es) + [];
    }
  }

  lemma LastsStep(es: seq<Event>, e: Event)
    ensures LastBattery(es + [e]) == if e.payload.BatteryPayload? then e.payload.battery else LastBattery(es)
    ensures LastBeat(es + [e]) ==
      if e.payload.HeartbeatPayload? && e.payload.heartbeat.Some? then e.payload.heartbeat else LastBeat(es)
  {
    assert (es + [e])[..|es|] == es;
  }

  lemma ReportedStep(cfg: Config, seen: Drone, es: seq<Event>, e: Event)
    requires Reported(seen, es)
    ensures Reported(Applied(cfg, seen, e).0, es + [e])
  {
    assert (es + [e])[..|es|] == es;
  }

  lemma TakeLastPush<T>(s: seq<T>, x: T, n: nat)
    requires n > 0
    ensures TakeLast(TakeLast(s, n) + [x], n) == TakeLast(s + [x], n)
  {}

  lemma {:induction false} SoloSummarises(cfg: Config, id: DroneID, steps: seq<Step>)
    ensures var d := SoloRun(cfg, id, steps).drone;
      if d.None? then EventsOf(steps, id) == [] else Summarises(cfg, d.value, EventsOf(steps, id))
  {
    if steps == [] {
    } else {
      var n := |steps| - 1;
      SoloSummarises(cfg, id, steps[..n]);
      var s := SoloRun(cfg, id, steps[..n]);
      assert EventsOf(steps[..n], id) + [] == EventsOf(steps[..n], id);
      if steps[n].EventStep? && steps[n].event.id == id {
        EventSummarises(cfg, s.drone, EventsOf(steps[..n], id), steps[n].event);
      }
    }
  }

  /** After every run, a drone is registered if and only if it sent something, and its state is what its events say. */
  lemma RunSummarises(cfg: Config, steps: seq<Step>, id: DroneID)
    requires Feasible(cfg, steps)
    ensures id in Run(cfg, steps).drones <==> EventsOf(steps, id) != []
    ensures id in Run(cfg, steps).drones ==> Summarises(cfg, Run(cfg, steps).drones[id], EventsOf(steps, id))
  {
    RunIsSolo(cfg, steps, id);
    SoloSummarises(cfg, id, steps);
  }

  // ----- GetHistory -----

  /** GetHistory returns the latest n entries of some drone with the system ID: the first one the map iteration meets. */
  ghost predicate HistoryAnswer(r: Reg, systemID: byte, n: nat, answer: Option<seq<HistoryEntry>>) {
    if answer.None? then forall id :: id in r.drones ==> id.systemID != systemID
    else exists id :: id in r.drones && id.systemID == systemID && answer.value == TakeLast(r.drones[id].history, n)
  }

  /** With one component per system ID the answer is exactly the latest entries of the drone's track, oldest first. */
  lemma HistoryIsTrack(cfg: Config, steps: seq<Step>, id: DroneID, n: nat, answer: Option<seq<HistoryEntry>>)
    requires Feasible(cfg, steps) && EventsOf(steps, id) != []
    requires forall other :: other in Run(cfg, steps).drones && other.systemID == id.systemID ==> other == id
    requires HistoryAnswer(Run(cfg, steps), id.systemID, n, answer)
    ensures var kept := if cfg.historySize <= 0 then 1000 else cfg.historySize;
      answer == Some(TakeLast(Track(EventsOf(steps, id)), if n < kept then n else kept))
  {
    RunSummarises(cfg, steps, id);
    TakeLastTwice(Track(EventsOf(steps, id)), Capacity(cfg), n);
  }

  // ----- Stats -----

  datatype Stats = Stats(total: nat, connected: nat, armed: nat, messages: nat)

  ghost function Counts(r: Reg): map<DroneID, nat> {
    map id | id in r.drones :: r.drones[id].messageCount
  }

  ghost function ConnectedIn(r: Reg): set<DroneID> {
    set id | id in r.drones && r.drones[id].isConnected
  }

  ghost function ArmedIn(r: Reg): set<DroneID> {
    set id | id in r.drones && r.drones[id].isArmed
  }

  ghost function StatsOf(r: Reg): Stats {
    Stats(|r.drones|, |ConnectedIn(r)|, |ArmedIn(r)|, Sum(Counts(r)))
  }

  ghost function Senders(steps: seq<Step>): set<DroneID> {
    set s | s in steps && s.EventStep? :: s.event.id
  }

  function EventCount(steps: seq<Step>): nat {
    if steps == [] then 0 else EventCount(steps[..|steps| - 1]) + (if steps[|steps| - 1].EventStep? then 1 else 0)
  }

  /** Every event is counted for exactly one drone: the total is the number of events processed, panics included. */
  lemma {:induction false} MessagesCounted(cfg: Config, steps: seq<Step>)
    requires Feasible(cfg, steps)
    ensures Sum(Counts(Run(cfg, steps))) == EventCount(steps)
  {
    if steps == [] {
    } else {
      var n := |steps| - 1;
      MessagesCounted(cfg, steps[..n]);
      var r := Run(cfg, steps[..n]);
      match steps[n]
      case EventStep(e) =>
        ProcessCounts(cfg, r, e);
      case StaleStep(now, order) =>
        StaleCounts(cfg, r, now, order);
      case ReceiveStep =>
        assert Counts(Next(cfg, r, ReceiveStep)) == Counts(r);
    }
  }

  lemma ProcessCounts(cfg: Config, r: Reg, e: Event)
    ensures Sum(Counts(Process(cfg, r, e))) == Sum(Counts(r)) + 1
  {
    var o := OnEvent(cfg, Get(r, e.id), e);
    EmitsOnly(cfg, r.(drones := r.drones[e.id := o.drone]), o.updates);
    CountOne(cfg, Get(r, e.id), e);
    SumUpdate(Counts(r), e.id, o.drone.messageCount);
    assert Counts(Process(cfg, r, e)) == Counts(r)[e.id := o.drone.messageCount];
  }

  lemma CountOne(cfg: Config, prev: Option<Drone>, e: Event)
    ensures OnEvent(cfg, prev, e).drone.messageCount == 1 + (if prev.Some? then prev.value.messageCount else 0)
  {}

  lemma {:induction false} StaleCounts(cfg: Config, r: Reg, now: int, order: seq<DroneID>)
    requires forall id :: id in order ==> id in r.drones
    ensures Counts(StaleAll(cfg, r, now, order)) == Counts(r)
    decreases |order|
  {
    if order == [] {
    } else {
      var n := |order| - 1;
      StaleCounts(cfg, r, now, order[..n]);
      StaleKeeps(cfg, r, now, order[..n]);
      var t := StaleAll(cfg, r, now, order[..n]);
      var o := OnStale(cfg, t.drones[order[n]], now);
      EmitsOnly(cfg, t.(drones := t.drones[order[n] := o.drone]), o.updates);
      assert forall k :: k in t.drones ==> Counts(t)[k] == t.drones[k].messageCount;
    }
  }

  lemma {:induction false} SendersSent(steps: seq<Step>, id: DroneID)
    ensures id in Senders(steps) <==> EventsOf(steps, id) != []
  {
    if steps == [] {
      assert Senders(steps) == {};
    } else {
      var n := |steps| - 1;
      SendersSent(steps[..n], id);
      assert steps == steps[..n] + [steps[n]];
      assert forall s :: s in steps <==> s in steps[..n] || s == steps[n];
    }
  }

  predicate LogSaysConnected(log: seq<Update>, id: DroneID) {
    Replay(About(log, id)).Known? && Replay(About(log, id)).connected
  }

  predicate LogSaysArmed(log: seq<Update>, id: DroneID) {
    Replay(About(log, id)).Known? && Replay(About(log, id)).armed
  }

  /** The manager's statistics, computed from the run and the update log alone. */
  lemma StatsFromLog(cfg: Config, steps: seq<Step>)
    requires Feasible(cfg, steps)
    ensures var log := Run(cfg, steps).log;
      StatsOf(Run(cfg, steps)) == Stats(
        |Senders(steps)|,
        |set id | id in Senders(steps) && LogSaysConnected(log, id)|,
        |set id | id in Senders(steps) && LogSaysArmed(log, id)|,
        EventCount(steps))
  {
    var r := Run(cfg, steps);
    MessagesCounted(cfg, steps);
    forall id: DroneID
      ensures id in r.drones.Keys <==> id in Senders(steps)
      ensures id in ConnectedIn(r) <==> id in Senders(steps) && LogSaysConnected(r.log, id)
      ensures id in ArmedIn(r) <==> id in Senders(steps) && LogSaysArmed(r.log, id)
    {
      StatsOfDrone(cfg, steps, id);
    }
    assert r.drones.Keys == Senders(steps);
    assert ConnectedIn(r) == set id | id in Senders(steps) && LogSaysConnected(r.log, id);
    assert ArmedIn(r) == set id | id in Senders(steps) && LogSaysArmed(r.log, id);
  }

  lemma StatsOfDrone(cfg: Config, steps: seq<Step>, id: DroneID)
    requires Feasible(cfg, steps)
    ensures var r := Run(cfg, steps);
      && (id in r.drones.Keys <==> id in Senders(steps))
      && (id in ConnectedIn(r) <==> id in Senders(steps) && LogSaysConnected(r.log, id))
      && (id in ArmedIn(r) <==> id in Senders(steps) && LogSaysArmed(r.log, id))
  {
    RunSummarises(cfg, steps, id);
    SendersSent(steps, id);
    LogReplays(cfg, steps, id);
  }

  // ----- which packets make the handling panic -----

  /** A heartbeat or position message whose payload is shorter than the message. */
  predicate ShortReport(f: Frame) {
    || (f.messageID == 0 && |f.payload| < 9)
    || (f.messageID == 24 && |f.payload| < 30)
    || (f.messageID == 33 && |f.payload| < 28)
  }

  lemma ShortIsNil(data: seq<byte>, sourceAddr: string, now: int, f: Frame, n: nat, e: Event)
    requires ParseFrame(data, true) == Ok((f, n)) && DecodePacket(data, sourceAddr, now) == Ok(e)
    ensures NilDereferenced(e.payload) <==> ShortReport(f)
  {}

  /** Handling an accepted packet panics if and only if it is a short heartbeat or position; otherwise it is reported last. */
  lemma AcceptedIsReported(cfg: Config, steps: seq<Step>, data: seq<byte>, sourceAddr: string, now: int, f: Frame, n: nat,
                           e: Event)
    requires ParseFrame(data, true) == Ok((f, n)) && DecodePacket(data, sourceAddr, now) == Ok(e)
    requires Feasible(cfg, steps + [EventStep(e)])
    ensures Feasible(cfg, steps)
    ensures var r, after, before := Run(cfg, steps), Run(cfg, steps + [EventStep(e)]), Get(Run(cfg, steps), e.id);
      && (OnEvent(cfg, before, e).panicked <==> ShortReport(f))
      && e.id in after.drones
      && after.log == r.log + Announced(before, e) +
           (if ShortReport(f) then []
            else [Update(e.id, e.timestamp, ArmedNow(before.Some? && before.value.isArmed, after.drones[e.id].isArmed),
                         after.drones[e.id])])
  {
    EventReported(cfg, steps, e);
    ShortIsNil(data, sourceAddr, now, f, n, e);
    PanicsIff(cfg, Get(Run(cfg, steps), e.id), e);
  }

  // ----- only valid positions are kept -----

  predicate EntryOK(h: HistoryEntry) {
    GpsOK(Gps(h.latitude, h.longitude, h.altitude, h.heading)) && h.battery <= 100
  }

  predicate DroneOK(d: Drone) {
    && (d.gps.Some? ==> GpsOK(d.gps.value))
    && (d.battery.Some? ==> d.battery.value.remaining <= 100)
    && forall h :: h in d.history ==> EntryOK(h)
  }

  lemma EventKeepsOK(cfg: Config, prev: Option<Drone>, e: Event)
    requires EventOK(e) && (prev.Some? ==> DroneOK(prev.value))
    ensures DroneOK(OnEvent(cfg, prev, e).drone)
  {
    var seen := Seen(prev, e).drone;
    assert DroneOK(seen);
    if e.payload.GpsPayload? && e.payload.gps.Some? {
      var entry := Entry(seen, e.timestamp, e.payload.gps.value);
      assert EntryOK(entry);
      forall h | h in TakeLast(seen.history + [entry], Capacity(cfg))
        ensures EntryOK(h)
      {
        assert h in seen.history || h == entry;
      }
    }
  }

  lemma {:induction false} SoloKeepsValid(cfg: Config, id: DroneID, steps: seq<Step>)
    requires forall s :: s in steps && s.EventStep? ==> EventOK(s.event)
    ensures SoloRun(cfg, id, steps).drone.Some? ==> DroneOK(SoloRun(cfg, id, steps).drone.value)
  {
    if steps == [] {
    } else {
      var n := |steps| - 1;
      assert steps[n] in steps;
      SoloKeepsValid(cfg, id, steps[..n]);
      if steps[n].EventStep? {
        EventKeepsOK(cfg, SoloRun(cfg, id, steps[..n]).drone, steps[n].event);
      }
    }
  }

  /** In every run fed with accepted packets, every position kept, current or historical, is in bounds with a reduced heading. */
  lemma KeptPositionsValid(cfg: Config, steps: seq<Step>, id: DroneID)
    requires Feasible(cfg, steps)
    requires forall s :: s in steps && s.EventStep? ==> EventOK(s.event)
    ensures id in Run(cfg, steps).drones ==> DroneOK(Run(cfg, steps).drones[id])
  {
    RunIsSolo(cfg, steps, id);
    SoloKeepsValid(cfg, id, steps);
  }
}
