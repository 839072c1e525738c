/**
  internal/drone/manager.go as it runs: a map of state objects updated in place under one
  lock, with clones of them sent down a bounded channel. Each method is proved against the
  step of Registry.dfy it implements.
 */
module Manager {
  import opened Bytes
  import opened Telemetry
  import opened History
  import opened Collections
  import opened Registry
  import opened RegistryHistory
  import opened RegistryLaws
  import opened DroneState

  datatype StateUpdate = StateUpdate(id: DroneID, timestamp: int, kind: Kind, state: Snapshot)

  /** Whoever follows the update's pointers sees the state as it was when emitted; only the history is live. */
  ghost predicate Shows(sent: StateUpdate, emitted: Update)
    reads sent.state.heartbeat, sent.state.gps, sent.state.battery, sent.state.attitude
  {
    && sent.id == emitted.id && sent.timestamp == emitted.timestamp && sent.kind == emitted.kind
    && Shown(sent.state) == emitted.state.(history := [])
  }

  /** The update channel with its drop counter. */
  class UpdateChannel {
    const cap: nat
    var queue: seq<StateUpdate>
    var dropped: nat
    ghost var log: seq<Update>
    ghost var pending: seq<Update>
    ghost var received: seq<Update>

    ghost predicate InOrder(i: nat)
      reads *
    {
      i < |queue| && i < |pending| ==> Shows(queue[i], pending[i])
    }

    ghost predicate Valid()
      reads *
    {
      |queue| == |pending| && forall i {:trigger InOrder(i)} :: InOrder(i)
    }

    /** The registry model with these drones. */
    ghost function With(values: map<DroneID, Drone>): Reg
      reads this
    {
      Reg(values, log, pending, received, dropped)
    }

    constructor (cap: nat)
      ensures Valid() && With(map[]) == EMPTY && this.cap == cap
    {
      this.cap := cap;
      queue, dropped := [], 0;
      log, pending, received := [], [], [];
    }

    /** emitUpdate: the update carries a clone made at this moment; a full channel drops it and counts it. */
    method Emit(s: State, timestamp: int, kind: Kind, ghost cfg: Config, ghost values: map<DroneID, Drone>)
      requires Valid() && s.Valid() && cfg.channelCap == cap
      modifies this
      ensures Valid()
      ensures With(values) == Registry.Emit(cfg, old(With(values)), Note(s.value, timestamp, kind))
    {
      s.PartsAgree();
      var clone := s.Clone();
      ghost var u := Note(s.value, timestamp, kind);
      log := log + [u];
      if |queue| < cap {
        queue := queue + [StateUpdate(s.id, timestamp, kind, clone)];
        pending := pending + [u];
      } else {
        dropped := dropped + 1;
      }
      forall i: nat
        ensures InOrder(i)
      {
        assert old(InOrder(i));
      }
    }

    /** The consumer takes the oldest waiting update. */
    method Receive(ghost values: map<DroneID, Drone>) returns (u: StateUpdate)
      requires Valid() && queue != []
      modifies this
      ensures Valid()
      ensures Shows(u, old(pending[0]))
      ensures With(values) == old(With(values)).(channel := old(pending[1..]), received := old(received) + [old(pending[0])])
    {
      assert InOrder(0);
      u := queue[0];
      queue := queue[1..];
      received := received + [pending[0]];
      pending := pending[1..];
      forall i: nat
        ensures InOrder(i)
      {
        assert old(InOrder(i + 1));
      }
    }
  }

  class Manager {
    const cfg: Config
    const updates: UpdateChannel
    var drones: map<DroneID, State>
    /** The value of each state, the objects the states are made of, and whose state each is part of. */
    ghost var values: map<DroneID, Drone>
    ghost var repr: set<object>
    ghost var owner: map<object, DroneID>

    /** One registered state: it has the recorded value, pointers followed. */
    ghost predicate StateOK(k: DroneID, s: State, value: Drone)
      reads s, s.history, s.history.entries, s.heartbeat, s.gps, s.battery, s.attitude
    {
      s.Valid() && s.id == k && s.history.cap == Capacity(cfg) && s.value == value
    }

    /** The state and its parts belong to drone k alone. */
    ghost predicate Owns(k: DroneID, s: State)
      reads `owner, `repr
    {
      && s in repr && s.history in repr && s.history.entries in repr
      && s in owner && owner[s] == k
      && s.history in owner && owner[s.history] == k
      && s.history.entries in owner && owner[s.history.entries] == k
    }

    /** What the registry owns, and so may write, are states and histories: never a struct a state points to. */
    ghost predicate IsPart(o: object) {
      o is State || o is RingBuffer || o is array<HistoryEntry>
    }

    /** One registered drone: its state is its own and has the recorded value. */
    ghost predicate DroneOK(k: DroneID)
      reads *
    {
      k in drones ==> k in values && Owns(k, drones[k]) && StateOK(k, drones[k], values[k])
    }

    ghost predicate StatesOK()
      reads *
    {
      && (forall o {:trigger IsPart(o)} :: o in repr ==> IsPart(o))
      && (forall k {:trigger DroneOK(k)} :: DroneOK(k))
    }

    ghost predicate Valid()
      reads *
    {
      drones.Keys == values.Keys && StatesOK() && updates.cap == cfg.channelCap && updates.Valid()
    }

    lemma StateHolds(id: DroneID)
      requires StatesOK() && id in drones
      ensures id in values && StateOK(id, drones[id], values[id]) && Owns(id, drones[id])
      ensures drones[id].history.Valid() && values[id] == drones[id].Whole()
    {
      assert DroneOK(id);
      drones[id].PartsAgree();
    }

    /** Nothing but states and histories is ever written: not the structs that states, snapshots or summaries point to. */
    lemma NotWritten(o: object?)
      requires Valid() && (o == null || !(o is State || o is RingBuffer || o is array<HistoryEntry>))
      ensures o !in repr
    {
      assert o != null && o in repr ==> IsPart(o);
    }

    /** The struct an event points to is none of the objects the manager writes. */
    ghost predicate Apart(e: EventRef)
      reads `repr
    {
      Pointee(e.payload) !in repr && Pointee(e.payload) != this && Pointee(e.payload) != updates
    }

    lemma PayloadApart(e: EventRef)
      requires Valid()
      ensures Apart(e)
    {
      assert Pointee(e.payload) != null && Pointee(e.payload) in repr ==> IsPart(Pointee(e.payload));
    }

    ghost function Model(): Reg
      reads this, updates
    {
      updates.With(values)
    }

    constructor (cfg: Config)
      ensures Valid() && Model() == EMPTY && this.cfg == cfg && repr == {} && fresh(updates)
    {
      this.cfg := cfg;
      updates := new UpdateChannel(cfg.channelCap);
      drones, values, repr, owner := map[], map[], {}, map[];
    }

    method Emit(id: DroneID, timestamp: int, kind: Kind)
      requires Valid() && id in drones
      modifies updates
      ensures Valid()
      ensures Model() == Registry.Emit(cfg, old(Model()), Note(values[id], timestamp, kind))
    {
      StateHolds(id);
      updates.Emit(drones[id], timestamp, kind, cfg, values);
      forall k
        ensures DroneOK(k)
      {
        assert old(DroneOK(k));
      }
    }

    method Insert(id: DroneID, state: State)
      requires StatesOK() && id !in drones && StateOK(id, state, state.value)
      requires state !in owner && state.history !in owner && state.history.entries !in owner
      modifies `drones, `values, `owner, `repr
      ensures StatesOK() && values == old(values)[id := state.value] && drones == old(drones)[id := state]
      ensures repr == old(repr) + {state, state.history, state.history.entries}
    {
      repr := repr + {state, state.history, state.history.entries};
      owner := owner[state := id][state.history := id][state.history.entries := id];
      drones, values := drones[id := state], values[id := state.value];
      forall k
        ensures DroneOK(k)
      {
        assert old(DroneOK(k));
      }
      forall o | o in repr
        ensures IsPart(o)
      {
      }
    }

    method Register(e: EventRef, ghost v: Event)
      requires Valid() && e.id !in drones && v == EventOf(e)
      modifies `drones, `values, `owner, `repr
      ensures forall k :: k in old(drones) ==> k in drones && drones[k] == old(drones)[k]
      ensures Valid() && fresh(repr - old(repr)) && drones.Keys == old(drones).Keys + {e.id}
      ensures values == old(values)[e.id := NewDrone(v)]
    {
      var histSize := cfg.historySize;
      if histSize <= 0 {
        histSize := 1000;
      }
      var state := new State(e, histSize, v);
      Insert(e.id, state);
      forall i: nat
        ensures updates.InOrder(i)
      {
        assert old(updates.InOrder(i));
      }
    }

    method SetConnected(id: DroneID, connected: bool)
      requires Valid() && id in drones
      modifies drones[id], `values
      ensures StatesOK() && drones.Keys == values.Keys
      ensures values == old(values)[id := old(values[id]).(isConnected := connected)]
    {
      StateHolds(id);
      var state := drones[id];
      values := values[id := values[id].(isConnected := connected)];
      state.SetConnected(connected);
      forall k
        ensures DroneOK(k)
      {
        assert old(DroneOK(k));
      }
      forall o | o in repr
        ensures IsPart(o)
      {
      }
    }

    method Absorb(e: EventRef, ghost v: Event, ghost was: Drone) returns (kind: Kind, panicked: bool)
      requires Valid() && e.id in drones && was == values[e.id] && v == EventOf(e)
      modifies drones[e.id], drones[e.id].history, drones[e.id].history.entries, `values
      ensures StatesOK() && drones.Keys == values.Keys
      ensures values[e.id] == Applied(cfg, Touched(was, v), v).0 && values == old(values)[e.id := values[e.id]]
      ensures kind == Applied(cfg, Touched(was, v), v).1 && panicked == Applied(cfg, Touched(was, v), v).2
    {
      StateHolds(e.id);
      var state := drones[e.id];
      kind, panicked := state.Absorb(cfg, e, v, was);
      values := values[e.id := state.value];
      forall k
        ensures DroneOK(k)
      {
        assert old(DroneOK(k));
      }
      forall o | o in repr
        ensures IsPart(o)
      {
      }
    }

    /** A new drone is registered and announced. */
    method AddNew(e: EventRef, ghost v: Event)
      requires Valid() && e.id !in drones && v == EventOf(e) && Apart(e)
      modifies `drones, `values, `owner, `repr, updates
      ensures Valid() && drones.Keys == old(drones).Keys + {e.id} && v == EventOf(e) && Apart(e)
      ensures forall k :: k in old(drones) ==> k in drones && drones[k] == old(drones)[k]
      ensures fresh(repr - old(repr))
      ensures Model() == Registry.Emit(cfg, old(Model()).(drones := old(values)[e.id := NewDrone(v)]),
                                       Note(NewDrone(v), e.timestamp, New))
    {
      Register(e, v);
      Emit(e.id, e.timestamp, New);
    }

    /** A connection change is stored and announced. */
    method Switch(id: DroneID, connected: bool, timestamp: int, kind: Kind)
      requires Valid() && id in drones
      modifies drones[id], `values, updates
      ensures Valid()
      ensures var d := old(values[id]).(isConnected := connected);
        Model() == Registry.Emit(cfg, old(Model()).(drones := old(values)[id := d]), Note(d, timestamp, kind))
    {
      SetConnected(id, connected);
      forall i: nat
        ensures updates.InOrder(i)
      {
        assert old(updates.InOrder(i));
      }
      Emit(id, timestamp, kind);
    }

    /** ProcessEvent up to the reconnection check. */
    method Arrive(e: EventRef, ghost v: Event)
      requires Valid() && v == EventOf(e) && Apart(e)
      modifies this, repr, updates
      ensures Valid() && e.id in drones && v == EventOf(e) && Apart(e)
      ensures fresh(repr - old(repr))
      ensures forall k :: k in old(drones) ==> k in drones && drones[k] == old(drones)[k]
      ensures Model() == Arrived(cfg, old(Model()), v)
    {
      if e.id !in drones {
        AddNew(e, v);
      }
      StateHolds(e.id);
      Reconnect(e, v);
    }

    method Reconnect(e: EventRef, ghost v: Event)
      requires Valid() && e.id in drones && v == EventOf(e) && Apart(e)
      modifies drones[e.id], `values, updates
      ensures Valid() && v == EventOf(e) && Apart(e)
      ensures Model() == Reconnected(cfg, old(Model()), e.id, e.timestamp)
    {
      StateHolds(e.id);
      if !drones[e.id].isConnected {
        Switch(e.id, true, e.timestamp, Kind.Reconnect);
      }
    }

    method Finish(e: EventRef, ghost v: Event, ghost was: Drone) returns (panicked: bool)
      requires Valid() && e.id in drones && was == values[e.id] && v == EventOf(e) && Apart(e)
      modifies drones[e.id], drones[e.id].history, drones[e.id].history.entries, `values, updates
      ensures Valid()
      ensures panicked == Applied(cfg, Touched(was, v), v).2
      ensures Model() == Finished(cfg, old(Model()), v, Touched(was, v))
    {
      var kind;
      kind, panicked := Absorb(e, v, was);
      forall i: nat
        ensures updates.InOrder(i)
      {
        assert old(updates.InOrder(i));
      }
      if !panicked {
        Emit(e.id, e.timestamp, kind);
      }
    }

    method ProcessEvent(e: EventRef, ghost v: Event) returns (panicked: bool)
      requires Valid() && v == EventOf(e)
      modifies this, repr, updates
      ensures Valid()
      ensures fresh(repr - old(repr))
      ensures forall k :: k in old(drones) ==> k in drones && drones[k] == old(drones)[k]
      ensures Model() == Process(cfg, old(Model()), v)
      ensures panicked == OnEvent(cfg, Get(old(Model()), e.id), v).panicked
    {
      ghost var r := Model();
      PayloadApart(e);
      ProcessInOrder(cfg, r, v);
      panicked := Handle(e, v, r);
    }

    method Handle(e: EventRef, ghost v: Event, ghost r: Reg) returns (panicked: bool)
      requires Valid() && v == EventOf(e) && Apart(e) && r == Model()
      modifies this, repr, updates
      ensures Valid()
      ensures fresh(repr - old(repr))
      ensures forall k :: k in old(drones) ==> k in drones && drones[k] == old(drones)[k]
      ensures Model() == InOrder(cfg, r, v) && panicked == Applied(cfg, TouchedOn(cfg, r, v), v).2
    {
      Arrive(e, v);
      StateHolds(e.id);
      panicked := Finish(e, v, values[e.id]);
    }

    /** One drone's turn in checkStale. */
    method CheckOne(id: DroneID, now: int)
      requires Valid() && id in drones
      modifies drones[id], `values, updates
      ensures Valid()
      ensures Model() == StaleOne(cfg, old(Model()), now, id)
    {
      StateHolds(id);
      StaleOneIs(cfg, Model(), now, id);
      if drones[id].isConnected && now - drones[id].lastSeen > cfg.staleThreshold {
        Switch(id, false, now, Disconnect);
      }
    }

    /** The consumer's turn, if something waits. */
    method Receive()
      requires Valid()
      modifies updates
      ensures Valid() && repr == old(repr)
      ensures Model() == Next(cfg, old(Model()), ReceiveStep)
    {
      if updates.queue != [] {
        var u := updates.Receive(values);
        forall k
          ensures DroneOK(k)
        {
          assert old(DroneOK(k));
        }
      }
    }

    /** checkStale ranges over the map in an order of the runtime's choosing. */
    method CheckStale(now: int) returns (ghost order: seq<DroneID>)
      requires Valid()
      modifies this, repr, updates
      ensures Valid()
      ensures repr == old(repr) && drones == old(drones)
      ensures Visits(order, old(Model()).drones.Keys)
      ensures Model() == StaleAll(cfg, old(Model()), now, order)
    {
      order := [];
      var left := drones.Keys;
      ghost var r, keys := Model(), drones.Keys;
      while left != {}
        invariant Valid() && repr == old(repr) && drones == old(drones)
        invariant left <= keys && Visits(order, keys - left)
        invariant Model() == StaleAll(cfg, r, now, order)
        decreases left
      {
        var id :| id in left;
        StaleAllNext(cfg, r, now, order, id);
        VisitsNext(order, keys, left, id);
        StateHolds(id);
        CheckOne(id, now);
        left, order := left - {id}, order + [id];
      }
    }

    /** A snapshot at new addresses, all but the history. */
    method GetState(id: DroneID) returns (s: Option<Snapshot>)
      requires Valid()
      ensures Valid()
      ensures s.Some? <==> id in Model().drones
      ensures s.Some? ==> Shown(s.value) == Model().drones[id].(history := []) && s.value.history == drones[id].history
      ensures s.Some? && s.value.heartbeat != null ==> fresh(s.value.heartbeat)
      ensures s.Some? && s.value.gps != null ==> fresh(s.value.gps)
      ensures s.Some? && s.value.battery != null ==> fresh(s.value.battery)
      ensures s.Some? && s.value.attitude != null ==> fresh(s.value.attitude)
    {
      if id !in drones {
        s := None;
      } else {
        StateHolds(id);
        var clone := drones[id].Clone();
        s := Some(clone);
        forall k
          ensures DroneOK(k)
        {
          assert old(DroneOK(k));
        }
      }
    }

    /** A summary of every drone, in the map's order; each points into the state it summarises. */
    method GetAllSummaries() returns (sums: seq<Summary>, ghost order: seq<DroneID>)
      requires Valid()
      ensures Visits(order, Model().drones.Keys) && |sums| == |order|
      ensures forall i :: 0 <= i < |order| ==> Read(sums[i]) == SummaryOf(Model().drones[order[i]])
    {
      sums, order := [], [];
      var left := drones.Keys;
      ghost var keys := drones.Keys;
      while left != {}
        invariant left <= keys && Visits(order, keys - left) && |sums| == |order|
        invariant forall i :: 0 <= i < |order| ==> order[i] in values && Read(sums[i]) == SummaryOf(values[order[i]])
        decreases left
      {
        var id :| id in left;
        VisitsNext(order, keys, left, id);
        StateHolds(id);
        var sum := drones[id].ToSummary();
        sums, order, left := sums + [sum], order + [id], left - {id};
      }
    }

    /** The first match of a map iteration, whose order is the runtime's choice. */
    method GetHistory(systemID: byte, n: nat) returns (answer: Option<array<HistoryEntry>>)
      requires Valid()
      ensures HistoryAnswer(Model(), systemID, n, if answer.None? then None else Some(answer.value[..]))
    {
      var left := drones.Keys;
      while left != {}
        invariant left <= drones.Keys
        invariant forall id :: id in drones.Keys - left ==> id.systemID != systemID
        decreases left
      {
        var id :| id in left;
        if id.systemID == systemID {
          StateHolds(id);
          var entries := drones[id].history.Last(n);
          return Some(entries);
        }
        left := left - {id};
      }
      answer := None;
    }

    method Stats() returns (stats: Stats)
      requires Valid()
      ensures stats == StatsOf(Model())
    {
      var connected, armed, messages := 0, 0, 0;
      var left := drones.Keys;
      ghost var vs, keys := values, values.Keys;
      while left != {}
        invariant left <= keys
        invariant connected == |CountedIn(vs, keys - left).connected|
        invariant armed == |CountedIn(vs, keys - left).armed|
        invariant messages == Sum(CountedIn(vs, keys - left).counts)
        decreases left
      {
        var id :| id in left;
        StateHolds(id);
        if drones[id].isConnected {
          connected := connected + 1;
        }
        if drones[id].isArmed {
          armed := armed + 1;
        }
        messages := messages + drones[id].messageCount;
        CountedNext(vs, keys, left, id);
        left := left - {id};
      }
      assert keys - left == keys;
      CountedAll(Model());
      assert |drones| == |drones.Keys|;
      stats := RegistryHistory.Stats(|drones|, connected, armed, messages);
    }
  }

  // ----- what a summary says -----

  /**
    After every run a drone's summary says connected and armed exactly as its update log does; mode and vehicle type are those
    of its latest heartbeat, the position is its latest, the charge is there if known, the voltage if measured, and the
    time is that of its last event in milliseconds.
   */
  lemma SummaryFromEvents(cfg: Config, steps: seq<Step>, id: DroneID)
    requires Feasible(cfg, steps) && id in Run(cfg, steps).drones
    ensures EventsOf(steps, id) != []
    ensures var v, log, es := SummaryOf(Run(cfg, steps).drones[id]), Run(cfg, steps).log, EventsOf(steps, id);
      && v.id == id
      && (v.isConnected <==> LogSaysConnected(log, id)) && (v.isArmed <==> LogSaysArmed(log, id))
      && v.flightMode == (if LastBeat(es).None? then NoMode else Mode(LastBeat(es).value.customMode, LastBeat(es).value.baseMode))
      && v.vehicleType == (match LastHeartbeat(es).0 case None => None case Some(h) => Some(h.vehicleType))
      && v.position == LastGps(es)
      && (v.percent.Some? <==> LastBattery(es).Some? && LastBattery(es).value.remaining >= 0)
      && (v.percent.Some? ==> v.percent.value == LastBattery(es).value.remaining)
      && (v.voltage.Some? <==> LastBattery(es).Some? && LastBattery(es).value.voltage > 0)
      && (v.voltage.Some? ==> v.voltage.value == LastBattery(es).value.voltage)
      && v.lastSeenMs == es[|es| - 1].timestamp / 1_000_000
  {
    RunSummarises(cfg, steps, id);
    LogReplays(cfg, steps, id);
    RunIsSolo(cfg, steps, id);
  }

  // ----- snapshots and summaries afterwards -----

  datatype Call = ProcessCall(event: EventRef) | CheckCall(now: int) | ReceiveCall

  method Perform(m: Manager, call: Call)
    requires m.Valid()
    modifies m, m.repr, m.updates
    ensures m.Valid() && fresh(m.repr - old(m.repr))
  {
    match call {
      case ProcessCall(e) =>
        ghost var v := EventOf(e);
        var panicked := m.ProcessEvent(e, v);
      case CheckCall(now) =>
        ghost var order := m.CheckStale(now);
      case ReceiveCall =>
        m.Receive();
    }
  }

  /** Whatever is called later, every snapshot and every summary still reads as before, pointers followed. */
  method Later(m: Manager, calls: seq<Call>, s: Snapshot, sum: Summary)
    requires m.Valid()
    modifies m, m.repr, m.updates
    ensures m.Valid() && fresh(m.repr - old(m.repr))
    ensures Shown(s) == old(Shown(s)) && Read(sum) == old(Read(sum))
  {
    for i := 0 to |calls|
      invariant m.Valid() && fresh(m.repr - old(m.repr))
      invariant Shown(s) == old(Shown(s)) && Read(sum) == old(Read(sum))
    {
      PointeesNotWritten(m, s, sum);
      Perform(m, calls[i]);
    }
  }

  lemma PointeesNotWritten(m: Manager, s: Snapshot, sum: Summary)
    requires m.Valid()
    ensures s.heartbeat !in m.repr && s.gps !in m.repr && s.battery !in m.repr && s.attitude !in m.repr
    ensures sum.position !in m.repr && sum.batteryPercent !in m.repr && sum.batteryVoltage !in m.repr
  {
    m.NotWritten(s.heartbeat);
    m.NotWritten(s.gps);
    m.NotWritten(s.battery);
    m.NotWritten(s.attitude);
    m.NotWritten(sum.position);
    m.NotWritten(sum.batteryPercent);
    m.NotWritten(sum.batteryVoltage);
  }

  lemma PositionRecorded(cfg: Config, r: Reg, v: Event, g: Gps)
    requires v.id in r.drones && v.payload == GpsPayload(Some(g))
    ensures v.id in Process(cfg, r, v).drones
    ensures var before, after := r.drones[v.id].history, Process(cfg, r, v).drones[v.id].history;
      && |after| == (if |before| < Capacity(cfg) then |before| + 1 else Capacity(cfg))
      && after[|after| - 1].timestamp == v.timestamp && after[|after| - 1].latitude == g.latitude
  {
    var o := OnEvent(cfg, Some(r.drones[v.id]), v);
    EmitsOnly(cfg, r.(drones := r.drones[v.id := o.drone]), o.updates);
  }

  /** Not so the history a snapshot shares with the state: the drone's next position shows up in it. */
  method HistoryIsLive(m: Manager, e: EventRef, s: Snapshot)
    requires m.Valid() && e.id in m.drones && s.history == m.drones[e.id].history
    requires e.payload.GpsRef? && e.payload.gps != null
    modifies m, m.repr, m.updates
    ensures m.Valid()
    ensures var before, now := old(s.history.contents), s.history.contents;
      && |now| == (if |before| < Capacity(m.cfg) then |before| + 1 else Capacity(m.cfg))
      && now[|now| - 1].timestamp == e.timestamp && now[|now| - 1].latitude == e.payload.gps.value.latitude
  {
    ghost var v := EventOf(e);
    ghost var r := m.Model();
    ghost var g := e.payload.gps.value;
    m.NotWritten(e.payload.gps);
    m.StateHolds(e.id);
    assert s.history.contents == r.drones[e.id].history;
    PositionRecorded(m.cfg, r, v, g);
    var panicked := m.ProcessEvent(e, v);
    m.StateHolds(e.id);
    assert s.history.contents == m.values[e.id].history;
  }

  /** What Stats has counted after visiting some drones. */
  datatype Counted = Counted(connected: set<DroneID>, armed: set<DroneID>, counts: map<DroneID, nat>)

  ghost function CountedIn(values: map<DroneID, Drone>, done: set<DroneID>): Counted
    requires done <= values.Keys
  {
    Counted(set k | k in done && values[k].isConnected, set k | k in done && values[k].isArmed,
            map k | k in done :: values[k].messageCount)
  }

  lemma CountedNext(values: map<DroneID, Drone>, keys: set<DroneID>, left: set<DroneID>, id: DroneID)
    requires keys <= values.Keys && left <= keys && id in left
    ensures var c, d, v := CountedIn(values, keys - left), CountedIn(values, keys - (left - {id})), values[id];
      && |d.connected| == |c.connected| + (if v.isConnected then 1 else 0)
      && |d.armed| == |c.armed| + (if v.isArmed then 1 else 0)
      && Sum(d.counts) == Sum(c.counts) + v.messageCount
  {
    var done := keys - left;
    assert keys - (left - {id}) == done + {id};
    FlagsNext(values, done, id);
    assert CountedIn(values, done + {id}).counts == CountedIn(values, done).counts[id := values[id].messageCount];
    SumUpdate(CountedIn(values, done).counts, id, values[id].messageCount);
  }

  lemma FlagsNext(values: map<DroneID, Drone>, done: set<DroneID>, id: DroneID)
    requires done <= values.Keys && id in values && id !in done
    ensures var c, d, v := CountedIn(values, done), CountedIn(values, done + {id}), values[id];
      && |d.connected| == |c.connected| + (if v.isConnected then 1 else 0)
      && |d.armed| == |c.armed| + (if v.isArmed then 1 else 0)
  {
    var c, d, v := CountedIn(values, done), CountedIn(values, done + {id}), values[id];
    assert d.connected == if v.isConnected then c.connected + {id} else c.connected;
    assert d.armed == if v.isArmed then c.armed + {id} else c.armed;
  }

  lemma CountedAll(r: Reg)
    ensures var c := CountedIn(r.drones, r.drones.Keys);
      StatsOf(r) == RegistryHistory.Stats(|r.drones.Keys|, |c.connected|, |c.armed|, Sum(c.counts))
  {
    var c := CountedIn(r.drones, r.drones.Keys);
    assert c.connected == ConnectedIn(r) && c.armed == ArmedIn(r) && c.counts == Counts(r);
  }

  lemma VisitsNext(order: seq<DroneID>, keys: set<DroneID>, left: set<DroneID>, id: DroneID)
    requires left <= keys && id in left && Visits(order, keys - left)
    ensures Visits(order + [id], keys - (left - {id}))
  {}

  lemma StaleAllNext(cfg: Config, r: Reg, now: int, order: seq<DroneID>, id: DroneID)
    requires id in r.drones && forall k :: k in order ==> k in r.drones
    ensures StaleAll(cfg, r, now, order).drones.Keys == r.drones.Keys
    ensures StaleAll(cfg, r, now, order + [id]) == StaleOne(cfg, StaleAll(cfg, r, now, order), now, id)
  {
    StaleKeeps(cfg, r, now, order);
    assert (order + [id])[..|order|] == order;
  }

  /** The registry after the first half of ProcessEvent, update by update. */
  ghost function Arrived(cfg: Config, r: Reg, e: Event): Reg {
    Reconnected(cfg,
                if e.id in r.drones then r
                else Registry.Emit(cfg, r.(drones := r.drones[e.id := NewDrone(e)]), Note(NewDrone(e), e.timestamp, New)),
                e.id, e.timestamp)
  }

  ghost function Reconnected(cfg: Config, r: Reg, id: DroneID, timestamp: int): Reg
    requires id in r.drones
  {
    var d := r.drones[id].(isConnected := true);
    if r.drones[id].isConnected then r
    else Registry.Emit(cfg, r.(drones := r.drones[id := d]), Note(d, timestamp, Kind.Reconnect))
  }

  lemma {:induction false} EmitAllLast(cfg: Config, r: Reg, us: seq<Update>, u: Update)
    ensures EmitAll(cfg, r, us + [u]) == Registry.Emit(cfg, EmitAll(cfg, r, us), u)
    decreases |us|
  {
    if us == [] {
      assert [u][1..] == [];
    } else {
      EmitAllLast(cfg, Registry.Emit(cfg, r, us[0]), us[1..], u);
      assert (us + [u])[1..] == us[1..] + [u];
    }
  }

  lemma {:induction false} EmitKeepsApart(cfg: Config, r: Reg, us: seq<Update>, ds: map<DroneID, Drone>)
    ensures EmitAll(cfg, r.(drones := ds), us) == EmitAll(cfg, r, us).(drones := ds)
    decreases |us|
  {
    if us == [] {
    } else {
      EmitKeepsApart(cfg, Registry.Emit(cfg, r, us[0]), us[1..], ds);
      assert Registry.Emit(cfg, r.(drones := ds), us[0]) == Registry.Emit(cfg, r, us[0]).(drones := ds);
    }
  }

  /** The drone as it is when the first half is over. */
  function Here(prev: Option<Drone>, e: Event): Drone {
    (if prev.None? then NewDrone(e) else prev.value).(isConnected := true)
  }

  lemma ArrivedIs(cfg: Config, r: Reg, e: Event)
    ensures Arrived(cfg, r, e)
         == EmitAll(cfg, r, Seen(Get(r, e.id), e).updates).(drones := r.drones[e.id := Here(Get(r, e.id), e)])
  {
    if e.id !in r.drones {
      var u := Note(NewDrone(e), e.timestamp, New);
      EmitAllLast(cfg, r, [], u);
      assert [] + [u] == [u];
    } else {
      var d := r.drones[e.id];
      var u := Note(d.(isConnected := true), e.timestamp, Reconnect);
      EmitAllLast(cfg, r, [], u);
      assert [] + [u] == [u];
      if d.isConnected {
        assert d.(isConnected := true) == d;
        assert r.drones[e.id := d] == r.drones;
      }
    }
  }

  /** The second half: the payload applied to a drone `d` already touched, and the last update. */
  ghost function Finished(cfg: Config, r: Reg, e: Event, d: Drone): Reg {
    var o := Applied(cfg, d, e);
    var b := r.(drones := r.drones[e.id := o.0]);
    if o.2 then b else Registry.Emit(cfg, b, Note(o.0, e.timestamp, o.1))
  }

  /** The drone when its payload comes to be applied. */
  ghost function TouchedOn(cfg: Config, r: Reg, e: Event): Drone {
    Touched(Arrived(cfg, r, e).drones[e.id], e)
  }

  /** ProcessEvent with each update emitted when the state reaches it. */
  ghost function InOrder(cfg: Config, r: Reg, e: Event): Reg {
    Finished(cfg, Arrived(cfg, r, e), e, TouchedOn(cfg, r, e))
  }

  /** Emitting as the state changes comes to the same as changing it first. */
  lemma ProcessInOrder(cfg: Config, r: Reg, e: Event)
    ensures OnEvent(cfg, Get(r, e.id), e).panicked == Applied(cfg, TouchedOn(cfg, r, e), e).2
    ensures Process(cfg, r, e) == InOrder(cfg, r, e)
  {
    var a, seen := Arrived(cfg, r, e), Seen(Get(r, e.id), e);
    var (d, kind, panicked) := Applied(cfg, TouchedOn(cfg, r, e), e);
    ArrivedIs(cfg, r, e);
    var ds := r.drones[e.id := d];
    assert a.drones[e.id := d] == ds;
    var u := Note(d, e.timestamp, kind);
    SameOutcome(cfg, Get(r, e.id), e, d, kind, panicked);
    EmitKeepsApart(cfg, r, seen.updates, ds);
    EmitKeepsApart(cfg, r, seen.updates + [u], ds);
    EmitAllLast(cfg, r.(drones := ds), seen.updates, u);
  }

  lemma SameOutcome(cfg: Config, prev: Option<Drone>, e: Event, d: Drone, kind: Kind, panicked: bool)
    requires (d, kind, panicked) == Applied(cfg, Touched(Here(prev, e), e), e)
    ensures var seen := Seen(prev, e);
      OnEvent(cfg, prev, e)
      == Outcome(d, if panicked then seen.updates else seen.updates + [Note(d, e.timestamp, kind)], panicked)
  {
    assert Seen(prev, e).drone == Touched(Here(prev, e), e);
  }

  lemma StaleOneIs(cfg: Config, r: Reg, now: int, id: DroneID)
    requires id in r.drones
    ensures var d := r.drones[id].(isConnected := false);
      StaleOne(cfg, r, now, id)
      == if Stale(cfg, r.drones[id], now)
         then Registry.Emit(cfg, r.(drones := r.drones[id := d]), Note(d, now, Disconnect)) else r
  {
    var d := r.drones[id].(isConnected := false);
    var u := Note(d, now, Disconnect);
    EmitAllLast(cfg, r.(drones := r.drones[id := d]), [], u);
    assert [] + [u] == [u];
    assert r.drones[id := r.drones[id]] == r.drones;
  }
}
