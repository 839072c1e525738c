/** What each step of the registry reports, and what becomes of the reports in the bounded update channel. */
module RegistryUpdates {
  import opened Telemetry
  import opened Collections
  import opened Registry
  import opened RegistryLaws

  // ----- what is reported -----

  /** What is reported of a drone before its event is looked at: that it is new, or back. */
  function Announced(prev: Option<Drone>, e: Event): seq<Update> {
    if prev.None? then
      [Update(e.id, e.timestamp, New,
              Drone(e.id, e.sourceAddr, e.timestamp, e.timestamp, 0, None, None, None, None, true, false, NoMode, [], 0))]
    else if !prev.value.isConnected then [Update(e.id, e.timestamp, Reconnect, prev.value.(isConnected := true))]
    else []
  }

  function ArmedNow(was: bool, now: bool): Kind {
    if now && !was then Armed else if was && !now then Disarmed else Telemetry
  }

  lemma OutcomeReported(cfg: Config, prev: Option<Drone>, e: Event)
    requires prev.Some? ==> prev.value.id == e.id
    ensures var o := OnEvent(cfg, prev, e);
      o.updates == Announced(prev, e) +
        (if NilDereferenced(e.payload) then []
         else [Update(e.id, e.timestamp, ArmedNow(prev.Some? && prev.value.isArmed, o.drone.isArmed), o.drone)])
  {
    SeenReported(prev, e);
    AppliedReported(cfg, Seen(prev, e).drone, e);
    var o := OnEvent(cfg, prev, e);
    assert o.panicked ==> o.updates == Announced(prev, e) + [];
  }

  lemma SeenReported(prev: Option<Drone>, e: Event)
    requires prev.Some? ==> prev.value.id == e.id
    ensures Seen(prev, e).updates == Announced(prev, e)
    ensures Seen(prev, e).drone.id == e.id && (Seen(prev, e).drone.isArmed <==> prev.Some? && prev.value.isArmed)
  {}

  lemma AppliedReported(cfg: Config, d: Drone, e: Event)
    ensures var o := Applied(cfg, d, e);
      o.0.id == d.id && (o.2 <==> NilDereferenced(e.payload)) && (!o.2 ==> o.1 == ArmedNow(d.isArmed, o.0.isArmed))
  {}

  /**
    After every run, an event adds to the log: that the drone is new or back, if it is, with its state as it was up to then;
    and, unless its payload is a nil heartbeat or position, its own update, last, with the state it led to. All bear its time.
   */
  lemma EventReported(cfg: Config, steps: seq<Step>, e: Event)
    requires Feasible(cfg, steps + [EventStep(e)])
    ensures Feasible(cfg, steps)
    ensures var r, n, before := Run(cfg, steps), Run(cfg, steps + [EventStep(e)]), Get(Run(cfg, steps), e.id);
      && e.id in n.drones
      && n.log == r.log + Announced(before, e) +
           (if NilDereferenced(e.payload) then []
            else [Update(e.id, e.timestamp, ArmedNow(before.Some? && before.value.isArmed, n.drones[e.id].isArmed), n.drones[e.id])])
  {
    assert (steps + [EventStep(e)])[..|steps|] == steps;
    var r := Run(cfg, steps);
    RunIsSolo(cfg, steps, e.id);
    var o := OnEvent(cfg, Get(r, e.id), e);
    OutcomeReported(cfg, Get(r, e.id), e);
    EmitsOnly(cfg, r.(drones := r.drones[e.id := o.drone]), o.updates);
    assert Run(cfg, steps + [EventStep(e)]) == Process(cfg, r, e);
  }

  lemma {:induction false} StaleLogGrows(cfg: Config, r: Reg, now: int, order: seq<DroneID>)
    requires forall id :: id in order ==> id in r.drones
    ensures r.log <= StaleAll(cfg, r, now, order).log
    decreases |order|
  {
    if order == [] {
    } else {
      var n := |order| - 1;
      StaleLogGrows(cfg, r, now, order[..n]);
      StaleKeeps(cfg, r, now, order[..n]);
      var s := StaleAll(cfg, r, now, order[..n]);
      var o := OnStale(cfg, s.drones[order[n]], now);
      EmitsOnly(cfg, s.(drones := s.drones[order[n] := o.drone]), o.updates);
    }
  }

  /**
    After every run, a stale check adds to the log one Disconnect, with the check's time and the drone marked disconnected, for
    exactly the connected drones silent beyond the threshold.
   */
  lemma StaleReported(cfg: Config, steps: seq<Step>, now: int, order: seq<DroneID>, id: DroneID)
    requires Feasible(cfg, steps + [StaleStep(now, order)])
    ensures Feasible(cfg, steps)
    ensures var r, n := Run(cfg, steps), Run(cfg, steps + [StaleStep(now, order)]);
      && r.log <= n.log
      && About(n.log[|r.log|..], id) ==
           if id in r.drones && r.drones[id].isConnected && now - r.drones[id].lastSeen > cfg.staleThreshold
           then [Update(id, now, Disconnect, r.drones[id].(isConnected := false))] else []
  {
    var all := steps + [StaleStep(now, order)];
    assert all[..|steps|] == steps;
    var r, n := Run(cfg, steps), Run(cfg, all);
    StaleLogGrows(cfg, r, now, order);
    var us := n.log[|r.log|..];
    assert n.log == r.log + us;
    AboutAppend(r.log, us, id);
    RunIsSolo(cfg, steps, id);
    RunIsSolo(cfg, all, id);
    StaleShare(cfg, SoloRun(cfg, id, steps), now);
    assert About(us, id) == About(n.log, id)[|About(r.log, id)|..];
  }

  lemma StaleShare(cfg: Config, s: Solo, now: int)
    ensures s.drone.Some? ==>
      OnStale(cfg, s.drone.value, now).updates ==
        if s.drone.value.isConnected && now - s.drone.value.lastSeen > cfg.staleThreshold
        then [Update(s.drone.value.id, now, Disconnect, s.drone.value.(isConnected := false))] else []
  {}

  // ----- what gets through the channel -----

  function Min(a: int, b: int): int {
    if a <= b then a else b
  }

  /** The new updates were put into the channel as long as there was room; only the rest was dropped. */
  ghost predicate FilledUp(cap: nat, r: Reg, n: Reg) {
    && n.received == r.received && r.log <= n.log && |r.channel| <= cap
    && var us := n.log[|r.log|..];
       var k := Min(|us|, cap - |r.channel|);
       n.channel == r.channel + us[..k] && n.dropped == r.dropped + |us| - k
  }

  lemma FilledTwice(cap: nat, r: Reg, m: Reg, n: Reg)
    requires FilledUp(cap, r, m) && FilledUp(cap, m, n)
    ensures FilledUp(cap, r, n)
  {
    var us, vs, all := m.log[|r.log|..], n.log[|m.log|..], n.log[|r.log|..];
    assert all == us + vs;
    var k, l := Min(|us|, cap - |r.channel|), Min(|vs|, cap - |m.channel|);
    assert k < |us| ==> l == 0;
    assert all[..Min(|all|, cap - |r.channel|)] == us[..k] + vs[..l];
  }

  lemma EmitFills(cfg: Config, r: Reg, u: Update)
    requires |r.channel| <= cfg.channelCap
    ensures FilledUp(cfg.channelCap, r, Emit(cfg, r, u))
  {
    assert (r.log + [u])[|r.log|..] == [u];
  }

  lemma {:induction false} EmitAllFills(cfg: Config, r: Reg, us: seq<Update>)
    requires |r.channel| <= cfg.channelCap
    ensures FilledUp(cfg.channelCap, r, EmitAll(cfg, r, us))
    decreases |us|
  {
    if us == [] {
      assert r.log[|r.log|..] == [];
    } else {
      EmitFills(cfg, r, us[0]);
      EmitAllFills(cfg, Emit(cfg, r, us[0]), us[1..]);
      FilledTwice(cfg.channelCap, r, Emit(cfg, r, us[0]), EmitAll(cfg, r, us));
    }
  }

  lemma {:induction false} StaleAllFills(cfg: Config, r: Reg, now: int, order: seq<DroneID>)
    requires |r.channel| <= cfg.channelCap && forall id :: id in order ==> id in r.drones
    ensures FilledUp(cfg.channelCap, r, StaleAll(cfg, r, now, order))
    decreases |order|
  {
    if order == [] {
      assert r.log[|r.log|..] == [];
    } else {
      var n := |order| - 1;
      StaleAllFills(cfg, r, now, order[..n]);
      StaleKeeps(cfg, r, now, order[..n]);
      var s := StaleAll(cfg, r, now, order[..n]);
      var o := OnStale(cfg, s.drones[order[n]], now);
      var t := s.(drones := s.drones[order[n] := o.drone]);
      EmitAllFills(cfg, t, o.updates);
      assert FilledUp(cfg.channelCap, s, EmitAll(cfg, t, o.updates));
      FilledTwice(cfg.channelCap, r, s, EmitAll(cfg, t, o.updates));
    }
  }

  /** Every step but the consumer's fills the channel up and drops only what does not fit; the consumer takes the oldest update. */
  lemma ChannelStep(cfg: Config, steps: seq<Step>, s: Step)
    requires Feasible(cfg, steps + [s])
    ensures Feasible(cfg, steps)
    ensures var r, n := Run(cfg, steps), Run(cfg, steps + [s]);
      if s.ReceiveStep? then
        n.log == r.log && n.dropped == r.dropped && n.received + n.channel == r.received + r.channel
        && |n.received| == |r.received| + Min(1, |r.channel|)
      else FilledUp(cfg.channelCap, r, n)
  {
    assert (steps + [s])[..|steps|] == steps;
    var r := Run(cfg, steps);
    ChannelIsSubsequence(cfg, steps);
    match s
    case EventStep(e) =>
      var o := OnEvent(cfg, Get(r, e.id), e);
      EmitAllFills(cfg, r.(drones := r.drones[e.id := o.drone]), o.updates);
    case StaleStep(now, order) =>
      StaleAllFills(cfg, r, now, order);
    case ReceiveStep =>
      if r.channel != [] {
        assert r.received + [r.channel[0]] + r.channel[1..] == r.received + r.channel;
      }
  }

  /** In every run, a step that drops an update leaves the channel full. */
  lemma DropsWhenFull(cfg: Config, steps: seq<Step>, s: Step)
    requires Feasible(cfg, steps + [s])
    ensures Feasible(cfg, steps)
    ensures Run(cfg, steps + [s]).dropped > Run(cfg, steps).dropped ==> |Run(cfg, steps + [s]).channel| == cfg.channelCap
  {
    ChannelStep(cfg, steps, s);
  }

  /** The updates not yet received never exceeded the capacity. */
  ghost predicate KeptUp(cfg: Config, steps: seq<Step>)
    requires Feasible(cfg, steps)
    decreases |steps|
  {
    && |Run(cfg, steps).log| - |Run(cfg, steps).received| <= cfg.channelCap
    && (steps == [] || KeptUp(cfg, steps[..|steps| - 1]))
  }

  /** A run drops nothing if and only if its consumer kept up; then what was received and what waits is all that was emitted. */
  lemma {:induction false} NothingDroppedIff(cfg: Config, steps: seq<Step>)
    requires Feasible(cfg, steps)
    ensures Run(cfg, steps).dropped == 0 <==> KeptUp(cfg, steps)
    ensures Run(cfg, steps).dropped == 0 ==> Run(cfg, steps).received + Run(cfg, steps).channel == Run(cfg, steps).log
  {
    ChannelIsSubsequence(cfg, steps);
    var r := Run(cfg, steps);
    if r.dropped == 0 {
      SubsequenceShorter(r.received + r.channel, r.log);
    }
    if steps == [] {
    } else {
      var n := |steps| - 1;
      assert steps == steps[..n] + [steps[n]];
      NothingDroppedIff(cfg, steps[..n]);
      ChannelIsSubsequence(cfg, steps[..n]);
      ChannelStep(cfg, steps[..n], steps[n]);
    }
  }
}
