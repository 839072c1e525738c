/** What holds of the registry after every run. */
module RegistryLaws {
  import opened Telemetry
  import opened Collections
  import opened Registry

  // ----- every run agrees with a fold over each drone's own steps -----

  /** One drone on its own: its state, if registered, and the updates emitted for it. */
  datatype Solo = Solo(drone: Option<Drone>, updates: seq<Update>)

  function SoloStep(cfg: Config, id: DroneID, s: Solo, step: Step): Solo {
    match step
    case EventStep(e) =>
      if e.id != id then s
      else
        var o := OnEvent(cfg, s.drone, e);
        Solo(Some(o.drone), s.updates + o.updates)
    case StaleStep(now, _) =>
      if s.drone.None? then s
      else
        var o := OnStale(cfg, s.drone.value, now);
        Solo(Some(o.drone), s.updates + o.updates)
    case ReceiveStep => s
  }

  function SoloRun(cfg: Config, id: DroneID, steps: seq<Step>): Solo {
    if steps == [] then Solo(None, [])
    else SoloStep(cfg, id, SoloRun(cfg, id, steps[..|steps| - 1]), steps[|steps| - 1])
  }

  /** The updates of a log that concern one drone. */
  function About(log: seq<Update>, id: DroneID): seq<Update> {
    if log == [] then []
    else
      var n := |log| - 1;
      About(log[..n], id) + (if log[n].id == id then [log[n]] else [])
  }

  lemma {:induction false} AboutAppend(x: seq<Update>, y: seq<Update>, id: DroneID)
    ensures About(x + y, id) == About(x, id) + About(y, id)
  {
    if y == [] {
      assert x + y == x;
    } else {
      var n := |y| - 1;
      assert (x + y)[..|x + y| - 1] == x + y[..n];
      AboutAppend(x, y[..n], id);
    }
  }

  lemma {:induction false} AboutSame(us: seq<Update>, owner: DroneID, id: DroneID)
    requires forall u :: u in us ==> u.id == owner
    ensures About(us, id) == if owner == id then us else []
  {
    if us == [] {
    } else {
      var n := |us| - 1;
      AboutSame(us[..n], owner, id);
      assert us == us[..n] + [us[n]] && us[n] in us;
    }
  }

  lemma EventUpdatesOwn(cfg: Config, prev: Option<Drone>, e: Event)
    requires prev.Some? ==> prev.value.id == e.id
    ensures OnEvent(cfg, prev, e).drone.id == e.id
    ensures forall u :: u in OnEvent(cfg, prev, e).updates ==> u.id == e.id
  {}

  /** What the registry and the log say about one drone. */
  ghost predicate Agrees(r: Reg, id: DroneID, s: Solo) {
    && Get(r, id) == s.drone
    && About(r.log, id) == s.updates
    && (s.drone.Some? ==> s.drone.value.id == id)
  }

  /** A drone's new state and its updates concern that drone only. */
  lemma EmitAgrees(cfg: Config, r: Reg, id: DroneID, s: Solo, k: DroneID, d: Drone, us: seq<Update>)
    requires Agrees(r, id, s) && d.id == k && forall u :: u in us ==> u.id == k
    ensures var n := EmitAll(cfg, r.(drones := r.drones[k := d]), us);
      Agrees(n, id, if k == id then Solo(Some(d), s.updates + us) else s) && n.drones == r.drones[k := d]
  {
    EmitsOnly(cfg, r.(drones := r.drones[k := d]), us);
    AboutAppend(r.log, us, id);
    AboutSame(us, k, id);
  }

  lemma ProcessAgrees(cfg: Config, r: Reg, id: DroneID, s: Solo, e: Event)
    requires Agrees(r, id, s) && forall k :: k in r.drones ==> r.drones[k].id == k
    ensures Agrees(Process(cfg, r, e), id, SoloStep(cfg, id, s, EventStep(e)))
  {
    var o := OnEvent(cfg, Get(r, e.id), e);
    EventUpdatesOwn(cfg, Get(r, e.id), e);
    EmitAgrees(cfg, r, id, s, e.id, o.drone, o.updates);
  }

  lemma StaleUpdatesOwn(cfg: Config, d: Drone, now: int)
    ensures OnStale(cfg, d, now).drone.id == d.id
    ensures forall u :: u in OnStale(cfg, d, now).updates ==> u.id == d.id
  {}

  lemma StaleOneAgrees(cfg: Config, r: Reg, id: DroneID, s: Solo, now: int, order: seq<DroneID>, k: DroneID)
    requires Agrees(r, id, s) && k in r.drones && r.drones[k].id == k
    ensures Agrees(StaleOne(cfg, r, now, k), id, if k == id then SoloStep(cfg, id, s, StaleStep(now, order)) else s)
    ensures StaleOne(cfg, r, now, k).drones == r.drones[k := OnStale(cfg, r.drones[k], now).drone]
  {
    var o := OnStale(cfg, r.drones[k], now);
    StaleUpdatesOwn(cfg, r.drones[k], now);
    EmitAgrees(cfg, r, id, s, k, o.drone, o.updates);
  }

  /** A stale check reaches each drone once, whatever the order. */
  lemma {:induction false} StaleAgrees(cfg: Config, r: Reg, id: DroneID, s: Solo, now: int, order: seq<DroneID>)
    requires Agrees(r, id, s) && forall k :: k in r.drones ==> r.drones[k].id == k
    requires forall k :: k in order ==> k in r.drones
    requires forall i, j :: 0 <= i < j < |order| ==> order[i] != order[j]
    ensures Agrees(StaleAll(cfg, r, now, order), id, if id in order then SoloStep(cfg, id, s, StaleStep(now, order)) else s)
    ensures forall k :: k in StaleAll(cfg, r, now, order).drones ==> StaleAll(cfg, r, now, order).drones[k].id == k
    decreases |order|
  {
    if order == [] {
    } else {
      var n := |order| - 1;
      StaleAgrees(cfg, r, id, s, now, order[..n]);
      StaleKeeps(cfg, r, now, order[..n]);
      var t := StaleAll(cfg, r, now, order[..n]);
      var s' := if id in order[..n] then SoloStep(cfg, id, s, StaleStep(now, order[..n])) else s;
      StaleOneAgrees(cfg, t, id, s', now, order, order[n]);
      assert order == order[..n] + [order[n]];
      assert order[n] !in order[..n];
    }
  }

  /**
    In every run and for every drone, the registry's state and the drone's share of the update log
    are those of the drone alone: other drones' events do not interfere.
   */
  lemma {:induction false} RunIsSolo(cfg: Config, steps: seq<Step>, id: DroneID)
    requires Feasible(cfg, steps)
    ensures Agrees(Run(cfg, steps), id, SoloRun(cfg, id, steps))
    ensures forall k :: k in Run(cfg, steps).drones ==> Run(cfg, steps).drones[k].id == k
  {
    if steps == [] {
    } else {
      var n := |steps| - 1;
      RunIsSolo(cfg, steps[..n], id);
      var r, s := Run(cfg, steps[..n]), SoloRun(cfg, id, steps[..n]);
      match steps[n]
      case EventStep(e) =>
        ProcessAgrees(cfg, r, id, s, e);
        var o := OnEvent(cfg, Get(r, e.id), e);
        EmitsOnly(cfg, r.(drones := r.drones[e.id := o.drone]), o.updates);
        EventUpdatesOwn(cfg, Get(r, e.id), e);
      case StaleStep(now, order) =>
        StaleAgrees(cfg, r, id, s, now, order);
      case ReceiveStep =>
    }
  }

  /** The steps that can concern a drone: its own events and the times of the stale checks. */
  function Own(steps: seq<Step>, id: DroneID): seq<Step> {
    if steps == [] then []
    else
      var n := |steps| - 1;
      Own(steps[..n], id) +
      (match steps[n]
       case EventStep(e) => if e.id == id then [steps[n]] else []
       case StaleStep(now, _) => [StaleStep(now, [])]
       case ReceiveStep => [])
  }

  /**
    Non-interference: two runs with the same own events and the same times of stale checks agree on the drone,
    whatever other drones there are and in whatever order the checks visit them.
   */
  lemma NonInterference(cfg: Config, x: seq<Step>, y: seq<Step>, id: DroneID)
    requires Feasible(cfg, x) && Feasible(cfg, y) && Own(x, id) == Own(y, id)
    ensures Get(Run(cfg, x), id) == Get(Run(cfg, y), id)
    ensures About(Run(cfg, x).log, id) == About(Run(cfg, y).log, id)
  {
    RunIsSolo(cfg, x, id);
    RunIsSolo(cfg, y, id);
    SoloOwn(cfg, x, id);
    SoloOwn(cfg, y, id);
  }

  lemma {:induction false} SoloOwn(cfg: Config, steps: seq<Step>, id: DroneID)
    ensures SoloRun(cfg, id, steps) == SoloRun(cfg, id, Own(steps, id))
  {
    if steps == [] {
    } else {
      var n := |steps| - 1;
      SoloOwn(cfg, steps[..n], id);
      var before := Own(steps[..n], id);
      assert (before + [steps[n]])[..|before|] == before;
      assert before + [] == before;
    }
  }

  // ----- the update log -----

  /** What a listener can reconstruct from the kinds of a drone's updates alone. */
  datatype Phase = Unknown | Known(connected: bool, armed: bool) | Broken

  function Advance(p: Phase, k: Kind): Phase {
    match (p, k)
    case (Unknown, New) => Known(true, false)
    case (Known(true, a), Telemetry) => p
    case (Known(true, false), Armed) => Known(true, true)
    case (Known(true, true), Disarmed) => Known(true, false)
    case (Known(true, a), Disconnect) => Known(false, a)
    case (Known(false, a), Reconnect) => Known(true, a)
    case _ => Broken
  }

  function Replay(us: seq<Update>): Phase {
    if us == [] then Unknown else Advance(Replay(us[..|us| - 1]), us[|us| - 1].kind)
  }

  lemma {:induction false} ReplayAppend(us: seq<Update>, u: Update)
    ensures Replay(us + [u]) == Advance(Replay(us), u.kind)
  {
    assert (us + [u])[..|us|] == us;
  }

  function PhaseOf(d: Option<Drone>): Phase {
    if d.None? then Unknown else Known(d.value.isConnected, d.value.isArmed)
  }

  lemma SoloStepReplays(cfg: Config, id: DroneID, s: Solo, step: Step)
    requires Replay(s.updates) == PhaseOf(s.drone)
    ensures Replay(SoloStep(cfg, id, s, step).updates) == PhaseOf(SoloStep(cfg, id, s, step).drone)
  {
    match step
    case EventStep(e) =>
      if e.id == id {
        EventReplays(cfg, s, e);
      }
    case StaleStep(now, _) =>
      if s.drone.Some? {
        var o := OnStale(cfg, s.drone.value, now);
        if Stale(cfg, s.drone.value, now) {
          ReplayAppend(s.updates, o.updates[0]);
        } else {
          assert s.updates + o.updates == s.updates;
        }
      }
    case ReceiveStep =>
  }

  lemma EventReplays(cfg: Config, s: Solo, e: Event)
    requires Replay(s.updates) == PhaseOf(s.drone)
    ensures Replay(s.updates + OnEvent(cfg, s.drone, e).updates) == PhaseOf(Some(OnEvent(cfg, s.drone, e).drone))
  {
    var seen := Seen(s.drone, e);
    var us := s.updates + seen.updates;
    SeenReplays(s, e);
    var (d, kind, panicked) := Applied(cfg, seen.drone, e);
    AppliedPhase(cfg, seen.drone, e);
    if !panicked {
      ReplayAppend(us, Note(d, e.timestamp, kind));
      assert us + [Note(d, e.timestamp, kind)] == s.updates + OnEvent(cfg, s.drone, e).updates;
    }
  }

  lemma SeenReplays(s: Solo, e: Event)
    requires Replay(s.updates) == PhaseOf(s.drone)
    ensures Replay(s.updates + Seen(s.drone, e).updates) == Known(true, Seen(s.drone, e).drone.isArmed)
    ensures Seen(s.drone, e).drone.isConnected
  {
    SeenKinds(s.drone, e);
    ReplayOne(s.updates, Seen(s.drone, e).updates);
  }

  lemma ReplayOne(log: seq<Update>, us: seq<Update>)
    requires |us| <= 1
    ensures Replay(log + us) == if us == [] then Replay(log) else Advance(Replay(log), us[0].kind)
  {
    if us == [] {
      assert log + us == log;
    } else {
      assert us == [us[0]];
      ReplayAppend(log, us[0]);
    }
  }

  /** A drone that is new or back is reported as that, once; its armed flag is not touched. */
  lemma SeenKinds(prev: Option<Drone>, e: Event)
    ensures var o := Seen(prev, e);
      && o.drone.isConnected && |o.updates| <= 1
      && (o.drone.isArmed <==> prev.Some? && prev.value.isArmed)
      && (o.updates == [] <==> prev.Some? && prev.value.isConnected)
      && (o.updates != [] ==> o.updates[0].kind == if prev.None? then New else Reconnect)
  {}

  lemma AppliedPhase(cfg: Config, d: Drone, e: Event)
    ensures var (d', kind, panicked) := Applied(cfg, d, e);
      && d'.isConnected == d.isConnected
      && (panicked ==> d'.isArmed == d.isArmed)
      && (!panicked ==> Advance(Known(true, d.isArmed), kind) == Known(true, d'.isArmed))
  {}

  lemma {:induction false} SoloReplays(cfg: Config, id: DroneID, steps: seq<Step>)
    ensures Replay(SoloRun(cfg, id, steps).updates) == PhaseOf(SoloRun(cfg, id, steps).drone)
  {
    if steps == [] {
    } else {
      SoloReplays(cfg, id, steps[..|steps| - 1]);
      SoloStepReplays(cfg, id, SoloRun(cfg, id, steps[..|steps| - 1]), steps[|steps| - 1]);
    }
  }

  /** After every run, replaying a drone's updates gives its connected and armed flags; in particular the log is well formed. */
  lemma LogReplays(cfg: Config, steps: seq<Step>, id: DroneID)
    requires Feasible(cfg, steps)
    ensures Replay(About(Run(cfg, steps).log, id)) == PhaseOf(Get(Run(cfg, steps), id))
    ensures Replay(About(Run(cfg, steps).log, id)) != Broken
  {
    RunIsSolo(cfg, steps, id);
    SoloReplays(cfg, id, steps);
  }

  /** What well-formedness means: New comes first and only first. */
  lemma {:induction false} NewFirst(us: seq<Update>)
    requires Replay(us) != Broken
    ensures Replay(us) == Unknown <==> us == []
    ensures forall i :: 0 <= i < |us| ==> (us[i].kind == New <==> i == 0)
  {
    if us == [] {
    } else {
      NewFirst(us[..|us| - 1]);
    }
  }

  /** Update i is an `on` update, and no `off` one follows it before j. */
  ghost predicate Unanswered(us: seq<Update>, i: nat, j: nat, on: Kind, off: Kind)
    requires j <= |us|
  {
    i < j && us[i].kind == on && forall k :: i < k < j ==> us[k].kind != off
  }

  /** Before j, some `on` update has not been answered by an `off` one. */
  ghost predicate OpenBefore(us: seq<Update>, j: nat, on: Kind, off: Kind)
    requires j <= |us|
  {
    exists i :: Unanswered(us, i, j, on, off)
  }

  /** Some `off` update follows update i before j. */
  ghost predicate Answered(us: seq<Update>, i: nat, j: nat, off: Kind)
    requires j <= |us|
  {
    exists k :: i < k < j && us[k].kind == off
  }

  /** Before j, every `on` update has been answered by an `off` one. */
  ghost predicate ClosedBefore(us: seq<Update>, j: nat, on: Kind, off: Kind)
    requires j <= |us|
  {
    forall i: nat {:trigger Answered(us, i, j, off)} :: i < j && us[i].kind == on ==> Answered(us, i, j, off)
  }

  /** Between two disconnects there is a reconnect, and every reconnect answers a disconnect. */
  lemma DisconnectsAlternate(us: seq<Update>, j: nat)
    requires Replay(us) != Broken && j < |us|
    ensures us[j].kind == Reconnect ==> OpenBefore(us, j, Disconnect, Reconnect)
    ensures us[j].kind == Disconnect ==> ClosedBefore(us, j, Disconnect, Reconnect)
  {
    PrefixFine(us, j);
    PrefixFine(us, j + 1);
    assert us[..j + 1][..j] == us[..j];
    LastLink(us[..j]);
    OpenInPrefix(us, j, Disconnect, Reconnect);
    ClosedIff(us, j, Disconnect, Reconnect);
  }

  /** Armed and disarmed alternate too, starting with armed. */
  lemma ArmingAlternates(us: seq<Update>, j: nat)
    requires Replay(us) != Broken && j < |us|
    ensures us[j].kind == Disarmed ==> OpenBefore(us, j, Armed, Disarmed)
    ensures us[j].kind == Armed ==> ClosedBefore(us, j, Armed, Disarmed)
  {
    PrefixFine(us, j);
    PrefixFine(us, j + 1);
    assert us[..j + 1][..j] == us[..j];
    LastArming(us[..j]);
    OpenInPrefix(us, j, Armed, Disarmed);
    ClosedIff(us, j, Armed, Disarmed);
  }

  lemma {:induction false} PrefixFine(us: seq<Update>, n: nat)
    requires Replay(us) != Broken && n <= |us|
    ensures Replay(us[..n]) != Broken
  {
    if n < |us| {
      PrefixFine(us[..|us| - 1], n);
      assert us[..|us| - 1][..n] == us[..n];
    } else {
      assert us[..n] == us;
    }
  }

  lemma {:induction false} LastLink(us: seq<Update>)
    requires Replay(us) != Broken
    ensures Replay(us).Known? && !Replay(us).connected <==> OpenBefore(us, |us|, Disconnect, Reconnect)
  {
    if us == [] {
    } else {
      LastLink(us[..|us| - 1]);
      OpenNext(us, Disconnect, Reconnect);
    }
  }

  lemma {:induction false} LastArming(us: seq<Update>)
    requires Replay(us) != Broken
    ensures Replay(us).Known? && Replay(us).armed <==> OpenBefore(us, |us|, Armed, Disarmed)
  {
    if us == [] {
    } else {
      LastArming(us[..|us| - 1]);
      OpenNext(us, Armed, Disarmed);
    }
  }

  /** The last update decides, unless it is neither `on` nor `off`. */
  lemma OpenNext(us: seq<Update>, on: Kind, off: Kind)
    requires us != [] && on != off
    ensures var n := |us| - 1;
      OpenBefore(us, |us|, on, off) <==> us[n].kind == on || (us[n].kind != off && OpenBefore(us[..n], n, on, off))
  {
    var n := |us| - 1;
    forall i: nat
      ensures Unanswered(us, i, |us|, on, off)
        <==> (i == n && us[n].kind == on) || (us[n].kind != off && Unanswered(us[..n], i, n, on, off))
    {
      UnansweredNext(us, i, on, off);
    }
    if us[n].kind == on {
      assert Unanswered(us, n, |us|, on, off);
    }
  }

  lemma UnansweredNext(us: seq<Update>, i: nat, on: Kind, off: Kind)
    requires us != [] && on != off
    ensures var n := |us| - 1;
      Unanswered(us, i, |us|, on, off)
      <==> (i == n && us[n].kind == on) || (us[n].kind != off && Unanswered(us[..n], i, n, on, off))
  {
    var n := |us| - 1;
    assert forall k :: 0 <= k < n ==> us[..n][k] == us[k];
  }

  lemma ClosedIff(us: seq<Update>, j: nat, on: Kind, off: Kind)
    requires j <= |us|
    ensures ClosedBefore(us, j, on, off) <==> !OpenBefore(us, j, on, off)
  {
    forall i: nat
      ensures Unanswered(us, i, j, on, off) <==> i < j && us[i].kind == on && !Answered(us, i, j, off)
    {
      UnansweredIff(us, i, j, on, off);
    }
  }

  lemma UnansweredIff(us: seq<Update>, i: nat, j: nat, on: Kind, off: Kind)
    requires j <= |us|
    ensures Unanswered(us, i, j, on, off) <==> i < j && us[i].kind == on && !Answered(us, i, j, off)
  {}

  lemma OpenInPrefix(us: seq<Update>, j: nat, on: Kind, off: Kind)
    requires j <= |us|
    ensures OpenBefore(us[..j], j, on, off) <==> OpenBefore(us, j, on, off)
  {
    forall i: nat
      ensures Unanswered(us[..j], i, j, on, off) <==> Unanswered(us, i, j, on, off)
    {
      assert forall k :: 0 <= k < j ==> us[..j][k] == us[k];
    }
  }

  // ----- the update channel -----

  ghost predicate ChannelOK(cfg: Config, r: Reg) {
    && Subsequence(r.received + r.channel, r.log)
    && |r.received| + |r.channel| + r.dropped == |r.log|
    && |r.channel| <= cfg.channelCap
  }

  lemma {:induction false} EmitAllOK(cfg: Config, r: Reg, us: seq<Update>)
    requires ChannelOK(cfg, r)
    ensures ChannelOK(cfg, EmitAll(cfg, r, us))
    decreases |us|
  {
    if us == [] {
    } else {
      SubsequenceSkip(r.received + r.channel, r.log, us[0]);
      SubsequenceBoth(r.received + r.channel, r.log, us[0]);
      assert r.received + (r.channel + [us[0]]) == r.received + r.channel + [us[0]];
      EmitAllOK(cfg, Emit(cfg, r, us[0]), us[1..]);
    }
  }

  lemma {:induction false} StaleAllOK(cfg: Config, r: Reg, now: int, order: seq<DroneID>)
    requires ChannelOK(cfg, r) && forall id :: id in order ==> id in r.drones
    ensures ChannelOK(cfg, StaleAll(cfg, r, now, order))
    decreases |order|
  {
    if order == [] {
    } else {
      var n := |order| - 1;
      StaleAllOK(cfg, r, now, order[..n]);
      StaleKeeps(cfg, r, now, order[..n]);
      var s := StaleAll(cfg, r, now, order[..n]);
      var o := OnStale(cfg, s.drones[order[n]], now);
      EmitAllOK(cfg, s.(drones := s.drones[order[n] := o.drone]), o.updates);
    }
  }

  /** In every run the consumer sees the emitted updates in order with some left out, and every one missing is counted as dropped. */
  lemma {:induction false} ChannelIsSubsequence(cfg: Config, steps: seq<Step>)
    requires Feasible(cfg, steps)
    ensures ChannelOK(cfg, Run(cfg, steps))
  {
    if steps == [] {
    } else {
      var n := |steps| - 1;
      ChannelIsSubsequence(cfg, steps[..n]);
      var r := Run(cfg, steps[..n]);
      match steps[n]
      case EventStep(e) =>
        var o := OnEvent(cfg, Get(r, e.id), e);
        EmitAllOK(cfg, r.(drones := r.drones[e.id := o.drone]), o.updates);
      case StaleStep(now, order) =>
        StaleAllOK(cfg, r, now, order);
      case ReceiveStep =>
        if r.channel != [] {
          assert r.received + [r.channel[0]] + r.channel[1..] == r.received + r.channel;
        }
    }
  }

  // ----- the stale check -----

  /** After a stale check no connected drone has been silent beyond the threshold; nothing but the flag changes. */
  lemma NobodySilent(cfg: Config, steps: seq<Step>, now: int, order: seq<DroneID>, id: DroneID)
    requires Feasible(cfg, steps + [StaleStep(now, order)])
    ensures (steps + [StaleStep(now, order)])[..|steps|] == steps
    ensures var before := Get(Run(cfg, steps), id);
      Get(Run(cfg, steps + [StaleStep(now, order)]), id)
      == if before.None? then None
         else Some(before.value.(isConnected := before.value.isConnected && now - before.value.lastSeen <= cfg.staleThreshold))
  {
    var all := steps + [StaleStep(now, order)];
    assert all[..|steps|] == steps;
    RunIsSolo(cfg, steps, id);
    RunIsSolo(cfg, all, id);
  }

  // ----- what an update says -----

  /** An update's snapshot fits its kind. */
  predicate UpdateFits(u: Update) {
    && u.state.id == u.id
    && (u.state.isConnected <==> u.kind != Disconnect)
    && (u.kind == Armed ==> u.state.isArmed) && (u.kind == Disarmed ==> !u.state.isArmed)
    && (u.kind == New <==> u.state.messageCount == 0)
  }

  lemma EventUpdatesFit(cfg: Config, prev: Option<Drone>, e: Event)
    requires prev.Some? ==> prev.value.id == e.id && prev.value.messageCount > 0
    ensures forall u :: u in OnEvent(cfg, prev, e).updates ==> UpdateFits(u)
    ensures OnEvent(cfg, prev, e).drone.messageCount > 0
  {
    SeenUpdatesFit(prev, e);
    AppliedFits(cfg, Seen(prev, e).drone, e);
  }

  lemma SeenUpdatesFit(prev: Option<Drone>, e: Event)
    requires prev.Some? ==> prev.value.id == e.id && prev.value.messageCount > 0
    ensures var o := Seen(prev, e);
      o.drone.isConnected && o.drone.messageCount > 0 && forall u :: u in o.updates ==> UpdateFits(u)
  {}

  lemma AppliedFits(cfg: Config, d: Drone, e: Event)
    requires d.isConnected && d.messageCount > 0
    ensures var o := Applied(cfg, d, e);
      o.0.messageCount > 0 && (!o.2 ==> UpdateFits(Note(o.0, e.timestamp, o.1)))
  {}

  lemma StaleUpdatesFit(cfg: Config, d: Drone, now: int)
    requires d.messageCount > 0
    ensures forall u :: u in OnStale(cfg, d, now).updates ==> UpdateFits(u)
    ensures OnStale(cfg, d, now).drone.messageCount > 0
  {}

  lemma {:induction false} SoloUpdatesFit(cfg: Config, id: DroneID, steps: seq<Step>)
    ensures var s := SoloRun(cfg, id, steps);
      && (forall u :: u in s.updates ==> UpdateFits(u))
      && (s.drone.Some? ==> s.drone.value.id == id && s.drone.value.messageCount > 0)
  {
    if steps == [] {
    } else {
      var n := |steps| - 1;
      var s := SoloRun(cfg, id, steps[..n]);
      SoloUpdatesFit(cfg, id, steps[..n]);
      if steps[n].EventStep? && steps[n].event.id == id {
        EventUpdatesFit(cfg, s.drone, steps[n].event);
        EventUpdatesOwn(cfg, s.drone, steps[n].event);
      } else if steps[n].StaleStep? && s.drone.Some? {
        StaleUpdatesFit(cfg, s.drone.value, steps[n].now);
      }
    }
  }

  lemma {:induction false} InAbout(log: seq<Update>, u: Update)
    requires u in log
    ensures u in About(log, u.id)
  {
    var n := |log| - 1;
    if log[n] == u {
    } else {
      assert log == log[..n] + [log[n]];
      InAbout(log[..n], u);
    }
  }

  /** In every run, every update emitted carries a snapshot that fits its kind. */
  lemma UpdatesFit(cfg: Config, steps: seq<Step>, u: Update)
    requires Feasible(cfg, steps) && u in Run(cfg, steps).log
    ensures UpdateFits(u)
  {
    RunIsSolo(cfg, steps, u.id);
    SoloUpdatesFit(cfg, u.id, steps);
    InAbout(Run(cfg, steps).log, u);
  }

  /** The payloads that make ProcessEvent dereference a nil pointer. */
  predicate NilDereferenced(p: Payload) {
    p == HeartbeatPayload(None) || p == GpsPayload(None)
  }

  lemma PanicsIff(cfg: Config, prev: Option<Drone>, e: Event)
    ensures OnEvent(cfg, prev, e).panicked <==> NilDereferenced(e.payload)
  {}

  /** The order laws on the log of a run: New first and only once, and both pairs of kinds strictly alternating. */
  lemma RunLogOrdered(cfg: Config, steps: seq<Step>, id: DroneID, j: nat)
    requires Feasible(cfg, steps) && j < |About(Run(cfg, steps).log, id)|
    ensures var us := About(Run(cfg, steps).log, id);
      && (us[j].kind == New <==> j == 0)
      && (us[j].kind == Reconnect ==> OpenBefore(us, j, Disconnect, Reconnect))
      && (us[j].kind == Disconnect ==> ClosedBefore(us, j, Disconnect, Reconnect))
      && (us[j].kind == Disarmed ==> OpenBefore(us, j, Armed, Disarmed))
      && (us[j].kind == Armed ==> ClosedBefore(us, j, Armed, Disarmed))
  {
    var us := About(Run(cfg, steps).log, id);
    LogReplays(cfg, steps, id);
    NewFirst(us);
    DisconnectsAlternate(us, j);
    ArmingAlternates(us, j);
  }
}
