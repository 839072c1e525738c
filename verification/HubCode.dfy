/**
  internal/pubsub/hub.go as it runs: the map, the counters and the subscribers' channels updated
  in place. Every method does steps of the hub's transition system, so the object is always in
  a state that some run reaches, and what holds after every run holds of it.
 */
module HubCode {
  import opened Telemetry
  import opened Hub
  import opened HubLaws

  /** What a Subscriber object holds. */
  datatype Channel = Channel(name: string, open: bool, closeOnce: bool, buf: seq<Event>, dropped: nat)

  function ChannelOf(s: Sub): Channel {
    Channel(s.name, s.open, s.closeOnce, s.buf, s.dropped)
  }

  ghost predicate Mirrors(channels: map<nat, Channel>, subs: map<nat, Sub>) {
    channels.Keys == subs.Keys && forall id :: id in subs ==> channels[id] == ChannelOf(subs[id])
  }

  function CloseChannel(c: Channel): Channel {
    if c.closeOnce then c else c.(closeOnce := true, open := false)
  }

  lemma SubscribeMirrors(cfg: Config, h: State, name: string, channels: map<nat, Channel>)
    requires Registered(h) && Mirrors(channels, h.subs)
    ensures Mirrors(channels[h.nextID + 1 := Channel(name, true, false, [], 0)], DoSubscribe(cfg, h, name).subs)
  {}

  lemma UnsubscribeMirrors(h: State, id: nat, key: string, channels: map<nat, Channel>)
    requires Registered(h) && Channels(h) && Free(h) && Mirrors(channels, h.subs)
    requires key in h.subscribers && h.subscribers[key] == id && id in h.subs
    ensures DoUnsubscribe(h, id) == h.(subscribers := h.subscribers - {key}, subs := DoUnsubscribe(h, id).subs)
    ensures Mirrors(channels[id := CloseChannel(channels[id])], DoUnsubscribe(h, id).subs)
  {
    assert ChannelOK(h, h.subs[id]);
  }

  /** One subscriber's turn in a broadcast: the event goes into its channel or is counted as dropped. */
  function Served(cfg: Config, c: Channel, e: Event): Channel {
    if |c.buf| < cfg.bufferSize then c.(buf := c.buf + [e]) else c.(dropped := c.dropped + 1)
  }

  function Turn(cfg: Config, key: string, c: Channel): Step {
    if |c.buf| < cfg.bufferSize then Deliver(key, false) else Drop(key)
  }

  lemma TurnMirrors(cfg: Config, h: State, key: string, channels: map<nat, Channel>)
    requires Registered(h) && Mirrors(channels, h.subs) && h.pc.Sending? && key in h.pc.remaining && key in h.subscribers
    requires h.subs[h.subscribers[key]].open && (cfg.dropOnSlow || |channels[h.subscribers[key]].buf| < cfg.bufferSize)
    ensures var id := h.subscribers[key];
      && Enabled(cfg, h, Turn(cfg, key, channels[id]))
      && var n := Next(cfg, h, Turn(cfg, key, channels[id]));
      && Mirrors(channels[id := Served(cfg, channels[id], h.pc.event)], n.subs)
      && n.pc == Sending(h.pc.event, h.pc.remaining - {key}) && n.stop == h.stop && n.trace == h.trace
      && n.subscribers == h.subscribers && n.nextID == h.nextID && n.received == h.received
      && n.broadcast == h.broadcast + (if |channels[id].buf| < cfg.bufferSize then 1 else 0)
      && n.dropped == h.dropped + (if |channels[id].buf| < cfg.bufferSize then 0 else 1)
  {}

  /** The subscriber under `key` has had its turn, unless it is still `left`. */
  ghost predicate ServedKey(cfg: Config, subscribers: map<string, nat>, left: set<string>, e: Event,
                            was: map<nat, Channel>, channels: map<nat, Channel>, key: string) {
    key in subscribers ==>
      var id := subscribers[key];
      id in was && id in channels && channels[id] == if key in left then was[id] else Served(cfg, was[id], e)
  }

  /** A channel that is no longer in the map is as before. */
  ghost predicate Untouched(subscribers: map<string, nat>, was: map<nat, Channel>, channels: map<nat, Channel>, id: nat) {
    id in was && id !in subscribers.Values ==> id in channels && channels[id] == was[id]
  }

  ghost predicate HasRoom(cfg: Config, subscribers: map<string, nat>, channels: map<nat, Channel>, key: string) {
    key in subscribers ==> subscribers[key] in channels && |channels[subscribers[key]].buf| < cfg.bufferSize
  }

  ghost predicate RoomFor(cfg: Config, subscribers: map<string, nat>, channels: map<nat, Channel>) {
    cfg.dropOnSlow || forall key {:trigger HasRoom(cfg, subscribers, channels, key)} :: HasRoom(cfg, subscribers, channels, key)
  }

  /** All but the subscribers in `left` have had their turn; nothing else changed. */
  ghost predicate ServedBut(cfg: Config, subscribers: map<string, nat>, left: set<string>, e: Event,
                            was: map<nat, Channel>, channels: map<nat, Channel>) {
    && channels.Keys == was.Keys
    && (forall key {:trigger ServedKey(cfg, subscribers, left, e, was, channels, key)} ::
          ServedKey(cfg, subscribers, left, e, was, channels, key))
    && (forall id {:trigger Untouched(subscribers, was, channels, id)} :: Untouched(subscribers, was, channels, id))
  }

  lemma ServedNext(cfg: Config, h: State, left: set<string>, e: Event, was: map<nat, Channel>, channels: map<nat, Channel>,
                   key: string)
    requires Registered(h) && ServedBut(cfg, h.subscribers, left, e, was, channels) && key in h.subscribers && key in left
    ensures h.subscribers[key] in was && h.subscribers[key] in channels && channels[h.subscribers[key]] == was[h.subscribers[key]]
    ensures ServedBut(cfg, h.subscribers, left - {key}, e, was,
                      channels[h.subscribers[key] := Served(cfg, channels[h.subscribers[key]], e)])
  {
    var id := h.subscribers[key];
    assert ServedKey(cfg, h.subscribers, left, e, was, channels, key);
    var after := channels[id := Served(cfg, channels[id], e)];
    forall k
      ensures ServedKey(cfg, h.subscribers, left - {key}, e, was, after, k)
    {
      assert ServedKey(cfg, h.subscribers, left, e, was, channels, k);
      assert k in h.subscribers && k != key ==> h.subs[h.subscribers[k]].key == k;
    }
    forall i
      ensures Untouched(h.subscribers, was, after, i)
    {
      assert Untouched(h.subscribers, was, channels, i);
      assert id in h.subscribers.Values;
    }
    assert after.Keys == channels.Keys;
  }

  /** Some run in which no consumer closes its own subscription leads to `h`. */
  ghost predicate Reachable(cfg: Config, h: State) {
    exists steps :: Feasible(cfg, steps) && Run(cfg, steps) == h && forall id :: SelfClose(id) !in steps
  }

  lemma ReachableStart(cfg: Config)
    ensures Reachable(cfg, START)
  {
    assert Feasible(cfg, []) && Run(cfg, []) == START;
  }

  lemma ReachableNext(cfg: Config, h: State, s: Step)
    requires Reachable(cfg, h) && Enabled(cfg, h, s) && !s.SelfClose?
    ensures Reachable(cfg, Next(cfg, h, s))
  {
    var steps :| Feasible(cfg, steps) && Run(cfg, steps) == h && forall id :: SelfClose(id) !in steps;
    RunMore(cfg, steps, s);
  }

  lemma ReachableKeeps(cfg: Config, h: State)
    requires Reachable(cfg, h)
    ensures Registered(h) && Phases(h) && Channels(h)
    ensures !h.stop.Closing? ==> forall key :: key in h.subscribers ==> Target(h, key) && h.subs[h.subscribers[key]].open
  {
    var steps :| Feasible(cfg, steps) && Run(cfg, steps) == h && forall id :: SelfClose(id) !in steps;
    RunKeeps(cfg, steps);
    ChannelSafety(cfg, steps);
  }

  /** A turn as a step that keeps the state reachable. */
  lemma TurnReached(cfg: Config, h: State, key: string, channels: map<nat, Channel>) returns (n: State)
    requires Reachable(cfg, h) && Mirrors(channels, h.subs) && h.pc.Sending? && key in h.pc.remaining && key in h.subscribers
    requires h.subscribers[key] in channels && (cfg.dropOnSlow || |channels[h.subscribers[key]].buf| < cfg.bufferSize)
    ensures Reachable(cfg, n)
    ensures Mirrors(channels[h.subscribers[key] := Served(cfg, channels[h.subscribers[key]], h.pc.event)], n.subs)
    ensures n.pc == Sending(h.pc.event, h.pc.remaining - {key}) && n.stop == h.stop && n.trace == h.trace
    ensures n.subscribers == h.subscribers && n.nextID == h.nextID && n.received == h.received
    ensures var room := |channels[h.subscribers[key]].buf| < cfg.bufferSize;
      && n.broadcast == h.broadcast + (if room then 1 else 0)
      && n.dropped == h.dropped + (if room then 0 else 1)
  {
    ReachableKeeps(cfg, h);
    TurnMirrors(cfg, h, key, channels);
    var turn := Turn(cfg, key, channels[h.subscribers[key]]);
    ReachableNext(cfg, h, turn);
    n := Next(cfg, h, turn);
  }

  lemma SubscribeReached(cfg: Config, h: State, name: string, channels: map<nat, Channel>) returns (n: State)
    requires Reachable(cfg, h) && Free(h) && Mirrors(channels, h.subs)
    ensures Reachable(cfg, n) && n == DoSubscribe(cfg, h, name)
    ensures Mirrors(channels[h.nextID + 1 := Channel(name, true, false, [], 0)], n.subs)
    ensures n.subscribers == h.subscribers[KeyFor(h, name) := h.nextID + 1] && n.nextID == h.nextID + 1
    ensures n.received == h.received && n.broadcast == h.broadcast && n.dropped == h.dropped
  {
    ReachableKeeps(cfg, h);
    SubscribeMirrors(cfg, h, name, channels);
    ReachableNext(cfg, h, Step.Subscribe(name));
    n := DoSubscribe(cfg, h, name);
  }

  /** Receive and Lock: the broadcast of `e` begins. */
  lemma BroadcastReached(cfg: Config, h: State, e: Event) returns (n: State)
    requires Reachable(cfg, h) && h.pc.Idle? && !h.stop.Closing?
    ensures Reachable(cfg, n)
    ensures n == h.(pc := Sending(e, h.subscribers.Keys), trace := h.trace + [e], received := h.received + 1)
  {
    ReachableNext(cfg, h, Receive(e));
    var r := Next(cfg, h, Receive(e));
    ReachableNext(cfg, r, Lock);
    n := Next(cfg, r, Lock);
  }

  lemma UnlockReached(cfg: Config, h: State) returns (n: State)
    requires Reachable(cfg, h) && Enabled(cfg, h, Unlock)
    ensures Reachable(cfg, n) && n == h.(pc := Idle)
  {
    ReachableNext(cfg, h, Unlock);
    n := Next(cfg, h, Unlock);
  }

  /** Stop's call, the loop's end and the write lock. */
  lemma StopReached(cfg: Config, h: State) returns (n: State)
    requires Reachable(cfg, h) && h.stop.Running? && h.pc.Idle?
    ensures Reachable(cfg, n) && n == h.(pc := Halted, stop := Closing(h.subscribers.Keys))
  {
    ReachableNext(cfg, h, StopCall);
    var c := Next(cfg, h, StopCall);
    ReachableNext(cfg, c, Halt);
    var l := Next(cfg, c, Halt);
    ReachableNext(cfg, l, StopLock);
    n := Next(cfg, l, StopLock);
  }

  lemma CloseReached(cfg: Config, h: State, key: string, channels: map<nat, Channel>) returns (n: State)
    requires Reachable(cfg, h) && h.stop.Closing? && key in h.stop.todo && key in h.subscribers
    requires h.subscribers[key] in channels && Mirrors(channels, h.subs)
    ensures Reachable(cfg, n)
    ensures n == h.(subs := n.subs, stop := Closing(h.stop.todo - {key}))
    ensures Mirrors(channels[h.subscribers[key] := CloseChannel(channels[h.subscribers[key]])], n.subs)
    ensures !CloseChannel(channels[h.subscribers[key]]).open
  {
    ReachableKeeps(cfg, h);
    CloseMirrors(cfg, h, key, channels);
    ReachableNext(cfg, h, StopClose(key));
    n := Next(cfg, h, StopClose(key));
  }

  /** The keys among `keys` whose subscriber has room. */
  ghost function Roomy(cfg: Config, subscribers: map<string, nat>, channels: map<nat, Channel>, keys: set<string>): set<string> {
    set key | key in keys && key in subscribers && subscribers[key] in channels && |channels[subscribers[key]].buf| < cfg.bufferSize
  }

  lemma RoomyMore(cfg: Config, subscribers: map<string, nat>, channels: map<nat, Channel>, left: set<string>, key: string)
    requires key in left && left <= subscribers.Keys && subscribers[key] in channels
    ensures |Roomy(cfg, subscribers, channels, subscribers.Keys - (left - {key}))|
         == |Roomy(cfg, subscribers, channels, subscribers.Keys - left)|
            + (if |channels[subscribers[key]].buf| < cfg.bufferSize then 1 else 0)
  {
    var b := Roomy(cfg, subscribers, channels, subscribers.Keys - left);
    assert Roomy(cfg, subscribers, channels, subscribers.Keys - (left - {key}))
        == if |channels[subscribers[key]].buf| < cfg.bufferSize then b + {key} else b;
  }

  lemma ServedNone(cfg: Config, h: State, e: Event, channels: map<nat, Channel>)
    requires Reachable(cfg, h) && Mirrors(channels, h.subs)
    ensures ServedBut(cfg, h.subscribers, h.subscribers.Keys, e, channels, channels)
  {
    ReachableKeeps(cfg, h);
  }

  lemma ServeReached(cfg: Config, h: State, left: set<string>, e: Event, was: map<nat, Channel>, channels: map<nat, Channel>,
                     key: string)
    requires Reachable(cfg, h) && ServedBut(cfg, h.subscribers, left, e, was, channels) && RoomFor(cfg, h.subscribers, was)
    requires key in left && left <= h.subscribers.Keys
    ensures var id := h.subscribers[key];
      && id in was && id in channels && channels[id] == was[id] && (cfg.dropOnSlow || |was[id].buf| < cfg.bufferSize)
      && ServedBut(cfg, h.subscribers, left - {key}, e, was, channels[id := Served(cfg, channels[id], e)])
      && |Roomy(cfg, h.subscribers, was, h.subscribers.Keys - (left - {key}))|
         == |Roomy(cfg, h.subscribers, was, h.subscribers.Keys - left)| + (if |was[id].buf| < cfg.bufferSize then 1 else 0)
  {
    ReachableKeeps(cfg, h);
    ServedNext(cfg, h, left, e, was, channels, key);
    RoomyMore(cfg, h.subscribers, was, left, key);
    assert !cfg.dropOnSlow ==> HasRoom(cfg, h.subscribers, was, key);
  }

  class FanOut {
    const cfg: Config
    var subscribers: map<string, nat>
    var channels: map<nat, Channel>
    var nextID: nat
    var received: nat
    var broadcast: nat
    var dropped: nat
    /** The state of the transition system. */
    ghost var h: State

    ghost predicate Shows(h: State)
      reads this
    {
      && subscribers == h.subscribers && nextID == h.nextID && Mirrors(channels, h.subs)
      && received == h.received && broadcast == h.broadcast && dropped == h.dropped
    }

    ghost predicate Valid()
      reads this
    {
      Reachable(cfg, h) && Shows(h)
    }

    constructor (cfg: Config)
      ensures Valid() && h == START && this.cfg == cfg
    {
      this.cfg := cfg;
      subscribers, channels, nextID := map[], map[], 0;
      received, broadcast, dropped := 0, 0, 0;
      h := START;
      ReachableStart(cfg);
    }

    /** The ghost record of a step. */
    ghost method Record(s: Step)
      requires Reachable(cfg, h) && Enabled(cfg, h, s) && !s.SelfClose?
      modifies `h
      ensures Reachable(cfg, h) && h == Next(cfg, old(h), s)
    {
      ReachableNext(cfg, h, s);
      h := Next(cfg, h, s);
    }

    method Subscribe(name: string) returns (id: nat)
      requires Valid() && Free(h)
      modifies this
      ensures Valid() && h == DoSubscribe(cfg, old(h), name)
      ensures id == nextID && id in channels && channels[id] == Channel(name, true, false, [], 0)
    {
      ghost var n := SubscribeReached(cfg, h, name, channels);
      var key := name;
      nextID := nextID + 1;
      id := nextID;
      if key in subscribers {
        key := name + ['_', RuneOf(id)];
      }
      channels := channels[id := Channel(name, true, false, [], 0)];
      subscribers := subscribers[key := id];
      h := n;
    }

    /** Removes and closes the subscriber with this ID, wherever it is in the map. */
    method Unsubscribe(id: nat)
      requires Valid() && Free(h) && id in channels
      modifies this
      ensures Valid() && h == DoUnsubscribe(old(h), id)
      ensures forall key :: key in subscribers ==> subscribers[key] != id
    {
      ghost var was := h;
      ReachableKeeps(cfg, h);
      Record(Step.Unsubscribe(id));
      var left := subscribers.Keys;
      while left != {}
        invariant left <= subscribers.Keys && subscribers == old(subscribers) && channels == old(channels)
        invariant forall key :: key in subscribers.Keys - left ==> subscribers[key] != id
        decreases left
      {
        var key :| key in left;
        if subscribers[key] == id {
          UnsubscribeMirrors(was, id, key, channels);
          subscribers := subscribers - {key};
          channels := channels[id := CloseChannel(channels[id])];
          return;
        }
        left := left - {key};
      }
    }

    /** One turn of the broadcast loop: a send that does not block, or a drop. */
    method Send(key: string, e: Event)
      requires Valid() && h.pc.Sending? && h.pc.event == e && key in h.pc.remaining && key in subscribers
      requires subscribers[key] in channels && (cfg.dropOnSlow || |channels[subscribers[key]].buf| < cfg.bufferSize)
      modifies `channels, `broadcast, `dropped, `h
      ensures Valid() && h.stop == old(h).stop && h.trace == old(h).trace
      ensures h.pc == Sending(e, old(h).pc.remaining - {key})
      ensures channels == old(channels)[subscribers[key] := Served(cfg, old(channels)[subscribers[key]], e)]
      ensures var room := |old(channels)[subscribers[key]].buf| < cfg.bufferSize;
        && broadcast == old(broadcast) + (if room then 1 else 0)
        && dropped == old(dropped) + (if room then 0 else 1)
    {
      var id := subscribers[key];
      ghost var n := TurnReached(cfg, h, key, channels);
      var c := channels[id];
      if |c.buf| < cfg.bufferSize {
        c := c.(buf := c.buf + [e]);
        broadcast := broadcast + 1;
      } else {
        dropped := dropped + 1;
        c := c.(dropped := c.dropped + 1);
      }
      assert c == Served(cfg, channels[id], e);
      channels := channels[id := c];
      h := n;
    }

    /** The counters, started at these values, when the keys in `left` still have their turn to come. */
    ghost predicate Counted(was: map<nat, Channel>, left: set<string>, sent: nat, lost: nat)
      reads this
    {
      && broadcast == sent + |Roomy(cfg, subscribers, was, subscribers.Keys - left)|
      && broadcast + dropped + |left| == sent + lost + |subscribers|
    }

    method Serve(key: string, e: Event, ghost was: map<nat, Channel>, ghost sent: nat, ghost lost: nat)
      requires Valid() && h.pc.Sending? && h.pc.event == e && key in h.pc.remaining && key in subscribers
      requires h.pc.remaining <= subscribers.Keys
      requires ServedBut(cfg, subscribers, h.pc.remaining, e, was, channels) && Counted(was, h.pc.remaining, sent, lost)
      requires RoomFor(cfg, subscribers, was)
      modifies `channels, `broadcast, `dropped, `h
      ensures Valid() && h.stop == old(h).stop && h.trace == old(h).trace
      ensures h.pc == Sending(e, old(h).pc.remaining - {key})
      ensures ServedBut(cfg, subscribers, h.pc.remaining, e, was, channels) && Counted(was, h.pc.remaining, sent, lost)
    {
      ServeReached(cfg, h, h.pc.remaining, e, was, channels, key);
      Send(key, e);
    }

    ghost predicate Room()
      reads this
    {
      RoomFor(cfg, subscribers, channels)
    }

    /** The loop of broadcast, over the map in any order, with nobody else at work. */
    method ServeAll(e: Event)
      requires Valid() && h.pc == Sending(e, subscribers.Keys) && Room()
      modifies `channels, `broadcast, `dropped, `h
      ensures Valid()
      ensures h.pc == Sending(e, {}) && h.stop == old(h).stop && h.trace == old(h).trace
      ensures ServedBut(cfg, subscribers, {}, e, old(channels), channels)
      ensures Counted(old(channels), {}, old(broadcast), old(dropped))
    {
      ghost var was, sent, lost := channels, broadcast, dropped;
      ServedNone(cfg, h, e, channels);
      var left := subscribers.Keys;
      assert subscribers.Keys - left == {};
      while left != {}
        invariant Valid() && left <= subscribers.Keys
        invariant h.pc == Sending(e, left) && h.stop == old(h).stop && h.trace == old(h).trace
        invariant ServedBut(cfg, subscribers, left, e, was, channels) && Counted(was, left, sent, lost)
        decreases left
      {
        var key :| key in left;
        Serve(key, e, was, sent, lost);
        left := left - {key};
      }
    }

    /**
      A broadcast from start to end. In blocking mode a full channel would make it wait, so there every
      channel has room.
     */
    method Broadcast(e: Event)
      requires Valid() && h.pc.Idle? && !h.stop.Closing? && Room()
      modifies this
      ensures Valid() && h.pc.Idle? && h.stop == old(h).stop && h.trace == old(h).trace + [e]
      ensures subscribers == old(subscribers) && received == old(received) + 1
      ensures ServedBut(cfg, subscribers, {}, e, old(channels), channels)
      ensures broadcast == old(broadcast) + |Roomy(cfg, subscribers, old(channels), subscribers.Keys)|
      ensures broadcast + dropped == old(broadcast) + old(dropped) + |subscribers|
    {
      ghost var n := BroadcastReached(cfg, h, e);
      received := received + 1;
      h := n;
      ServeAll(e);
      assert subscribers.Keys - {} == subscribers.Keys;
      h := UnlockReached(cfg, h);
    }

    /** A consumer takes the oldest event from its channel, closed or not. */
    method Take(id: nat) returns (e: Event)
      requires Valid() && id in channels && channels[id].buf != []
      modifies `channels, `h
      ensures Valid()
      ensures h == Next(cfg, old(h), Consume(id))
      ensures old(channels)[id].buf == [e] + old(channels)[id].buf[1..]
      ensures channels == old(channels)[id := old(channels)[id].(buf := old(channels)[id].buf[1..])]
    {
      e := channels[id].buf[0];
      channels := channels[id := channels[id].(buf := channels[id].buf[1..])];
      Record(Consume(id));
    }

    method CloseOne(key: string, ghost was: map<nat, Channel>)
      requires Valid() && h.stop.Closing? && key in h.stop.todo && key in subscribers
      requires ClosedBut(subscribers, h.stop.todo, was, channels)
      modifies `channels, `h
      ensures Valid() && h.stop == Closing(old(h).stop.todo - {key}) && h.pc == old(h).pc
      ensures ClosedBut(subscribers, h.stop.todo, was, channels)
    {
      ghost var n := CloseReached(cfg, h, key, channels);
      ClosedNext(subscribers, h.stop.todo, was, channels, key);
      var id := subscribers[key];
      channels := channels[id := CloseChannel(channels[id])];
      h := n;
    }

    /** The loop of Stop, under the write lock. */
    method CloseAll()
      requires Valid() && h.stop == Closing(subscribers.Keys)
      modifies `channels, `h
      ensures Valid() && h.stop == Closing({}) && h.pc == old(h).pc
      ensures ClosedBut(subscribers, {}, old(channels), channels)
    {
      ghost var was := channels;
      ReachableKeeps(cfg, h);
      var left := subscribers.Keys;
      while left != {}
        invariant Valid() && h.stop == Closing(left) && h.pc == old(h).pc
        invariant ClosedBut(subscribers, left, was, channels)
        decreases left
      {
        var key :| key in left;
        ReachableKeeps(cfg, h);
        CloseOne(key, was);
        left := left - {key};
      }
    }

    method Retire()
      requires Valid() && h.stop == Closing({}) && h.pc.Halted?
      modifies `subscribers, `h
      ensures Valid() && h.stop.Stopped? && h.pc.Halted? && subscribers == map[]
    {
      RetireMirrors(h, channels);
      subscribers := map[];
      Record(StopUnlock);
    }

    /** Stop, once the hub's loop has seen the done channel: every registered channel is closed, exactly once, and the map emptied. */
    method Stop()
      requires Valid() && h.stop.Running? && h.pc.Idle?
      modifies this
      ensures Valid() && h.stop.Stopped? && h.pc.Halted? && subscribers == map[]
      ensures ClosedBut(old(subscribers), {}, old(channels), channels)
    {
      h := StopReached(cfg, h);
      CloseAll();
      Retire();
    }
  }

  /** All registered subscribers but those in `left` have their channel closed; nothing else changed. */
  ghost predicate ClosedBut(subscribers: map<string, nat>, left: set<string>, was: map<nat, Channel>, channels: map<nat, Channel>) {
    && channels.Keys == was.Keys
    && (forall key :: key in subscribers ==> subscribers[key] in was && (key !in left ==> !channels[subscribers[key]].open))
    && (forall id :: id in was ==> channels[id] == was[id] || channels[id] == CloseChannel(was[id]))
    && (forall id :: id in was && id !in subscribers.Values ==> channels[id] == was[id])
  }

  lemma ClosedNext(subscribers: map<string, nat>, left: set<string>, was: map<nat, Channel>, channels: map<nat, Channel>, key: string)
    requires ClosedBut(subscribers, left, was, channels) && key in left && key in subscribers
    requires !CloseChannel(channels[subscribers[key]]).open
    ensures ClosedBut(subscribers, left - {key}, was, channels[subscribers[key] := CloseChannel(channels[subscribers[key]])])
  {}

  lemma RetireMirrors(h: State, channels: map<nat, Channel>)
    requires Mirrors(channels, h.subs)
    ensures Mirrors(channels, Retired(h))
  {}

  lemma CloseMirrors(cfg: Config, h: State, key: string, channels: map<nat, Channel>)
    requires Registered(h) && Channels(h) && h.stop.Closing? && key in h.stop.todo && key in h.subscribers
    requires Mirrors(channels, h.subs)
    ensures var id := h.subscribers[key];
      && Enabled(cfg, h, StopClose(key))
      && DoClose(h, key) == h.(subs := DoClose(h, key).subs, stop := Closing(h.stop.todo - {key}))
      && Mirrors(channels[id := CloseChannel(channels[id])], DoClose(h, key).subs)
      && !CloseChannel(channels[id]).open
  {
    assert ChannelOK(h, h.subs[h.subscribers[key]]);
  }
}
