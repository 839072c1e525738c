/** Channel lifetimes, delivery and counters of the hub, over every run. */
module HubLaws {
  import opened Telemetry
  import opened Collections
  import opened Hub

  // ----- channel lifetimes -----

  /** The map and the subscribers in it know each other. */
  ghost predicate Registered(h: State) {
    && (forall key :: key in h.subscribers ==> Target(h, key) && h.subs[h.subscribers[key]].key == key
                                               && h.subs[h.subscribers[key]].ending.Live?)
    && (forall id :: id in h.subs ==> 1 <= id <= h.nextID)
    && (forall id :: id in h.subs && h.subs[id].ending.Live?
                     ==> h.subs[id].key in h.subscribers && h.subscribers[h.subs[id].key] == id)
  }

  /** Whether Stop has already closed this one. */
  predicate ClosedByStop(h: State, s: Sub) {
    h.stop.Closing? && s.ending.Live? && s.key !in h.stop.todo
  }

  /**
    A channel is open until it is unregistered, closed by Stop or closed by its own consumer; a replaced one
    is never closed by the hub.
   */
  predicate ChannelOK(h: State, s: Sub) {
    && s.closeOnce == !s.open
    && s.open == (!s.selfClosed && !s.ending.Removed? && !ClosedByStop(h, s))
  }

  ghost predicate Channels(h: State) {
    forall id :: id in h.subs ==> ChannelOK(h, h.subs[id])
  }

  /** Broadcasting and the closing phase exclude each other. */
  ghost predicate Phases(h: State) {
    && (h.stop.Closing? || h.stop.Stopped? ==> h.pc.Halted?)
    && (h.pc.Sending? ==> h.pc.remaining <= h.subscribers.Keys && h.trace != [] && h.trace[|h.trace| - 1] == h.pc.event)
    && (h.stop.Closing? ==> h.stop.todo <= h.subscribers.Keys)
  }

  lemma RegisteredStep(cfg: Config, h: State, s: Step)
    requires Enabled(cfg, h, s) && Registered(h) && Phases(h)
    ensures Registered(Next(cfg, h, s))
  {
    match s
    case Subscribe(name) => RegisteredSubscribe(cfg, h, name);
    case Unsubscribe(id) => RegisteredUnsubscribe(h, id);
    case StopUnlock => RegisteredUnlock(cfg, h);
    case _ =>
      EntriesKept(cfg, h, s);
      SameRegistered(h, Next(cfg, h, s));
  }

  lemma RegisteredUnsubscribe(h: State, id: nat)
    requires Registered(h) && id in h.subs
    ensures Registered(DoUnsubscribe(h, id))
  {}

  lemma RegisteredUnlock(cfg: Config, h: State)
    requires Registered(h) && Enabled(cfg, h, StopUnlock)
    ensures Registered(Next(cfg, h, StopUnlock))
  {}

  lemma EntriesKept(cfg: Config, h: State, s: Step)
    requires Enabled(cfg, h, s) && !s.Subscribe? && !s.Unsubscribe? && !s.StopUnlock?
    ensures var n := Next(cfg, h, s);
      && n.subscribers == h.subscribers && n.nextID == h.nextID && n.subs.Keys == h.subs.Keys
      && forall id :: id in h.subs ==> n.subs[id].key == h.subs[id].key && n.subs[id].ending == h.subs[id].ending
  {}

  lemma SameRegistered(h: State, n: State)
    requires Registered(h)
    requires n.subscribers == h.subscribers && n.nextID == h.nextID && n.subs.Keys == h.subs.Keys
    requires forall id :: id in h.subs ==> n.subs[id].key == h.subs[id].key && n.subs[id].ending == h.subs[id].ending
    ensures Registered(n)
  {}

  lemma RegisteredSubscribe(cfg: Config, h: State, name: string)
    requires Registered(h)
    ensures Registered(DoSubscribe(cfg, h, name))
  {
    var n, key := DoSubscribe(cfg, h, name), KeyFor(h, name);
    forall id | id in n.subs
      ensures 1 <= id <= n.nextID
      ensures n.subs[id].ending.Live? ==> n.subs[id].key in n.subscribers && n.subscribers[n.subs[id].key] == id
    {
      if id != n.nextID && n.subs[id].ending.Live? {
        assert h.subs[id] == n.subs[id];
        assert n.subs[id].key != key;
      }
    }
  }

  lemma PhasesStep(cfg: Config, h: State, s: Step)
    requires Enabled(cfg, h, s) && Registered(h) && Phases(h)
    ensures Phases(Next(cfg, h, s))
  {
  }

  lemma ChannelsSubscribe(cfg: Config, h: State, name: string)
    requires Registered(h) && Channels(h) && !h.stop.Closing?
    ensures Channels(DoSubscribe(cfg, h, name))
  {
    var n := DoSubscribe(cfg, h, name);
    forall id | id in n.subs
      ensures ChannelOK(n, n.subs[id])
    {
      if id != n.nextID {
        assert ChannelOK(h, h.subs[id]);
      }
    }
  }

  lemma ChannelsUnsubscribe(h: State, id: nat)
    requires Registered(h) && Channels(h) && !h.stop.Closing? && id in h.subs
    ensures Channels(DoUnsubscribe(h, id))
  {
    var n := DoUnsubscribe(h, id);
    forall k | k in n.subs
      ensures ChannelOK(n, n.subs[k])
    {
      assert ChannelOK(h, h.subs[k]);
    }
  }

  lemma ChannelsSelfClose(cfg: Config, h: State, id: nat)
    requires Channels(h) && id in h.subs
    ensures Channels(Next(cfg, h, SelfClose(id)))
  {
    var n := Next(cfg, h, SelfClose(id));
    forall k | k in n.subs
      ensures ChannelOK(n, n.subs[k])
    {
      assert ChannelOK(h, h.subs[k]);
    }
  }

  lemma ChannelsClose(cfg: Config, h: State, key: string)
    requires Registered(h) && Channels(h) && Enabled(cfg, h, StopClose(key))
    ensures Channels(Next(cfg, h, StopClose(key)))
  {
    var n := Next(cfg, h, StopClose(key));
    forall k | k in n.subs
      ensures ChannelOK(n, n.subs[k])
    {
      assert ChannelOK(h, h.subs[k]);
    }
  }

  lemma ChannelsStop(cfg: Config, h: State, s: Step)
    requires Registered(h) && Channels(h) && Enabled(cfg, h, s) && (s.StopLock? || s.StopUnlock?)
    ensures Channels(Next(cfg, h, s))
  {
    var n := Next(cfg, h, s);
    forall k | k in n.subs
      ensures ChannelOK(n, n.subs[k])
    {
      assert ChannelOK(h, h.subs[k]);
    }
  }

  predicate TouchesChannels(s: Step) {
    s.Subscribe? || s.Unsubscribe? || s.SelfClose? || s.StopLock? || s.StopClose? || s.StopUnlock?
  }

  /** No other step opens, closes or unregisters anything. */
  lemma ChannelsSame(cfg: Config, h: State, s: Step)
    requires Channels(h) && Enabled(cfg, h, s) && !TouchesChannels(s)
    ensures Channels(Next(cfg, h, s))
  {
    var n := Next(cfg, h, s);
    forall k | k in n.subs
      ensures ChannelOK(n, n.subs[k])
    {
      assert ChannelOK(h, h.subs[k]);
    }
  }

  lemma ChannelsStep(cfg: Config, h: State, s: Step)
    requires Enabled(cfg, h, s) && Registered(h) && Channels(h)
    ensures Channels(Next(cfg, h, s))
  {
    match s
    case Subscribe(name) => ChannelsSubscribe(cfg, h, name);
    case Unsubscribe(id) => ChannelsUnsubscribe(h, id);
    case SelfClose(id) => ChannelsSelfClose(cfg, h, id);
    case StopClose(key) => ChannelsClose(cfg, h, key);
    case _ =>
      if TouchesChannels(s) {
        ChannelsStop(cfg, h, s);
      } else {
        ChannelsSame(cfg, h, s);
      }
  }

  lemma {:induction false} RunKeeps(cfg: Config, steps: seq<Step>)
    requires Feasible(cfg, steps)
    ensures var h := Run(cfg, steps); Registered(h) && Phases(h) && Channels(h)
  {
    if steps == [] {
    } else {
      var n := |steps| - 1;
      RunKeeps(cfg, steps[..n]);
      RegisteredStep(cfg, Run(cfg, steps[..n]), steps[n]);
      PhasesStep(cfg, Run(cfg, steps[..n]), steps[n]);
      ChannelsStep(cfg, Run(cfg, steps[..n]), steps[n]);
    }
  }

  /**
    After any run, no step closes a channel twice, and a step sends on a closed channel if and only if it
    delivers to a subscriber whose own consumer called Close.
   */
  lemma PanicExactly(cfg: Config, steps: seq<Step>, s: Step)
    requires Feasible(cfg, steps) && Enabled(cfg, Run(cfg, steps), s)
    ensures var h := Run(cfg, steps);
      Next(cfg, h, s).panicked <==> h.panicked || (s.Deliver? && h.subs[h.subscribers[s.key]].selfClosed)
  {
    RunKeeps(cfg, steps);
    var h := Run(cfg, steps);
    if s.Deliver? {
      assert ChannelOK(h, h.subs[h.subscribers[s.key]]);
    } else if s.Unsubscribe? || s.SelfClose? {
      assert ChannelOK(h, h.subs[s.id]);
    } else if s.StopClose? {
      assert ChannelOK(h, h.subs[h.subscribers[s.key]]);
    }
  }

  lemma {:induction false} SelfClosedMeans(cfg: Config, steps: seq<Step>, id: nat)
    requires Feasible(cfg, steps)
    ensures var h := Run(cfg, steps); id in h.subs && h.subs[id].selfClosed <==> SelfClose(id) in steps
  {
    if steps == [] {
    } else {
      var n := |steps| - 1;
      SelfClosedMeans(cfg, steps[..n], id);
      RunKeeps(cfg, steps[..n]);
      assert steps == steps[..n] + [steps[n]];
      SelfClosedStep(cfg, Run(cfg, steps[..n]), steps[n], id);
    }
  }

  lemma SelfClosedStep(cfg: Config, h: State, s: Step, id: nat)
    requires Enabled(cfg, h, s) && Registered(h)
    ensures var n := Next(cfg, h, s);
      id in n.subs && n.subs[id].selfClosed <==> (id in h.subs && h.subs[id].selfClosed) || s == SelfClose(id)
  {}

  /**
    As long as no consumer closes its own subscription, no run sends on a closed channel or closes one twice,
    and outside Stop's closing phase every subscriber in the map has an open channel.
   */
  lemma {:induction false} ChannelSafety(cfg: Config, steps: seq<Step>)
    requires Feasible(cfg, steps) && forall id :: SelfClose(id) !in steps
    ensures var h := Run(cfg, steps);
      && !h.panicked
      && (!h.stop.Closing? ==> forall key :: key in h.subscribers ==> Target(h, key) && h.subs[h.subscribers[key]].open)
  {
    var h := Run(cfg, steps);
    RunKeeps(cfg, steps);
    if steps == [] {
    } else {
      var n := |steps| - 1;
      assert forall id :: SelfClose(id) in steps[..n] ==> SelfClose(id) in steps;
      ChannelSafety(cfg, steps[..n]);
      PanicExactly(cfg, steps[..n], steps[n]);
      if steps[n].Deliver? {
        SelfClosedMeans(cfg, steps[..n], Run(cfg, steps[..n]).subscribers[steps[n].key]);
      }
    }
    forall key | key in h.subscribers && !h.stop.Closing?
      ensures Target(h, key) && h.subs[h.subscribers[key]].open
    {
      SelfClosedMeans(cfg, steps, h.subscribers[key]);
      assert ChannelOK(h, h.subs[h.subscribers[key]]);
    }
  }

  // ----- delivery -----

  /** How many of the broadcasts begun so far have reached the subscriber's turn. */
  function Upto(h: State, s: Sub): int {
    match s.ending
    case Removed(at) => at
    case Replaced(at) => at
    case Live => if h.pc.Sending? && s.key in h.pc.remaining then |h.trace| - 1 else |h.trace|
  }

  /** The events broadcast to a subscriber while it was registered. */
  function Due(h: State, s: Sub): seq<Event>
    requires s.start <= Upto(h, s) <= |h.trace|
  {
    h.trace[s.start..Upto(h, s)]
  }

  function Got(s: Sub): seq<Event> {
    s.consumed + s.buf
  }

  ghost predicate Delivered(cfg: Config, h: State, s: Sub) {
    && s.start <= Upto(h, s) <= |h.trace|
    && Subsequence(Got(s), Due(h, s))
    && |s.consumed| + |s.buf| + s.dropped == |Due(h, s)|
    && (!cfg.dropOnSlow ==> s.dropped == 0)
  }

  ghost predicate AllDelivered(cfg: Config, h: State) {
    forall id :: id in h.subs ==> Delivered(cfg, h, h.subs[id])
  }

  lemma SlicePrefix<T>(x: seq<T>, y: seq<T>, lo: nat, hi: nat)
    requires lo <= hi <= |x| <= |y| && x == y[..|x|]
    ensures y[lo..hi] == x[lo..hi]
  {}

  lemma SameDelivered(cfg: Config, h: State, s: Sub, n: State, t: Sub)
    requires Delivered(cfg, h, s) && t.start == s.start && Got(t) == Got(s) && t.dropped == s.dropped
    requires Upto(n, t) == Upto(h, s) && |h.trace| <= |n.trace| && h.trace == n.trace[..|h.trace|]
    ensures Delivered(cfg, n, t)
  {
    SlicePrefix(h.trace, n.trace, s.start, Upto(h, s));
    assert |Got(s)| == |Got(t)|;
  }

  lemma DeliverOne(cfg: Config, h: State, s: Sub, n: State, t: Sub, e: Event)
    requires Delivered(cfg, h, s) && t.start == s.start && n.trace == h.trace
    requires Upto(n, t) == Upto(h, s) + 1 <= |h.trace| && h.trace[Upto(h, s)] == e
    requires (Got(t) == Got(s) + [e] && t.dropped == s.dropped) || (Got(t) == Got(s) && t.dropped == s.dropped + 1 && cfg.dropOnSlow)
    ensures Delivered(cfg, n, t)
  {
    var d := Due(h, s);
    assert Due(n, t) == d + [e];
    if Got(t) == Got(s) {
      SubsequenceSkip(Got(s), d, e);
    } else {
      SubsequenceBoth(Got(s), d, e);
    }
    assert |Got(s)| == |s.consumed| + |s.buf| && |Got(t)| == |t.consumed| + |t.buf|;
  }

  /** Every other step leaves the subscriber's stream, and what is due to it, as it was. */
  lemma DeliveredElse(cfg: Config, h: State, s: Step, id: nat)
    requires Enabled(cfg, h, s) && Registered(h) && Phases(h) && id in h.subs && Delivered(cfg, h, h.subs[id])
    requires !Next(cfg, h, s).panicked && ((s.Deliver? || s.Drop?) ==> h.subscribers[s.key] != id)
    ensures Delivered(cfg, Next(cfg, h, s), Next(cfg, h, s).subs[id])
  {
    var n := Next(cfg, h, s);
    var c, d := h.subs[id], n.subs[id];
    StreamKept(cfg, h, s, id);
    UptoKept(cfg, h, s, id);
    SameDelivered(cfg, h, c, n, d);
  }

  lemma StreamKept(cfg: Config, h: State, s: Step, id: nat)
    requires Enabled(cfg, h, s) && Registered(h) && id in h.subs
    requires !Next(cfg, h, s).panicked && ((s.Deliver? || s.Drop?) ==> h.subscribers[s.key] != id)
    ensures var n := Next(cfg, h, s);
      && id in n.subs
      && var c, d := h.subs[id], n.subs[id];
      && d.start == c.start && d.dropped == c.dropped && Got(d) == Got(c)
      && |h.trace| <= |n.trace| && h.trace == n.trace[..|h.trace|]
  {
    if s.Consume? && s.id == id {
      var c := h.subs[id];
      assert c.buf == [c.buf[0]] + c.buf[1..];
    }
  }

  lemma UptoKept(cfg: Config, h: State, s: Step, id: nat)
    requires Enabled(cfg, h, s) && Registered(h) && Phases(h) && id in h.subs
    requires !Next(cfg, h, s).panicked && ((s.Deliver? || s.Drop?) ==> h.subscribers[s.key] != id)
    ensures id in Next(cfg, h, s).subs && Upto(Next(cfg, h, s), Next(cfg, h, s).subs[id]) == Upto(h, h.subs[id])
  {}

  /** A new subscriber starts with nothing due. */
  lemma DeliveredNew(cfg: Config, h: State, name: string)
    requires Free(h) && Registered(h)
    ensures Delivered(cfg, DoSubscribe(cfg, h, name), DoSubscribe(cfg, h, name).subs[h.nextID + 1])
  {}

  lemma DeliveredTurn(cfg: Config, h: State, s: Step, id: nat)
    requires Enabled(cfg, h, s) && Registered(h) && Phases(h) && id in h.subs && Delivered(cfg, h, h.subs[id])
    requires (s.Deliver? || s.Drop?) && h.subscribers[s.key] == id && !Next(cfg, h, s).panicked
    ensures Delivered(cfg, Next(cfg, h, s), Next(cfg, h, s).subs[id])
  {
    var n := Next(cfg, h, s);
    var c, d := h.subs[id], n.subs[id];
    if s.Deliver? {
      assert s.direct ==> c.consumed + [h.pc.event] + c.buf == Got(c) + [h.pc.event];
      assert !s.direct ==> c.consumed + (c.buf + [h.pc.event]) == Got(c) + [h.pc.event];
    }
    DeliverOne(cfg, h, c, n, d, h.pc.event);
  }

  lemma DeliveredNext(cfg: Config, h: State, s: Step, id: nat)
    requires Enabled(cfg, h, s) && Registered(h) && Phases(h) && AllDelivered(cfg, h)
    requires !Next(cfg, h, s).panicked && id in Next(cfg, h, s).subs
    ensures Delivered(cfg, Next(cfg, h, s), Next(cfg, h, s).subs[id])
  {
    if id !in h.subs {
      DeliveredNew(cfg, h, s.name);
    } else if (s.Deliver? || s.Drop?) && h.subscribers[s.key] == id {
      DeliveredTurn(cfg, h, s, id);
    } else {
      DeliveredElse(cfg, h, s, id);
    }
  }

  /**
    In every run without a panic: what a subscriber has consumed and what waits in its channel is, in order,
    part of the events broadcast while it was registered; what is missing is counted as dropped.
   */
  lemma {:induction false} HubDelivery(cfg: Config, steps: seq<Step>)
    requires Feasible(cfg, steps) && !Run(cfg, steps).panicked
    ensures AllDelivered(cfg, Run(cfg, steps))
  {
    if steps == [] {
    } else {
      var n := |steps| - 1;
      var h := Run(cfg, steps[..n]);
      HubDelivery(cfg, steps[..n]);
      RunKeeps(cfg, steps[..n]);
      forall id | id in Run(cfg, steps).subs
        ensures Delivered(cfg, Run(cfg, steps), Run(cfg, steps).subs[id])
      {
        DeliveredNext(cfg, h, steps[n], id);
      }
    }
  }

  /** In blocking mode, whenever no broadcast is under way, every registered subscriber has exactly the events since it subscribed. */
  lemma BlockingIsExact(cfg: Config, steps: seq<Step>, id: nat)
    requires Feasible(cfg, steps) && !Run(cfg, steps).panicked && !cfg.dropOnSlow
    requires id in Run(cfg, steps).subs && Run(cfg, steps).subs[id].ending.Live? && !Run(cfg, steps).pc.Sending?
    ensures var h := Run(cfg, steps);
      && h.subs[id].dropped == 0
      && h.subs[id].start <= |h.trace|
      && h.subs[id].consumed + h.subs[id].buf == h.trace[h.subs[id].start..]
  {
    HubDelivery(cfg, steps);
    var h := Run(cfg, steps);
    SubsequenceShorter(Got(h.subs[id]), Due(h, h.subs[id]));
  }

  // ----- counters -----

  function Size(s: Sub): nat {
    |s.consumed| + |s.buf|
  }

  ghost function Sent(subs: map<nat, Sub>): map<nat, nat> {
    map id | id in subs :: Size(subs[id])
  }

  ghost function Drops(subs: map<nat, Sub>): map<nat, nat> {
    map id | id in subs :: subs[id].dropped
  }

  /** The hub's counters against its subscribers, past and present. */
  ghost predicate Totals(h: State) {
    && h.received == |h.trace| + (if h.pc.Received? then 1 else 0)
    && h.broadcast == Sum(Sent(h.subs))
    && h.dropped == Sum(Drops(h.subs))
  }

  lemma TotalsUpdate(subs: map<nat, Sub>, id: nat, s: Sub)
    ensures Sum(Sent(subs[id := s])) == Sum(Sent(subs)) + Size(s) - (if id in subs then Size(subs[id]) else 0)
    ensures Sum(Drops(subs[id := s])) == Sum(Drops(subs)) + s.dropped - (if id in subs then subs[id].dropped else 0)
  {
    assert Sent(subs[id := s]) == Sent(subs)[id := Size(s)] && Drops(subs[id := s]) == Drops(subs)[id := s.dropped];
    SumUpdate(Sent(subs), id, Size(s));
    SumUpdate(Drops(subs), id, s.dropped);
  }

  lemma TotalsSame(subs: map<nat, Sub>, t: map<nat, Sub>)
    requires subs.Keys == t.Keys
    requires forall id :: id in subs ==> Size(subs[id]) == Size(t[id]) && subs[id].dropped == t[id].dropped
    ensures Sent(subs) == Sent(t) && Drops(subs) == Drops(t)
  {}

  lemma TotalsSubscribe(cfg: Config, h: State, name: string)
    requires Registered(h) && Totals(h)
    ensures Totals(DoSubscribe(cfg, h, name))
  {
    var id := h.nextID + 1;
    var d := Displaced(h, KeyFor(h, name));
    DisplacedSame(h, KeyFor(h, name));
    TotalsUpdate(d, id, NewSub(cfg, h, name));
  }

  lemma DisplacedSame(h: State, key: string)
    requires Registered(h)
    ensures h.nextID + 1 !in Displaced(h, key)
    ensures Sent(h.subs) == Sent(Displaced(h, key)) && Drops(h.subs) == Drops(Displaced(h, key))
  {
    TotalsSame(h.subs, Displaced(h, key));
  }

  lemma TotalsTurn(cfg: Config, h: State, s: Step)
    requires Enabled(cfg, h, s) && (s.Deliver? || s.Drop?) && Totals(h)
    ensures Totals(Next(cfg, h, s))
  {
    var id := h.subscribers[s.key];
    TotalsUpdate(h.subs, id, Next(cfg, h, s).subs[id]);
  }

  lemma TotalsElse(cfg: Config, h: State, s: Step)
    requires Enabled(cfg, h, s) && !s.Subscribe? && !s.Deliver? && !s.Drop? && Totals(h)
    ensures Totals(Next(cfg, h, s))
  {
    SizesKept(cfg, h, s);
    TotalsSame(h.subs, Next(cfg, h, s).subs);
  }

  lemma SizesKept(cfg: Config, h: State, s: Step)
    requires Enabled(cfg, h, s) && !s.Subscribe? && !s.Deliver? && !s.Drop?
    ensures var n := Next(cfg, h, s);
      && n.subs.Keys == h.subs.Keys
      && (forall id :: id in h.subs ==> Size(h.subs[id]) == Size(n.subs[id]) && h.subs[id].dropped == n.subs[id].dropped)
      && n.broadcast == h.broadcast && n.dropped == h.dropped
      && (h.received == |h.trace| + (if h.pc.Received? then 1 else 0)
          ==> n.received == |n.trace| + (if n.pc.Received? then 1 else 0))
  {}

  /** In every run, panics or not, the hub's totals are the sums over every subscriber it ever had. */
  lemma {:induction false} HubTotals(cfg: Config, steps: seq<Step>)
    requires Feasible(cfg, steps)
    ensures Totals(Run(cfg, steps))
  {
    if steps == [] {
      assert Sent(START.subs) == map[] && Drops(START.subs) == map[];
    } else {
      var n := |steps| - 1;
      var h := Run(cfg, steps[..n]);
      HubTotals(cfg, steps[..n]);
      RunKeeps(cfg, steps[..n]);
      match steps[n]
      case Subscribe(name) => TotalsSubscribe(cfg, h, name);
      case Deliver(_, _) => TotalsTurn(cfg, h, steps[n]);
      case Drop(_) => TotalsTurn(cfg, h, steps[n]);
      case _ => TotalsElse(cfg, h, steps[n]);
    }
  }

  // ----- keys that collide -----

  /** Subscribe overwrites a registered subscriber if and only if the name and its fallback key are both taken. */
  lemma OverwritesExactly(cfg: Config, h: State, name: string, id: nat)
    requires Registered(h) && id in h.subs
    ensures DoSubscribe(cfg, h, name).subs[id].ending != h.subs[id].ending
       <==> name in h.subscribers && Fallback(name, h.nextID + 1) in h.subscribers && h.subscribers[Fallback(name, h.nextID + 1)] == id
  {}

  /** No name is another name followed by an underscore and one character. */
  ghost predicate Distinguishable(names: set<string>) {
    forall n, m, c :: n in names && m in names ==> n != m + ['_', c]
  }

  /** Every key is a name or the fallback key of its subscriber. */
  ghost predicate Keys(h: State, names: set<string>) {
    forall id :: id in h.subs ==>
      && h.subs[id].name in names
      && (h.subs[id].key == h.subs[id].name || h.subs[id].key == Fallback(h.subs[id].name, id))
  }

  lemma FallbackInjective(m: string, n: string, i: nat, j: nat)
    requires i < 0xD800 && j < 0xD800 && Fallback(m, i) == Fallback(n, j)
    ensures i == j
  {
    var a, b := Fallback(m, i), Fallback(n, j);
    assert a[|a| - 1] == RuneOf(i) && b[|b| - 1] == RuneOf(j);
    assert i % 0x1_0000_0000 == i && j % 0x1_0000_0000 == j;
  }

  lemma NoCollision(h: State, name: string, names: set<string>)
    requires Registered(h) && Keys(h, names) && Distinguishable(names) && name in names && h.nextID + 1 < 0xD800
    ensures name in h.subscribers ==> Fallback(name, h.nextID + 1) !in h.subscribers
  {
    var key := Fallback(name, h.nextID + 1);
    if name in h.subscribers && key in h.subscribers {
      var id := h.subscribers[key];
      var s := h.subs[id];
      assert s.key == key == name + ['_', RuneOf(h.nextID + 1)];
      assert s.name != key;
      FallbackInjective(s.name, name, id, h.nextID + 1);
    }
  }

  ghost predicate NamesIn(steps: seq<Step>, names: set<string>) {
    forall s :: s in steps && s.Subscribe? ==> s.name in names
  }

  /**
    With fewer than 0xD800 subscriptions under distinguishable names, no run ever overwrites a subscriber:
    each one stays in the map, with its events due, until it is unsubscribed or the hub stops.
   */
  lemma {:induction false} NobodyReplaced(cfg: Config, steps: seq<Step>, names: set<string>)
    requires Feasible(cfg, steps) && NamesIn(steps, names) && Distinguishable(names) && Run(cfg, steps).nextID < 0xD800
    ensures var h := Run(cfg, steps);
      Keys(h, names) && forall id :: id in h.subs ==> !h.subs[id].ending.Replaced?
  {
    if steps == [] {
    } else {
      var n := |steps| - 1;
      var h, s := Run(cfg, steps[..n]), steps[n];
      RunKeeps(cfg, steps[..n]);
      assert s in steps && forall t :: t in steps[..n] ==> t in steps;
      NobodyReplaced(cfg, steps[..n], names);
      if s.Subscribe? {
        NoCollision(h, s.name, names);
        SubscribeKeeps(cfg, h, s.name, names);
      } else {
        NamesKept(cfg, h, s, names);
      }
    }
  }

  lemma SubscribeKeeps(cfg: Config, h: State, name: string, names: set<string>)
    requires Registered(h) && Keys(h, names) && name in names && KeyFor(h, name) !in h.subscribers
    requires forall id :: id in h.subs ==> !h.subs[id].ending.Replaced?
    ensures var n := DoSubscribe(cfg, h, name);
      Keys(n, names) && forall id :: id in n.subs ==> !n.subs[id].ending.Replaced?
  {}

  lemma NamesKept(cfg: Config, h: State, s: Step, names: set<string>)
    requires Enabled(cfg, h, s) && !s.Subscribe? && Keys(h, names)
    requires forall id :: id in h.subs ==> !h.subs[id].ending.Replaced?
    ensures var n := Next(cfg, h, s);
      Keys(n, names) && forall id :: id in n.subs ==> !n.subs[id].ending.Replaced?
  {}

  lemma RunMore(cfg: Config, steps: seq<Step>, s: Step)
    requires Feasible(cfg, steps) && Enabled(cfg, Run(cfg, steps), s)
    ensures Feasible(cfg, steps + [s]) && Run(cfg, steps + [s]) == Next(cfg, Run(cfg, steps), s)
  {
    assert (steps + [s])[..|steps|] == steps;
  }

  lemma Displaces(cfg: Config, h: State, name: string, id: nat)
    requires Registered(h) && name in h.subscribers && Fallback(name, h.nextID + 1) in h.subscribers
    requires id == h.subscribers[Fallback(name, h.nextID + 1)]
    ensures id in h.subs && DoSubscribe(cfg, h, name).subs[id] == h.subs[id].(ending := Replaced(|h.trace|))
  {}

  lemma FirstTwo(cfg: Config, taken: string)
    requires taken != "a"
    ensures var h := DoSubscribe(cfg, DoSubscribe(cfg, START, "a"), taken);
      h.subscribers == map["a" := 1, taken := 2] && h.nextID == 2 && Registered(h)
  {
    RegisteredSubscribe(cfg, START, "a");
    var h := DoSubscribe(cfg, START, "a");
    assert h.subscribers == map["a" := 1];
    RegisteredSubscribe(cfg, h, taken);
  }

  /** Without that, three subscriptions are enough to lose one. */
  lemma ThreeCollide(cfg: Config)
    ensures var steps := [Subscribe("a"), Subscribe(Fallback("a", 3)), Subscribe("a")];
      Feasible(cfg, steps) && 2 in Run(cfg, steps).subs && Run(cfg, steps).subs[2].ending.Replaced?
  {
    var taken := Fallback("a", 3);
    assert |taken| == 3;
    FirstTwo(cfg, taken);
    var one, two := [Subscribe("a")], [Subscribe("a"), Subscribe(taken)];
    RunMore(cfg, [], Subscribe("a"));
    assert [] + [Subscribe("a")] == one;
    RunMore(cfg, one, Subscribe(taken));
    assert one + [Subscribe(taken)] == two;
    Displaces(cfg, Run(cfg, two), "a", 2);
    RunMore(cfg, two, Subscribe("a"));
    assert two + [Subscribe("a")] == [Subscribe("a"), Subscribe(taken), Subscribe("a")];
  }

  /** A replaced subscriber keeps its channel open for ever: neither Unsubscribe nor Stop closes it. */
  lemma ReplacedStaysOpen(cfg: Config, steps: seq<Step>, id: nat)
    requires Feasible(cfg, steps) && id in Run(cfg, steps).subs && Run(cfg, steps).subs[id].ending.Replaced?
    ensures Run(cfg, steps).subs[id].open <==> SelfClose(id) !in steps
  {
    RunKeeps(cfg, steps);
    SelfClosedMeans(cfg, steps, id);
    assert ChannelOK(Run(cfg, steps), Run(cfg, steps).subs[id]);
  }

  /** A consumer that closes its own subscription makes the next broadcast panic. */
  lemma SelfCloseBreaks(cfg: Config, e: Event)
    ensures var steps := [Subscribe("a"), SelfClose(1), Receive(e), Lock, Deliver("a", false)];
      Feasible(cfg, steps) && Run(cfg, steps).panicked
  {
    var two := [Subscribe("a"), SelfClose(1)];
    RunMore(cfg, [], Subscribe("a"));
    assert [] + [Subscribe("a")] == [Subscribe("a")];
    RunMore(cfg, [Subscribe("a")], SelfClose(1));
    assert [Subscribe("a")] + [SelfClose(1)] == two;
    var h := Run(cfg, two);
    assert h.subscribers == map["a" := 1] && !h.subs[1].open;
    SendPanics(cfg, two, e, "a");
    assert two + [Receive(e), Lock, Deliver("a", false)] == [Subscribe("a"), SelfClose(1), Receive(e), Lock, Deliver("a", false)];
  }

  lemma SendPanics(cfg: Config, steps: seq<Step>, e: Event, key: string)
    requires Feasible(cfg, steps) && Run(cfg, steps).pc.Idle? && Run(cfg, steps).stop.Running?
    requires Target(Run(cfg, steps), key) && !Run(cfg, steps).subs[Run(cfg, steps).subscribers[key]].open
    ensures Feasible(cfg, steps + [Receive(e), Lock, Deliver(key, false)])
    ensures Run(cfg, steps + [Receive(e), Lock, Deliver(key, false)]).panicked
  {
    RunMore(cfg, steps, Receive(e));
    RunMore(cfg, steps + [Receive(e)], Lock);
    RunMore(cfg, steps + [Receive(e)] + [Lock], Deliver(key, false));
    assert steps + [Receive(e)] + [Lock] + [Deliver(key, false)] == steps + [Receive(e), Lock, Deliver(key, false)];
  }

  // ----- waiting in blocking mode -----

  /** The broadcast has come to this subscriber, and its channel has no room; an unbuffered one never has. */
  predicate Waits(cfg: Config, h: State, key: string) {
    && h.pc.Sending? && key in h.pc.remaining && Target(h, key) && !cfg.dropOnSlow
    && var c := h.subs[h.subscribers[key]]; c.open && |c.buf| >= cfg.bufferSize
  }

  /**
    A subscriber's turn cannot be taken without its consumer exactly while the broadcast waits for it. The consumer itself
    can take the event from the hub only when nothing is left in the channel, so a full buffer must be consumed from first.
   */
  lemma WaitsExactly(cfg: Config, steps: seq<Step>, key: string)
    requires Feasible(cfg, steps)
    ensures var h := Run(cfg, steps);
      h.pc.Sending? && key in h.pc.remaining ==>
        && (!Enabled(cfg, h, Deliver(key, false)) && !Enabled(cfg, h, Drop(key)) <==> Waits(cfg, h, key))
        && (Waits(cfg, h, key) && cfg.bufferSize > 0 ==> !Enabled(cfg, h, Deliver(key, true)))
  {
    RunKeeps(cfg, steps);
  }

  /** While it waits, the read lock keeps everybody from subscribing and unsubscribing; only its own consumer ends it. */
  lemma WaitStep(cfg: Config, h: State, key: string, s: Step)
    requires Registered(h) && Phases(h) && Waits(cfg, h, key) && Enabled(cfg, h, s)
    ensures !s.Subscribe? && !s.Unsubscribe?
    ensures s != Consume(h.subscribers[key]) && s != SelfClose(h.subscribers[key]) && s != Deliver(key, true)
      && !Next(cfg, h, s).panicked
      ==> Waits(cfg, Next(cfg, h, s), key) && Next(cfg, h, s).subscribers == h.subscribers
  {
    if s.Deliver? || s.Drop? {
      assert h.subs[h.subscribers[s.key]].key == s.key && h.subs[h.subscribers[key]].key == key;
    }
  }

  /**
    In blocking mode a channel without room whose consumer neither takes anything nor closes it holds up the hub for good:
    no later event is broadcast to it, and nobody, that consumer included, gets to unsubscribe.
   */
  lemma {:induction false} WaitsForConsumer(cfg: Config, steps: seq<Step>, more: seq<Step>, key: string)
    requires Feasible(cfg, steps) && Feasible(cfg, steps + more) && Waits(cfg, Run(cfg, steps), key)
    requires !Run(cfg, steps + more).panicked
    requires Consume(Run(cfg, steps).subscribers[key]) !in more && SelfClose(Run(cfg, steps).subscribers[key]) !in more
    requires Deliver(key, true) !in more
    ensures Waits(cfg, Run(cfg, steps + more), key) && Run(cfg, steps + more).subscribers == Run(cfg, steps).subscribers
    ensures forall s :: s in more ==> !s.Subscribe? && !s.Unsubscribe?
    decreases |more|
  {
    if more == [] {
      assert steps + more == steps;
    } else {
      var n := |more| - 1;
      assert (steps + more)[..|steps + more| - 1] == steps + more[..n];
      assert more == more[..n] + [more[n]];
      PanicExactly(cfg, steps + more[..n], more[n]);
      WaitsForConsumer(cfg, steps, more[..n], key);
      RunKeeps(cfg, steps + more[..n]);
      WaitStep(cfg, Run(cfg, steps + more[..n]), key, more[n]);
    }
  }

  /** One subscriber that has consumed none of its first n events. */
  ghost predicate Unread(cfg: Config, steps: seq<Step>, n: nat) {
    && Feasible(cfg, steps)
    && var h := Run(cfg, steps);
    && h.pc.Idle? && h.stop.Running? && !h.panicked && h.subscribers == map["a" := 1]
    && 1 in h.subs && h.subs[1].open && |h.subs[1].buf| == n
  }

  lemma {:induction false} Filled(cfg: Config, e: Event, n: nat) returns (steps: seq<Step>)
    requires n <= cfg.bufferSize
    ensures Unread(cfg, steps, n)
  {
    if n == 0 {
      RunMore(cfg, [], Subscribe("a"));
      steps := [] + [Subscribe("a")];
    } else {
      var before := Filled(cfg, e, n - 1);
      OneMore(cfg, before, e, n - 1);
      steps := before + [Receive(e)] + [Lock] + [Deliver("a", false)] + [Unlock];
    }
  }

  lemma Broadcasting(cfg: Config, steps: seq<Step>, e: Event, n: nat)
    requires Unread(cfg, steps, n)
    ensures Feasible(cfg, steps + [Receive(e)] + [Lock])
    ensures Run(cfg, steps + [Receive(e)] + [Lock])
      == var h := Run(cfg, steps); h.(pc := Sending(e, {"a"}), trace := h.trace + [e], received := h.received + 1)
  {
    RunMore(cfg, steps, Receive(e));
    RunMore(cfg, steps + [Receive(e)], Lock);
    assert map["a" := 1].Keys == {"a"};
  }

  lemma OneMore(cfg: Config, steps: seq<Step>, e: Event, n: nat)
    requires Unread(cfg, steps, n) && n < cfg.bufferSize
    ensures Unread(cfg, steps + [Receive(e)] + [Lock] + [Deliver("a", false)] + [Unlock], n + 1)
  {
    Broadcasting(cfg, steps, e, n);
    var sending := steps + [Receive(e)] + [Lock];
    RunMore(cfg, sending, Deliver("a", false));
    assert {"a"} - {"a"} == {};
    RunMore(cfg, sending + [Deliver("a", false)], Unlock);
  }

  /** It comes to that in blocking mode, whatever the buffer size: a subscriber that consumes nothing is enough. */
  lemma WaitHappens(cfg: Config, e: Event) returns (steps: seq<Step>)
    requires !cfg.dropOnSlow
    ensures Feasible(cfg, steps) && Waits(cfg, Run(cfg, steps), "a") && !Run(cfg, steps).panicked
  {
    var full := Filled(cfg, e, cfg.bufferSize);
    Broadcasting(cfg, full, e, cfg.bufferSize);
    steps := full + [Receive(e)] + [Lock];
  }
}
