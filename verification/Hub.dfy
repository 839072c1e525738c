/**
  The fan-out hub of internal/pubsub/hub.go as a transition system: the hub goroutine's
  multi-step broadcast under the read lock, Subscribe, Unsubscribe and the closing phase of
  Stop under the write lock, and consumers, in any interleaving.
 */
module Hub {
  import opened Telemetry

  datatype Config = Config(bufferSize: nat, dropOnSlow: bool)

  /** Whether a subscriber is in the map, and if not, how many events had been broadcast when it left. */
  datatype Ending = Live | Removed(at: nat) | Replaced(at: nat)

  /** A subscriber with its channel. `start` events had been broadcast when it was registered under `key`. */
  datatype Sub = Sub(
    name: string,
    key: string,
    open: bool,
    closeOnce: bool,
    selfClosed: bool,
    buf: seq<Event>,
    consumed: seq<Event>,
    dropped: nat,
    start: nat,
    ending: Ending)

  datatype Pc = Idle | Received(event: Event) | Sending(event: Event, remaining: set<string>) | Halted

  datatype StopPhase = Running | Stopping | Closing(todo: set<string>) | Stopped

  /** `subs` is every subscriber ever made; `trace` the events whose broadcast began; `panicked` a send or close on a closed channel. */
  datatype State = State(
    subscribers: map<string, nat>,
    subs: map<nat, Sub>,
    nextID: nat,
    pc: Pc,
    stop: StopPhase,
    trace: seq<Event>,
    received: nat,
    broadcast: nat,
    dropped: nat,
    panicked: bool)

  const START := State(map[], map[], 0, Idle, Running, [], 0, 0, 0, false)

  // ----- the steps -----

  /** string(rune(id)): numbers that are no code point become U+FFFD. */
  function RuneOf(id: nat): char {
    var r := id % 0x1_0000_0000;
    if r < 0xD800 || 0xE000 <= r < 0x11_0000 then r as char else '\U{FFFD}'
  }

  function Fallback(name: string, id: nat): string {
    name + ['_', RuneOf(id)]
  }

  function KeyFor(h: State, name: string): string {
    if name in h.subscribers then Fallback(name, h.nextID + 1) else name
  }

  function NewSub(cfg: Config, h: State, name: string): Sub {
    Sub(name, KeyFor(h, name), true, false, false, [], [], 0, |h.trace|, Live)
  }

  /** A key already taken is overwritten: its subscriber leaves the map with its channel open. */
  function Displaced(h: State, key: string): map<nat, Sub> {
    if key in h.subscribers && h.subscribers[key] in h.subs
    then var was := h.subscribers[key]; h.subs[was := h.subs[was].(ending := Replaced(|h.trace|))]
    else h.subs
  }

  function DoSubscribe(cfg: Config, h: State, name: string): State {
    var id, key := h.nextID + 1, KeyFor(h, name);
    h.(subscribers := h.subscribers[key := id], subs := Displaced(h, key)[id := NewSub(cfg, h, name)], nextID := id)
  }

  /** Subscriber.Close: the once guards the close of the channel. */
  function Close(s: Sub): Sub {
    if s.closeOnce then s else s.(closeOnce := true, open := false)
  }

  /** Unsubscribe looks the ID up among the map's values; a subscriber that is not there is left alone. */
  function DoUnsubscribe(h: State, id: nat): State
    requires id in h.subs
  {
    var s := h.subs[id];
    if s.key in h.subscribers && h.subscribers[s.key] == id
    then h.(subscribers := h.subscribers - {s.key}, subs := h.subs[id := Close(s).(ending := Removed(|h.trace|))],
            panicked := h.panicked || (!s.closeOnce && !s.open))
    else h
  }

  function DoDeliver(h: State, key: string, direct: bool): State
    requires h.pc.Sending? && key in h.subscribers && h.subscribers[key] in h.subs
  {
    var id := h.subscribers[key];
    var s := h.subs[id];
    if !s.open then h.(panicked := true, pc := Idle)
    else
      var t := if direct then s.(consumed := s.consumed + [h.pc.event]) else s.(buf := s.buf + [h.pc.event]);
      h.(subs := h.subs[id := t], broadcast := h.broadcast + 1, pc := h.pc.(remaining := h.pc.remaining - {key}))
  }

  function DoDrop(h: State, key: string): State
    requires h.pc.Sending? && key in h.subscribers && h.subscribers[key] in h.subs
  {
    var id := h.subscribers[key];
    var s := h.subs[id];
    h.(subs := h.subs[id := s.(dropped := s.dropped + 1)], dropped := h.dropped + 1,
       pc := h.pc.(remaining := h.pc.remaining - {key}))
  }

  function DoClose(h: State, key: string): State
    requires h.stop.Closing? && key in h.subscribers && h.subscribers[key] in h.subs
  {
    var id := h.subscribers[key];
    var s := h.subs[id];
    h.(subs := h.subs[id := Close(s)], stop := Closing(h.stop.todo - {key}), panicked := h.panicked || (!s.closeOnce && !s.open))
  }

  function Retired(h: State): map<nat, Sub> {
    map id | id in h.subs :: if h.subs[id].ending.Live? then h.subs[id].(ending := Removed(|h.trace|)) else h.subs[id]
  }

  datatype Step =
    | Subscribe(name: string)
    | Unsubscribe(id: nat)
    | Receive(event: Event)
    | Lock
    | Deliver(key: string, direct: bool)
    | Drop(key: string)
    | Unlock
    | Consume(id: nat)
    | SelfClose(id: nat)
    | Halt
    | StopCall
    | StopLock
    | StopClose(key: string)
    | StopUnlock

  /** The write lock is free: no broadcast holds the read lock and Stop is not closing channels. */
  predicate Free(h: State) {
    !h.pc.Sending? && !h.stop.Closing?
  }

  predicate Target(h: State, key: string) {
    key in h.subscribers && h.subscribers[key] in h.subs
  }

  /**
    A send goes through when the buffer has room or, `direct`, when the consumer is waiting on an empty
    channel; on a closed channel it panics at once. The default branch of the select is taken only when full.
   */
  predicate Enabled(cfg: Config, h: State, s: Step) {
    match s
    case Subscribe(_) => Free(h)
    case Unsubscribe(id) => Free(h) && id in h.subs
    case Receive(_) => h.pc.Idle?
    case Lock => h.pc.Received? && !h.stop.Closing?
    case Deliver(key, direct) =>
      && h.pc.Sending? && key in h.pc.remaining && Target(h, key)
      && var c := h.subs[h.subscribers[key]]; c.open ==> if direct then c.buf == [] else |c.buf| < cfg.bufferSize
    case Drop(key) =>
      && h.pc.Sending? && key in h.pc.remaining && Target(h, key) && cfg.dropOnSlow
      && var c := h.subs[h.subscribers[key]]; c.open && |c.buf| >= cfg.bufferSize
    case Unlock => h.pc.Sending? && h.pc.remaining == {}
    case Consume(id) => id in h.subs && h.subs[id].buf != []
    case SelfClose(id) => id in h.subs
    case Halt => h.pc.Idle?
    case StopCall => h.stop.Running?
    case StopLock => h.stop.Stopping? && h.pc.Halted?
    case StopClose(key) => h.stop.Closing? && key in h.stop.todo && Target(h, key)
    case StopUnlock => h.stop.Closing? && h.stop.todo == {}
  }

  function Next(cfg: Config, h: State, s: Step): State
    requires Enabled(cfg, h, s)
  {
    match s
    case Subscribe(name) => DoSubscribe(cfg, h, name)
    case Unsubscribe(id) => DoUnsubscribe(h, id)
    case Receive(e) => h.(pc := Received(e), received := h.received + 1)
    case Lock => h.(pc := Sending(h.pc.event, h.subscribers.Keys), trace := h.trace + [h.pc.event])
    case Deliver(key, direct) => DoDeliver(h, key, direct)
    case Drop(key) => DoDrop(h, key)
    case Unlock => h.(pc := Idle)
    case Consume(id) =>
      var c := h.subs[id];
      h.(subs := h.subs[id := c.(buf := c.buf[1..], consumed := c.consumed + [c.buf[0]])])
    case SelfClose(id) =>
      var c := h.subs[id];
      h.(subs := h.subs[id := Close(c).(selfClosed := true)], panicked := h.panicked || (!c.closeOnce && !c.open))
    case Halt => h.(pc := Halted)
    case StopCall => h.(stop := Stopping)
    case StopLock => h.(stop := Closing(h.subscribers.Keys))
    case StopClose(key) => DoClose(h, key)
    case StopUnlock => h.(subscribers := map[], subs := Retired(h), stop := Stopped)
  }

  predicate Feasible(cfg: Config, steps: seq<Step>)
    decreases |steps|, 0
  {
    steps == [] || (Feasible(cfg, steps[..|steps| - 1]) && Enabled(cfg, Run(cfg, steps[..|steps| - 1]), steps[|steps| - 1]))
  }

  function Run(cfg: Config, steps: seq<Step>): State
    requires Feasible(cfg, steps)
    decreases |steps|, 1
  {
    if steps == [] then START else Next(cfg, Run(cfg, steps[..|steps| - 1]), steps[|steps| - 1])
  }
}
