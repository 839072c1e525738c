/** When a subscriber's channel fills, what that costs it, and what it cannot hold up, over every run of the hub. */
module HubBuffers {
  import opened Collections
  import opened Hub
  import opened HubLaws

  // ----- the buffer -----

  predicate Fits(cfg: Config, h: State, id: nat) {
    id in h.subs ==> |h.subs[id].buf| <= cfg.bufferSize
  }

  lemma FitsStep(cfg: Config, h: State, s: Step, id: nat)
    requires Enabled(cfg, h, s) && Fits(cfg, h, id)
    ensures Fits(cfg, Next(cfg, h, s), id)
  {}

  /** In every run a channel holds at most as many events as its buffer. */
  lemma {:induction false} BufferBound(cfg: Config, steps: seq<Step>, id: nat)
    requires Feasible(cfg, steps)
    ensures Fits(cfg, Run(cfg, steps), id)
  {
    if steps == [] {
    } else {
      var n := |steps| - 1;
      BufferBound(cfg, steps[..n], id);
      FitsStep(cfg, Run(cfg, steps[..n]), steps[n], id);
    }
  }

  /** Whoever's count of dropped events changes lost one, on its turn, with its buffer full and dropping switched on. */
  lemma DropStep(cfg: Config, h: State, s: Step, id: nat)
    requires Enabled(cfg, h, s) && id in h.subs && id in Next(cfg, h, s).subs
    requires Registered(h)
    ensures var n := Next(cfg, h, s);
      n.subs[id].dropped != h.subs[id].dropped ==>
        && cfg.dropOnSlow && |h.subs[id].buf| >= cfg.bufferSize && h.subs[id].open
        && n.subs[id].dropped == h.subs[id].dropped + 1 && n.dropped == h.dropped + 1
        && h.pc.Sending? && h.subs[id].key in h.pc.remaining && n.subs[id].buf == h.subs[id].buf
  {
    if s.Deliver? || s.Drop? {
      assert h.subs[h.subscribers[s.key]].key == s.key;
    }
  }

  lemma SubsKept(cfg: Config, h: State, s: Step, id: nat)
    requires Enabled(cfg, h, s) && Registered(h)
    ensures id in h.subs ==> id in Next(cfg, h, s).subs
    ensures id !in h.subs && id in Next(cfg, h, s).subs ==> Next(cfg, h, s).subs[id].dropped == 0
  {}

  /** In every run an event is dropped only for a subscriber whose channel holds exactly as many as its buffer. */
  lemma DropsOnlyFull(cfg: Config, steps: seq<Step>, s: Step, id: nat)
    requires Feasible(cfg, steps + [s]) && Feasible(cfg, steps) && id in Run(cfg, steps).subs
    ensures id in Run(cfg, steps + [s]).subs
    ensures Run(cfg, steps + [s]).subs[id].dropped != Run(cfg, steps).subs[id].dropped
      ==> cfg.dropOnSlow && |Run(cfg, steps).subs[id].buf| == cfg.bufferSize
  {
    assert (steps + [s])[..|steps|] == steps;
    RunKeeps(cfg, steps);
    BufferBound(cfg, steps, id);
    SubsKept(cfg, Run(cfg, steps), s, id);
    DropStep(cfg, Run(cfg, steps), s, id);
  }

  /** The subscriber's channel has had room after every step. */
  ghost predicate HadRoom(cfg: Config, steps: seq<Step>, id: nat)
    requires Feasible(cfg, steps)
  {
    && (id in Run(cfg, steps).subs ==> |Run(cfg, steps).subs[id].buf| < cfg.bufferSize)
    && (steps == [] || HadRoom(cfg, steps[..|steps| - 1], id))
  }

  lemma {:induction false} NoDrops(cfg: Config, steps: seq<Step>, id: nat)
    requires Feasible(cfg, steps) && HadRoom(cfg, steps, id) && id in Run(cfg, steps).subs
    ensures Run(cfg, steps).subs[id].dropped == 0
  {
    if steps == [] {
    } else {
      var n := |steps| - 1;
      var h := Run(cfg, steps[..n]);
      RunKeeps(cfg, steps[..n]);
      SubsKept(cfg, h, steps[n], id);
      if id in h.subs {
        NoDrops(cfg, steps[..n], id);
        DropStep(cfg, h, steps[n], id);
      }
    }
  }

  /**
    In either mode, a registered subscriber whose channel never filled has, whenever no broadcast is under way, exactly the
    events since it subscribed.
   */
  lemma RoomIsExact(cfg: Config, steps: seq<Step>, id: nat)
    requires Feasible(cfg, steps) && !Run(cfg, steps).panicked && HadRoom(cfg, steps, id)
    requires id in Run(cfg, steps).subs && Run(cfg, steps).subs[id].ending.Live? && !Run(cfg, steps).pc.Sending?
    ensures var h := Run(cfg, steps);
      && h.subs[id].dropped == 0
      && h.subs[id].start <= |h.trace|
      && h.subs[id].consumed + h.subs[id].buf == h.trace[h.subs[id].start..]
  {
    var h := Run(cfg, steps);
    HubDelivery(cfg, steps);
    NoDrops(cfg, steps, id);
    SubsequenceShorter(Got(h.subs[id]), Due(h, h.subs[id]));
  }

  // ----- dropping never waits -----

  /** The hub's own steps in a broadcast; they need no consumer. */
  predicate OwnStep(s: Step) {
    (s.Deliver? && !s.direct) || s.Drop? || s.Unlock?
  }

  ghost predicate GoesOn(steps: seq<Step>, longer: seq<Step>) {
    steps <= longer && forall i :: |steps| <= i < |longer| ==> OwnStep(longer[i])
  }

  lemma NextTurn(cfg: Config, steps: seq<Step>) returns (s: Step)
    requires Feasible(cfg, steps) && cfg.dropOnSlow && Run(cfg, steps).pc.Sending?
    ensures OwnStep(s) && Feasible(cfg, steps + [s])
    ensures var h, n := Run(cfg, steps), Run(cfg, steps + [s]);
      n.pc.Idle? || (n.pc.Sending? && n.pc.event == h.pc.event && |n.pc.remaining| < |h.pc.remaining|)
  {
    var h := Run(cfg, steps);
    RunKeeps(cfg, steps);
    if h.pc.remaining == {} {
      s := Unlock;
    } else {
      var key :| key in h.pc.remaining;
      WaitsExactly(cfg, steps, key);
      s := if Enabled(cfg, h, Deliver(key, false)) then Deliver(key, false) else Drop(key);
    }
    RunMore(cfg, steps, s);
  }

  /** With dropping on, a broadcast is over after at most one turn of each subscriber left and the unlock, whatever consumers do. */
  lemma BroadcastEnds(cfg: Config, steps: seq<Step>) returns (longer: seq<Step>)
    requires Feasible(cfg, steps) && cfg.dropOnSlow && Run(cfg, steps).pc.Sending?
    ensures Feasible(cfg, longer) && GoesOn(steps, longer) && Run(cfg, longer).pc.Idle?
    ensures |longer| - |steps| <= |Run(cfg, steps).pc.remaining| + 1
  {
    longer := steps;
    var pc := Run(cfg, steps).pc;
    while pc.Sending?
      invariant Feasible(cfg, longer) && pc == Run(cfg, longer).pc && GoesOn(steps, longer)
      invariant pc.Idle? || pc.Sending?
      invariant |longer| - |steps| + (if pc.Sending? then |pc.remaining| + 1 else 0) <= |Run(cfg, steps).pc.remaining| + 1
      decreases if pc.Sending? then |pc.remaining| + 1 else 0
    {
      var s := NextTurn(cfg, longer);
      longer := longer + [s];
      pc := Run(cfg, longer).pc;
    }
  }

  // ----- the key -----

  /** The character is the code point with this number, modulo the width of a rune, or U+FFFD where there is none. */
  predicate IsRune(c: char, id: nat) {
    var r := id % 4294967296;
    c as int == if r <= 55295 || 57344 <= r <= 1114111 then r else 65533
  }

  predicate IsKey(taken: set<string>, name: string, id: nat, key: string) {
    if name !in taken then key == name
    else |key| == |name| + 2 && key[..|name|] == name && key[|name|] == '_' && IsRune(key[|name| + 1], id)
  }

  lemma RuneIs(id: nat)
    ensures IsRune(RuneOf(id), id)
  {}

  lemma KeyIs(h: State, name: string)
    ensures IsKey(h.subscribers.Keys, name, h.nextID + 1, KeyFor(h, name))
  {
    var c := RuneOf(h.nextID + 1);
    RuneIs(h.nextID + 1);
    if name in h.subscribers {
      assert KeyFor(h, name) == name + ['_', c];
    }
  }

  /** The next number went to a subscriber of this name, which was put into the map under its key. */
  predicate SubscribedUnder(h: State, n: State, name: string) {
    var id := h.nextID + 1;
    && id in n.subs && n.subs[id].name == name && n.nextID == id
    && n.subscribers == h.subscribers[n.subs[id].key := id]
    && IsKey(h.subscribers.Keys, name, id, n.subs[id].key)
  }

  lemma SubscribeKey(cfg: Config, h: State, name: string)
    ensures SubscribedUnder(h, DoSubscribe(cfg, h, name), name)
  {
    KeyIs(h, name);
  }

  /**
    In every run a new subscriber is registered under its name if that is free, and otherwise under the name, an
    underscore and the rune of its number.
   */
  lemma SubscribesUnder(cfg: Config, steps: seq<Step>, name: string)
    requires Feasible(cfg, steps) && Feasible(cfg, steps + [Subscribe(name)])
    ensures SubscribedUnder(Run(cfg, steps), Run(cfg, steps + [Subscribe(name)]), name)
  {
    SubscribeKey(cfg, Run(cfg, steps), name);
    assert (steps + [Subscribe(name)])[..|steps|] == steps;
  }
}
