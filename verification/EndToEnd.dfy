/** The pipeline's main results, composed with the hub, the registry and the decoder. */
module EndToEnd {
  import opened Bytes
  import opened Telemetry
  import opened Frames
  import opened Collections
  import opened Pipeline
  import opened PipelineLaws
  import opened PipelineData
  import D = Decoder
  import R = Registry
  import RH = RegistryHistory
  import H = Hub
  import HL = HubLaws

  /** What holds after every run of the pipeline. */
  ghost predicate Sound(cfg: Config, s: State) {
    Ownership(s) && Tags(s) && Books(s) && Buffers(cfg, s) && Contents(s) && Events(cfg, s) && Given(s)
  }

  lemma StartBooks()
    ensures Books(START)
  {
    EmptyBooks(START);
  }

  lemma EmptyBooks(s: State)
    requires s.place == [] && s.datagrams == [] && s.receiver.Waiting? && s.queue == [] && s.work == map[] && s.out == []
    requires s.hubHand.None? && s.processorHand.None? && s.hubItems == [] && s.registryItems == [] && s.buckets == map[]
    requires s.packetsReceived == s.packetsDropped == s.errors == s.processed == s.outputDrops == 0
    ensures Books(s)
  {
    assert DropsOf(s.buckets) == map[] && Sum(DropsOf(s.buckets)) == 0;
    assert Busy(s.work, AtWorker) == {} && Busy(s.work, Passing) == {};
    forall p
      ensures Tallies(s, p)
    {
      assert CountAt(s.place, p) == 0;
    }
  }

  lemma StartOwners()
    ensures Ownership(START)
  {}

  lemma StartTags()
    ensures Tags(START)
  {}

  lemma StartData(cfg: Config)
    ensures Buffers(cfg, START) && Contents(START) && Events(cfg, START)
  {}

  lemma StartGiven()
    ensures Given(START)
  {}

  lemma SoundStep(cfg: Config, s: State, t: Step)
    requires Sound(cfg, s) && Enabled(cfg, s, t)
    ensures Sound(cfg, Next(cfg, s, t))
  {
    OwnershipStep(cfg, s, t);
    TagsStep(cfg, s, t);
    GivenStep(cfg, s, t);
    BooksStep(cfg, s, t);
    BuffersStep(cfg, s, t);
    ContentsStep(cfg, s, t);
    EventsStep(cfg, s, t);
  }

  lemma StartSound(cfg: Config)
    ensures Sound(cfg, START)
  {
    StartOwners();
    StartTags();
    StartBooks();
    StartData(cfg);
    StartGiven();
  }

  lemma {:induction false} RunSound(cfg: Config, steps: seq<Step>)
    requires Feasible(cfg, steps)
    ensures Sound(cfg, Run(cfg, steps))
  {
    if steps == [] {
      StartSound(cfg);
    } else {
      var n := |steps| - 1;
      RunSound(cfg, steps[..n]);
      SoundStep(cfg, Run(cfg, steps[..n]), steps[n]);
    }
  }

  /**
    In every run a worker decodes exactly the bytes and address of the datagram it was given, and the packet
    it or the receiver puts back is not in the pool already.
   */
  lemma WorkerSeesDatagram(cfg: Config, steps: seq<Step>, w: nat)
    requires Feasible(cfg, steps) && w in Run(cfg, steps).work
    ensures var s, g := Run(cfg, steps), Run(cfg, steps).work[w];
      && g.packet in s.packets && g.packet !in s.pool
      && (!g.Releasing? ==> Carries(s, g.packet, g.tag))
  {
    RunSound(cfg, steps);
  }

  // ----- conservation -----

  /** Datagrams received whose rate limit is still to be decided or recorded. */
  ghost function Unsettled(s: State): nat {
    (if s.receiver.Filled? then 1 else 0) + |Busy(s.work, AtWorker)|
  }

  /** Events counted as processed that are with a worker or in a consumer's hands. */
  ghost function InHands(s: State): nat {
    |Busy(s.work, Passing)| + (if s.hubHand.Some? then 1 else 0) + (if s.processorHand.Some? then 1 else 0)
  }

  /** The events a hub run was given. */
  function HubInput(steps: seq<H.Step>): seq<Event> {
    if steps == [] then []
    else HubInput(steps[..|steps| - 1]) + (if steps[|steps| - 1].Receive? then [steps[|steps| - 1].event] else [])
  }

  /** The events a registry run was given. */
  function RegistryInput(steps: seq<R.Step>): seq<Event> {
    if steps == [] then []
    else RegistryInput(steps[..|steps| - 1]) + (if steps[|steps| - 1].EventStep? then [steps[|steps| - 1].event] else [])
  }

  lemma {:induction false} HubCounts(cfg: H.Config, steps: seq<H.Step>)
    requires H.Feasible(cfg, steps)
    ensures H.Run(cfg, steps).received == |HubInput(steps)|
  {
    if steps == [] {
    } else {
      HubCounts(cfg, steps[..|steps| - 1]);
    }
  }

  lemma {:induction false} RegistryInputCounted(steps: seq<R.Step>)
    ensures RH.EventCount(steps) == |RegistryInput(steps)|
  {
    if steps == [] {
    } else {
      RegistryInputCounted(steps[..|steps| - 1]);
    }
  }

  /**
    In every reachable state no datagram is lost or counted twice: each received one was refused, waits, is being
    worked on, failed to decode, was limited or was processed; each processed event was dropped at the
    output, waits there, is in somebody's hands, or was counted by the hub or by the registry, but not both.
   */
  lemma Conservation(cfg: Config, steps: seq<Step>, hub: H.Config, hubSteps: seq<H.Step>, reg: R.Config, regSteps: seq<R.Step>)
    requires Feasible(cfg, steps)
    requires H.Feasible(hub, hubSteps) && HubInput(hubSteps) == EventsOf(Run(cfg, steps).hubItems)
    requires R.Feasible(reg, regSteps) && RegistryInput(regSteps) == EventsOf(Run(cfg, steps).registryItems)
    ensures var s := Run(cfg, steps);
      && s.packetsReceived
         == s.packetsDropped + |s.queue| + Unsettled(s) + s.errors + Sum(DropsOf(s.buckets)) + s.processed
      && s.processed
         == s.outputDrops + |s.out| + InHands(s) + H.Run(hub, hubSteps).received + RH.StatsOf(R.Run(reg, regSteps)).messages
  {
    var s := Run(cfg, steps);
    RunSound(cfg, steps);
    Balanced(s);
    HubCounts(hub, hubSteps);
    RegistryInputCounted(regSteps);
    RH.MessagesCounted(reg, regSteps);
  }

  /** Every datagram is in one of the places the program counts. */
  lemma Tallied(s: State)
    requires Books(s)
    ensures |s.place| == Tally(s, AtReceiver) + Tally(s, InQueue) + Tally(s, AtWorker) + Tally(s, Refused) + Tally(s, Failed)
      + Tally(s, Limited) + PastLimit(s)
  {
    PipelineLaws.CountAll(s.place);
    assert Tallies(s, AtReceiver) && Tallies(s, InQueue) && Tallies(s, AtWorker) && Tallies(s, Passing);
    assert Tallies(s, InOutput) && Tallies(s, AtHub) && Tallies(s, AtProcessor) && Tallies(s, Refused);
    assert Tallies(s, Failed) && Tallies(s, Limited) && Tallies(s, OutputDropped) && Tallies(s, HubGot);
    assert Tallies(s, RegistryGot);
  }

  lemma Balanced(s: State)
    requires Books(s)
    ensures s.packetsReceived
         == s.packetsDropped + |s.queue| + Unsettled(s) + s.errors + Sum(DropsOf(s.buckets)) + s.processed
    ensures s.processed == s.outputDrops + |s.out| + InHands(s) + |s.hubItems| + |s.registryItems|
  {
    Tallied(s);
  }

  // ----- validity from the wire to the registry -----

  ghost predicate UsesDecoder(cfg: Config) {
    forall data, addr, now :: cfg.decode(data, addr, now) == D.DecodePacket(data, addr, now)
  }

  lemma DecodedOK(cfg: Config, d: Datagram, now: int, e: Event)
    requires UsesDecoder(cfg) && cfg.decode(d.bytes, d.sourceAddr, now) == Ok(e)
    ensures D.EventOK(e)
  {
    D.AcceptedIsValid(d.bytes, d.sourceAddr, now, e);
  }

  lemma AnyDecodedOK(cfg: Config, s: State, tag: nat, e: Event)
    requires UsesDecoder(cfg) && DecodedFrom(cfg, s, tag, e)
    ensures D.EventOK(e)
  {
    var d := s.datagrams[tag];
    var now :| cfg.decode(d.bytes, d.sourceAddr, now) == Ok(e);
    DecodedOK(cfg, d, now, e);
  }

  lemma RegistryEventsOK(cfg: Config, steps: seq<Step>, i: nat)
    requires UsesDecoder(cfg) && Feasible(cfg, steps) && i < |Run(cfg, steps).registryItems|
    ensures D.EventOK(Run(cfg, steps).registryItems[i].event)
  {
    var s := Run(cfg, steps);
    RunSound(cfg, steps);
    assert Held(s, s.registryItems[i]);
    AnyDecodedOK(cfg, s, s.registryItems[i].tag, s.registryItems[i].event);
  }

  lemma {:induction false} InputSteps(regSteps: seq<R.Step>, s: R.Step)
    requires s in regSteps && s.EventStep?
    ensures s.event in RegistryInput(regSteps)
  {
    var n := |regSteps| - 1;
    if regSteps[n] == s {
    } else {
      assert regSteps == regSteps[..n] + [regSteps[n]];
      InputSteps(regSteps[..n], s);
    }
  }

  /**
    Whatever datagrams arrive and however the goroutines interleave, every position the registry holds, current
    or in a history, is in bounds with its heading reduced, and every battery level at most 100.
   */
  lemma OnlyValidPositions(cfg: Config, steps: seq<Step>, reg: R.Config, regSteps: seq<R.Step>, id: DroneID)
    requires UsesDecoder(cfg) && Feasible(cfg, steps)
    requires R.Feasible(reg, regSteps) && RegistryInput(regSteps) == EventsOf(Run(cfg, steps).registryItems)
    ensures id in R.Run(reg, regSteps).drones ==> RH.DroneOK(R.Run(reg, regSteps).drones[id])
  {
    var es := EventsOf(Run(cfg, steps).registryItems);
    forall s | s in regSteps && s.EventStep?
      ensures D.EventOK(s.event)
    {
      InputSteps(regSteps, s);
      var i :| 0 <= i < |es| && es[i] == s.event;
      RegistryEventsOK(cfg, steps, i);
    }
    RH.KeptPositionsValid(reg, regSteps, id);
  }

  // ----- what a consumer sees of an event -----

  /** What a consumer sees of an event: decoded payloads are values, a raw one is read from the buffer it points into. */
  function View(s: State, item: Item): Event {
    if item.event.payload.RawPayload? && item.packet in s.packets
       && 10 + |item.event.payload.raw| <= |s.packets[item.packet].data|
    then item.event.(payload := RawPayload(s.packets[item.packet].data[10..10 + |item.event.payload.raw|]))
    else item.event
  }

  /** An undecoded payload is a slice of the datagram, after the ten header bytes. */
  lemma RawIsSlice(data: seq<byte>, addr: string, now: int, e: Event)
    requires D.DecodePacket(data, addr, now) == Ok(e) && e.payload.RawPayload?
    ensures 10 + |e.payload.raw| <= |data| && e.payload.raw == data[10..10 + |e.payload.raw|]
  {
    var f := ParseFrame(data, true).value.0;
    SliceOf(data, f.payload);
  }

  lemma SliceOf(data: seq<byte>, payload: seq<byte>)
    requires |data| >= MIN_FRAME && PayloadEnd(data) <= |data| && payload == data[10..PayloadEnd(data)]
    ensures 10 + |payload| <= |data| && payload == data[10..10 + |payload|]
  {}

  /**
    Of the datagrams read into the packet, the last one to reach each byte of the undecoded payload left there what
    the payload was when it was decoded.
   */
  ghost predicate Intact(s: State, item: Item) {
    item.event.payload.RawPayload? ==>
      forall j: nat, t: nat {:trigger Latest(s, item.packet, j, t)} ::
        10 <= j < 10 + |item.event.payload.raw| && Latest(s, item.packet, j, t)
        ==> s.datagrams[t].bytes[j] == item.event.payload.raw[j - 10]
  }

  /** What was decoded came from the item's datagram; what a consumer sees is that same decoding if and only if it is intact. */
  ghost predicate Shown(cfg: Config, s: State, item: Item) {
    && DecodedFrom(cfg, s, item.tag, item.event)
    && (View(s, item) == item.event <==> Intact(s, item))
    && (DecodedFrom(cfg, s, item.tag, View(s, item)) <==> Intact(s, item))
  }

  /** The bytes of a held raw payload: where they were decoded, and where they are now. */
  lemma RawBytes(cfg: Config, s: State, item: Item)
    requires UsesDecoder(cfg) && Sound(cfg, s) && Held(s, item) && item.event.payload.RawPayload?
    ensures item.packet in s.packets && item.tag < |s.into| == |s.datagrams| && s.into[item.tag] == item.packet
    ensures var raw, d := item.event.payload.raw, s.datagrams[item.tag];
      && 10 + |raw| <= |d.bytes| && raw == d.bytes[10..10 + |raw|]
      && 10 + |raw| <= |s.packets[item.packet].data|
  {
    assert Origin(cfg, s, item);
    var raw, d := item.event.payload.raw, s.datagrams[item.tag];
    var now :| cfg.decode(d.bytes, d.sourceAddr, now) == Ok(item.event);
    RawIsSlice(d.bytes, d.sourceAddr, now, item.event);
    if raw == [] {
      var u := LatestExists(s, item.packet, 9, item.tag);
      assert ByteOK(s, item.packet, 9, u);
    } else {
      var u := LatestExists(s, item.packet, 9 + |raw|, item.tag);
      assert ByteOK(s, item.packet, 9 + |raw|, u);
    }
  }

  /** Whoever holds it: an event shows what was decoded exactly when the datagrams received since left it intact. */
  lemma ViewIff(cfg: Config, s: State, item: Item)
    requires UsesDecoder(cfg) && Sound(cfg, s) && Held(s, item)
    ensures Shown(cfg, s, item)
  {
    assert Origin(cfg, s, item);
    if item.event.payload.RawPayload? {
      RawBytes(cfg, s, item);
      RawIntact(cfg, s, item);
      if DecodedFrom(cfg, s, item.tag, View(s, item)) {
        SameDecoding(cfg, s.datagrams[item.tag], item.event, View(s, item));
      }
    }
  }

  lemma RawIntact(cfg: Config, s: State, item: Item)
    requires Contents(s) && item.event.payload.RawPayload?
    requires item.packet in s.packets && item.tag < |s.into| == |s.datagrams| && s.into[item.tag] == item.packet
    requires var raw := item.event.payload.raw;
      10 + |raw| <= |s.datagrams[item.tag].bytes| && 10 + |raw| <= |s.packets[item.packet].data|
    ensures View(s, item) == item.event <==> Intact(s, item)
  {
    var raw, data := item.event.payload.raw, s.packets[item.packet].data;
    var shown := data[10..10 + |raw|];
    if Intact(s, item) {
      forall k | 0 <= k < |raw|
        ensures shown[k] == raw[k]
      {
        var u := LatestExists(s, item.packet, 10 + k, item.tag);
        assert ByteOK(s, item.packet, 10 + k, u);
      }
      assert shown == raw;
    }
    if shown == raw {
      forall j: nat, t: nat | 10 <= j < 10 + |raw| && Latest(s, item.packet, j, t)
        ensures s.datagrams[t].bytes[j] == raw[j - 10]
      {
        assert ByteOK(s, item.packet, j, t);
        assert data[j] == shown[j - 10];
      }
    }
  }

  lemma SameDecoding(cfg: Config, d: Datagram, e: Event, f: Event)
    requires UsesDecoder(cfg) && (exists now :: cfg.decode(d.bytes, d.sourceAddr, now) == Ok(e))
    requires exists now :: cfg.decode(d.bytes, d.sourceAddr, now) == Ok(f)
    ensures e.payload == f.payload
  {
    var now :| cfg.decode(d.bytes, d.sourceAddr, now) == Ok(e);
    var later :| cfg.decode(d.bytes, d.sourceAddr, later) == Ok(f);
    SamePayload(d.bytes, d.sourceAddr, now, later);
  }

  lemma SamePayload(data: seq<byte>, addr: string, now: int, later: int)
    ensures var r, q := D.DecodePacket(data, addr, now), D.DecodePacket(data, addr, later);
      r.Ok? && q.Ok? ==> r.value.payload == q.value.payload
  {}

  /**
    In every run: an event that waits or was handed on is decoded from its datagram and shows just that, if and only if
    intact; a decoded payload, and an empty one, always is.
   */
  lemma ViewIsDecoded(cfg: Config, steps: seq<Step>, item: Item)
    requires UsesDecoder(cfg) && Feasible(cfg, steps) && Held(Run(cfg, steps), item)
    ensures Shown(cfg, Run(cfg, steps), item)
    ensures (item.event.payload.RawPayload? ==> item.event.payload.raw == []) ==>
      Intact(Run(cfg, steps), item) && View(Run(cfg, steps), item) == item.event
  {
    RunSound(cfg, steps);
    ViewIff(cfg, Run(cfg, steps), item);
  }

  /** No datagram's event is given to a consumer twice, nor to both the hub and the registry. */
  lemma OneConsumer(cfg: Config, steps: seq<Step>)
    requires UsesDecoder(cfg) && Feasible(cfg, steps)
    ensures var all := Run(cfg, steps).hubItems + Run(cfg, steps).registryItems;
      && (forall i :: 0 <= i < |all| ==> Shown(cfg, Run(cfg, steps), all[i]))
      && (forall i, j :: 0 <= i < j < |all| ==> all[i].tag != all[j].tag)
  {
    var s := Run(cfg, steps);
    RunSound(cfg, steps);
    var all := s.hubItems + s.registryItems;
    forall i | 0 <= i < |all|
      ensures Shown(cfg, s, all[i])
    {
      assert Held(s, all[i]);
      ViewIff(cfg, s, all[i]);
    }
    TagsApart(s);
  }

  lemma TagsApart(s: State)
    requires Given(s)
    ensures var all := s.hubItems + s.registryItems;
      forall i, j :: 0 <= i < j < |all| ==> all[i].tag != all[j].tag
  {
    var n := |s.hubItems|;
    var all := s.hubItems + s.registryItems;
    forall i, j | 0 <= i < j < |all|
      ensures all[i].tag != all[j].tag
    {
      if i < n <= j {
        assert At(s, s.hubItems[i].tag, HubGot) && At(s, s.registryItems[j - n].tag, RegistryGot);
      }
    }
  }

  // ----- what the hub's subscribers get -----

  lemma {:induction false} SubsequenceIn<T>(s: seq<T>, t: seq<T>, x: T)
    requires Subsequence(s, t) && x in s
    ensures x in t
    decreases |t|
  {
    var m := |t| - 1;
    assert t == t[..m] + [t[m]];
    if Subsequence(s, t[..m]) {
      SubsequenceIn(s, t[..m], x);
    } else if x in s[..|s| - 1] {
      SubsequenceIn(s[..|s| - 1], t[..m], x);
    } else {
      assert s == s[..|s| - 1] + [s[|s| - 1]];
    }
  }

  /** The hub broadcasts what it is given, in order; at most the last event is still to come. */
  lemma {:induction false} TraceIsInput(cfg: H.Config, steps: seq<H.Step>)
    requires H.Feasible(cfg, steps)
    ensures var h := H.Run(cfg, steps); HubInput(steps) == h.trace + (if h.pc.Received? then [h.pc.event] else [])
  {
    if steps == [] {
    } else {
      var n := |steps| - 1;
      TraceIsInput(cfg, steps[..n]);
      TraceStep(cfg, H.Run(cfg, steps[..n]), steps[n]);
    }
  }

  lemma TraceStep(cfg: H.Config, h: H.State, s: H.Step)
    requires H.Enabled(cfg, h, s)
    ensures var n := H.Next(cfg, h, s);
      n.trace + (if n.pc.Received? then [n.pc.event] else [])
      == h.trace + (if h.pc.Received? then [h.pc.event] else []) + (if s.Receive? then [s.event] else [])
  {}

  /** A subsequence of the items' events is the events of a subsequence of the items. */
  lemma {:induction false} Pick(got: seq<Event>, items: seq<Item>) returns (picked: seq<Item>)
    requires Subsequence(got, EventsOf(items))
    ensures Subsequence(picked, items) && EventsOf(picked) == got
    decreases |items|
  {
    if got == [] {
      picked := [];
    } else {
      var m, n := |items| - 1, |got| - 1;
      assert EventsOf(items)[..m] == EventsOf(items[..m]);
      if Subsequence(got, EventsOf(items)[..m]) {
        picked := Pick(got, items[..m]);
      } else {
        var front := Pick(got[..n], items[..m]);
        picked := front + [items[m]];
        SubsequenceBoth(front, items[..m], items[m]);
        assert items == items[..m] + [items[m]] && got == got[..n] + [got[n]];
      }
    }
  }

  /**
    What a subscriber has consumed or has waiting are, in order, the events of some of the items given to the hub while
    it was subscribed; each shows what was decoded from its datagram if and only if it is intact.
   */
  lemma SubscribersGetDecoded(cfg: Config, steps: seq<Step>, hub: H.Config, hubSteps: seq<H.Step>, id: nat)
    returns (items: seq<Item>)
    requires UsesDecoder(cfg) && Feasible(cfg, steps)
    requires H.Feasible(hub, hubSteps) && HubInput(hubSteps) == EventsOf(Run(cfg, steps).hubItems) && !H.Run(hub, hubSteps).panicked
    requires id in H.Run(hub, hubSteps).subs
    ensures var s, h := Run(cfg, steps), H.Run(hub, hubSteps);
      && EventsOf(items) == HL.Got(h.subs[id])
      && h.subs[id].start <= HL.Upto(h, h.subs[id]) <= |s.hubItems|
      && Subsequence(items, s.hubItems[h.subs[id].start..HL.Upto(h, h.subs[id])])
      && forall item :: item in items ==> item in s.hubItems && Shown(cfg, s, item)
  {
    var s, h := Run(cfg, steps), H.Run(hub, hubSteps);
    DueItems(hub, hubSteps, id, s.hubItems);
    var given := s.hubItems[h.subs[id].start..HL.Upto(h, h.subs[id])];
    items := Pick(HL.Got(h.subs[id]), given);
    RunSound(cfg, steps);
    forall item | item in items
      ensures item in s.hubItems && Shown(cfg, s, item)
    {
      SubsequenceIn(items, given, item);
      assert Held(s, item);
      ViewIff(cfg, s, item);
    }
  }

  lemma DueItems(hub: H.Config, hubSteps: seq<H.Step>, id: nat, items: seq<Item>)
    requires H.Feasible(hub, hubSteps) && HubInput(hubSteps) == EventsOf(items) && !H.Run(hub, hubSteps).panicked
    requires id in H.Run(hub, hubSteps).subs
    ensures var h := H.Run(hub, hubSteps);
      && h.subs[id].start <= HL.Upto(h, h.subs[id]) <= |items|
      && Subsequence(HL.Got(h.subs[id]), EventsOf(items[h.subs[id].start..HL.Upto(h, h.subs[id])]))
  {
    HL.HubDelivery(hub, hubSteps);
    TraceIsInput(hub, hubSteps);
    var h := H.Run(hub, hubSteps);
    SliceOfPrefix(h.trace, items, h.subs[id].start, HL.Upto(h, h.subs[id]));
  }

  lemma SliceOfPrefix(trace: seq<Event>, items: seq<Item>, lo: nat, hi: nat)
    requires trace <= EventsOf(items) && lo <= hi <= |trace|
    ensures trace[lo..hi] == EventsOf(items[lo..hi])
  {}
}
