/** What becomes of an undecoded payload once its packet has gone back to the pool. */
module PooledPayloads {
  import opened Bytes
  import opened EndToEnd
  import opened Frames
  import opened Pipeline
  import opened PipelineData
  import opened RateLimit
  import opened Telemetry
  import D = Decoder

  lemma PrefixSlice(x: seq<byte>, y: seq<byte>, i: nat, j: nat)
    requires x <= y && i <= j <= |x|
    ensures y[i..j] == x[i..j]
  {}

  lemma RunMore(cfg: Config, steps: seq<Step>, t: Step)
    requires Feasible(cfg, steps) && Enabled(cfg, Run(cfg, steps), t)
    ensures Feasible(cfg, steps + [t]) && Run(cfg, steps + [t]) == Next(cfg, Run(cfg, steps), t)
  {
    assert (steps + [t])[..|steps|] == steps;
  }

  /** `steps` leads to a state with packet 0 filled by `d`, owned as said, and nothing else going on. */
  ghost predicate Stage(cfg: Config, steps: seq<Step>, d: Datagram, pool: set<nat>, work: map<nat, Work>,
                        out: seq<Item>, hubItems: seq<Item>) {
    && Feasible(cfg, steps)
    && var s := Run(cfg, steps);
    && 0 in s.packets && |s.packets[0].data| == cfg.bufferSize && PacketBytes(s.packets[0]) == d.bytes
    && s.packets[0].sourceAddr == d.sourceAddr && s.receiver.Waiting?
    && s.pool == pool && s.work == work && s.out == out && s.hubHand.None? && s.hubItems == hubItems
    && s.datagrams == [d]
  }

  predicate Fits(cfg: Config, d: Datagram) {
    |d.bytes| <= cfg.bufferSize && cfg.allowed(d.sourceAddr)
  }

  lemma ReadWhole(p: Packet, d: Datagram, tag: nat)
    requires |d.bytes| <= |p.data|
    ensures |ReadInto(p, d, tag).data| == |p.data| && d.bytes <= ReadInto(p, d, tag).data
    ensures PacketBytes(ReadInto(p, d, tag)) == d.bytes
  {
    assert ReadInto(p, d, tag).data[..|d.bytes|] == d.bytes;
  }

  lemma HandedOver(cfg: Config, d: Datagram) returns (steps: seq<Step>)
    requires Fits(cfg, d) && cfg.workers > 0
    ensures Stage(cfg, steps, d, {}, map[0 := Got(0, 0)], [], []) && Run(cfg, steps).buckets == map[]
  {
    ReadWhole(NewPacket(cfg.bufferSize), d, 0);
    RunMore(cfg, [], PoolGet(0));
    RunMore(cfg, [] + [PoolGet(0)], Read(d));
    RunMore(cfg, [] + [PoolGet(0)] + [Read(d)], Handoff(0));
    steps := [] + [PoolGet(0)] + [Read(d)] + [Handoff(0)];
  }

  lemma ThroughDecode(cfg: Config, steps: seq<Step>, d: Datagram, e: Event)
    requires Stage(cfg, steps, d, {}, map[0 := Got(0, 0)], [], []) && cfg.decode(d.bytes, d.sourceAddr, 0) == Ok(e)
    ensures Stage(cfg, steps + [Decode(0, 0)], d, {}, map[0 := Parsed(0, 0, e)], [], [])
    ensures Run(cfg, steps + [Decode(0, 0)]).buckets == Run(cfg, steps).buckets
  {
    RunMore(cfg, steps, Decode(0, 0));
  }

  lemma ThroughLimit(cfg: Config, steps: seq<Step>, d: Datagram, e: Event)
    requires Stage(cfg, steps, d, {}, map[0 := Parsed(0, 0, e)], [], []) && Run(cfg, steps).buckets == map[]
    requires cfg.limits.perSecond + cfg.limits.burst >= 1
    ensures Stage(cfg, steps + [Check(0, Call(e.id.systemID, 0, 0))], d, {}, map[0 := Admitted(0, 0, e)], [], [])
  {
    var call := Call(e.id.systemID, 0, 0);
    assert Passes(Load(cfg.limits, map[], call), 0);
    RunMore(cfg, steps, Check(0, call));
  }

  lemma ThroughOutput(cfg: Config, steps: seq<Step>, d: Datagram, e: Event)
    requires Stage(cfg, steps, d, {}, map[0 := Admitted(0, 0, e)], [], []) && cfg.outCap > 0
    ensures Stage(cfg, steps + [Count(0)] + [Output(0)] + [WorkerPut(0)], d, {0}, map[], [Item(0, 0, e)], [])
  {
    RunMore(cfg, steps, Count(0));
    RunMore(cfg, steps + [Count(0)], Output(0));
    RunMore(cfg, steps + [Count(0)] + [Output(0)], WorkerPut(0));
  }

  lemma IntoHub(cfg: Config, steps: seq<Step>, d: Datagram, e: Event)
    requires Stage(cfg, steps, d, {0}, map[], [Item(0, 0, e)], [])
    ensures Stage(cfg, steps + [HubTake] + [HubReceive], d, {0}, map[], [], [Item(0, 0, e)])
  {
    RunMore(cfg, steps, HubTake);
    RunMore(cfg, steps + [HubTake], HubReceive);
  }

  /**
    In any state, once a packet is back in the pool, the next read into it is what every holder of an undecoded payload
    from it then sees.
   */
  lemma ReadAgain(cfg: Config, steps: seq<Step>, item: Item, next: Datagram)
    requires Feasible(cfg, steps) && Run(cfg, steps).receiver.Waiting?
    requires item.packet in Run(cfg, steps).pool && Held(Run(cfg, steps), item) && item.event.payload.RawPayload?
    requires |next.bytes| <= cfg.bufferSize && 10 + |item.event.payload.raw| <= |next.bytes|
    ensures var more := steps + [PoolGet(item.packet)] + [Read(next)];
      && Feasible(cfg, more)
      && Held(Run(cfg, more), item)
      && View(Run(cfg, more), item) == item.event.(payload := RawPayload(next.bytes[10..10 + |item.event.payload.raw|]))
  {
    RunSound(cfg, steps);
    RunMore(cfg, steps, PoolGet(item.packet));
    RunMore(cfg, steps + [PoolGet(item.packet)], Read(next));
    NextRead(cfg, Run(cfg, steps), item, next);
  }

  lemma NextRead(cfg: Config, s: State, item: Item, next: Datagram)
    requires Sound(cfg, s) && s.receiver.Waiting? && item.packet in s.pool && Held(s, item) && item.event.payload.RawPayload?
    requires |next.bytes| <= cfg.bufferSize && 10 + |item.event.payload.raw| <= |next.bytes|
    ensures var t := Next(cfg, s, PoolGet(item.packet));
      && Enabled(cfg, t, Read(next)) && Held(Next(cfg, t, Read(next)), item)
      && View(Next(cfg, t, Read(next)), item)
         == item.event.(payload := RawPayload(next.bytes[10..10 + |item.event.payload.raw|]))
  {
    var p := item.packet;
    assert BufferOK(cfg, s, s.packets[p]);
    var t := Next(cfg, s, PoolGet(p));
    ReadWhole(t.packets[p], next, |t.place|);
    var data := ReadInto(t.packets[p], next, |t.place|).data;
    PrefixSlice(next.bytes, data, 10, 10 + |item.event.payload.raw|);
    HeldByOthers(s, DoRead(t, next), item);
    assert DoRead(t, next).packets[p].data == data;
  }

  lemma HeldByOthers(s: State, n: State, item: Item)
    requires Held(s, item) && n.work == s.work && n.out == s.out && n.hubHand == s.hubHand && n.processorHand == s.processorHand
    requires n.hubItems == s.hubItems && n.registryItems == s.registryItems
    ensures Held(n, item)
  {
    if w :| AtWorkItem(s, w, item) {
      assert AtWorkItem(n, w, item);
    }
  }

  /** A frame of system `id` with message 99, which is not in the seed table: its payload is passed on unchecked. */
  function RawFrame(id: byte, x: byte): Datagram {
    Datagram([MAGIC_V2, 1, 0, 0, 0, id, 1, 99, 0, 0, x, 0, 0], "")
  }

  lemma RawDatagram(id: byte, x: byte, now: int)
    requires D.ValidSystemID(id)
    ensures D.DecodePacket(RawFrame(id, x).bytes, "", now) == Ok(Event(DroneID(id, 1), 99, now, "", RawPayload([x])))
  {
    var data: seq<byte> := RawFrame(id, x).bytes;
    assert MessageID(data) == 99 && 99 !in SEEDS;
    assert data[10..11] == [x];
    var f := FrameIn(data);
    assert f.payload == [x];
  }

  /** Drone 1 sends the byte x and the hub takes its event. */
  lemma FirstToHub(cfg: Config, d: Datagram, e: Event) returns (steps: seq<Step>)
    requires Fits(cfg, d) && cfg.workers > 0 && cfg.outCap > 0 && cfg.limits.perSecond + cfg.limits.burst >= 1
    requires cfg.decode(d.bytes, d.sourceAddr, 0) == Ok(e)
    ensures Stage(cfg, steps, d, {0}, map[], [], [Item(0, 0, e)])
  {
    var first := HandedOver(cfg, d);
    ThroughDecode(cfg, first, d, e);
    var parsed := first + [Decode(0, 0)];
    ThroughLimit(cfg, parsed, d, e);
    var admitted := parsed + [Check(0, Call(e.id.systemID, 0, 0))];
    ThroughOutput(cfg, admitted, d, e);
    var waiting := admitted + [Count(0)] + [Output(0)] + [WorkerPut(0)];
    IntoHub(cfg, waiting, d, e);
    steps := waiting + [HubTake] + [HubReceive];
  }

  lemma SecondRead(cfg: Config, steps: seq<Step>, d: Datagram, next: Datagram, item: Item)
    requires Stage(cfg, steps, d, {0}, map[], [], [item]) && Fits(cfg, next)
    ensures var more := steps + [PoolGet(0)] + [Read(next)];
      && Feasible(cfg, more) && Run(cfg, more).hubItems == [item] && Run(cfg, more).datagrams == [d, next]
  {
    RunMore(cfg, steps, PoolGet(0));
    var s := Run(cfg, steps + [PoolGet(0)]);
    ReadWhole(s.packets[0], next, |s.place|);
    RunMore(cfg, steps + [PoolGet(0)], Read(next));
  }

  /** Drone 1's event with drone 2's byte. */
  lemma DecodedFromNeither(cfg: Config, s: State, e: Event, x: byte, y: byte)
    requires UsesDecoder(cfg) && s.datagrams == [RawFrame(1, x), RawFrame(2, y)] && x != y
    requires e.id == DroneID(1, 1) && e.payload == RawPayload([y])
    ensures forall tag :: !DecodedFrom(cfg, s, tag, e)
  {
    forall tag: nat, now | tag < 2
      ensures cfg.decode(s.datagrams[tag].bytes, s.datagrams[tag].sourceAddr, now) != Ok(e)
    {
      RawDatagram(1, x, now);
      RawDatagram(2, y, now);
    }
  }

  lemma Overwritten(cfg: Config, first: seq<Step>, d: Datagram, next: Datagram, item: Item, x: byte, y: byte)
    requires UsesDecoder(cfg) && x != y && d == RawFrame(1, x) && next == RawFrame(2, y) && Fits(cfg, next)
    requires Stage(cfg, first, d, {0}, map[], [], [item])
    requires item.packet == 0 && item.event.id == DroneID(1, 1) && item.event.payload == RawPayload([x])
    ensures var steps := first + [PoolGet(0)] + [Read(next)];
      && Feasible(cfg, steps) && Run(cfg, steps).hubItems == [item]
      && View(Run(cfg, steps), item).payload == RawPayload([y]) && !Intact(Run(cfg, steps), item)
      && forall tag :: !DecodedFrom(cfg, Run(cfg, steps), tag, View(Run(cfg, steps), item))
  {
    var steps := first + [PoolGet(0)] + [Read(next)];
    assert Held(Run(cfg, first), item);
    ReadAgain(cfg, first, item, next);
    assert next.bytes[10..11] == [y];
    SecondRead(cfg, first, d, next, item);
    ViewIsDecoded(cfg, steps, item);
    DecodedFromNeither(cfg, Run(cfg, steps), View(Run(cfg, steps), item), x, y);
  }

  /**
    It does happen: drone 1 sends the byte x, drone 2 the byte y. What the hub holds as drone 1's event then shows y: it
    is the decoding of neither datagram.
   */
  lemma RawCanChange(cfg: Config, x: byte, y: byte) returns (steps: seq<Step>)
    requires UsesDecoder(cfg) && x != y
    requires cfg.allowed("") && cfg.bufferSize >= 13 && cfg.workers > 0 && cfg.outCap > 0
    requires cfg.limits.perSecond + cfg.limits.burst >= 1
    ensures Feasible(cfg, steps) && |Run(cfg, steps).hubItems| == 1
    ensures var s, item := Run(cfg, steps), Run(cfg, steps).hubItems[0];
      && item.event.payload == RawPayload([x]) && View(s, item).payload == RawPayload([y]) && !Intact(s, item)
      && forall tag :: !DecodedFrom(cfg, s, tag, View(s, item))
  {
    var d := RawFrame(1, x);
    RawDatagram(1, x, 0);
    var e := Event(DroneID(1, 1), 99, 0, "", RawPayload([x]));
    var first := FirstToHub(cfg, d, e);
    steps := first + [PoolGet(0)] + [Read(RawFrame(2, y))];
    Overwritten(cfg, first, d, RawFrame(2, y), Item(0, 0, e), x, y);
  }
}
