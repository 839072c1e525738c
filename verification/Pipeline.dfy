/**
  The ingest pipeline as a transition system: receiver, packet pool, bounded queue and workers of
  internal/ingest/udp.go and packet.go, and the two consumers of the telemetry channel wired up in
  cmd/server/main.go (hub and event processor), in any interleaving, up to cancellation. Every
  received datagram carries its number, so that its fate can be followed; what the hub and the
  registry do with the events they are given is in Hub.dfy and Registry.dfy.
 */
module Pipeline {
  import opened Bytes
  import opened Telemetry
  import opened Frames
  import opened RateLimit

  /** `decode` is Decoder.DecodePacket, `allowed` the source address whitelist. */
  datatype Config = Config(
    decode: (seq<byte>, string, int) -> Result<Event>,
    allowed: string -> bool,
    bufferSize: nat,
    queueCap: nat,
    outCap: nat,
    workers: nat,
    limits: Limits)

  datatype Datagram = Datagram(bytes: seq<byte>, sourceAddr: string)

  /** A pooled packet: the whole buffer, how much of it is valid, and the number of the last datagram read into it. */
  datatype Packet = Packet(data: seq<byte>, length: nat, sourceAddr: string, last: Option<nat>)

  function NewPacket(size: nat): Packet {
    Packet(seq(size, _ => 0), 0, "", None)
  }

  datatype Receiver = Waiting | Holding(packet: nat) | Filled(packet: nat, tag: nat) | Discarding(packet: nat)

  datatype Queued = Queued(packet: nat, tag: nat)

  datatype Work =
    | Got(packet: nat, tag: nat)
    | Parsed(packet: nat, tag: nat, event: Event)
    | Admitted(packet: nat, tag: nat, event: Event)
    | Counted(packet: nat, tag: nat, event: Event)
    | Releasing(packet: nat)

  /** An event on its way; its raw payload, if any, is a slice of `packet`'s buffer. */
  datatype Item = Item(packet: nat, tag: nat, event: Event)

  datatype Place =
    | AtReceiver | InQueue | AtWorker | Passing | InOutput | AtHub | AtProcessor
    | Refused | Failed | Limited | OutputDropped | HubGot | RegistryGot

  /** `datagrams` are those received so far, as read; `into` says into which packet each was read. */
  datatype State = State(
    packets: map<nat, Packet>,
    pool: set<nat>,
    receiver: Receiver,
    queue: seq<Queued>,
    work: map<nat, Work>,
    buckets: map<byte, Bucket>,
    out: seq<Item>,
    hubHand: Option<Item>,
    processorHand: Option<Item>,
    hubItems: seq<Item>,
    registryItems: seq<Item>,
    datagrams: seq<Datagram>,
    into: seq<nat>,
    place: seq<Place>,
    packetsReceived: nat,
    packetsDropped: nat,
    errors: nat,
    processed: nat,
    outputDrops: nat)

  const START := State(map[], {}, Waiting, [], map[], map[], [], None, None, [], [], [], [], [], 0, 0, 0, 0, 0)

  function EventsOf(items: seq<Item>): (es: seq<Event>)
    ensures |es| == |items|
  {
    seq(|items|, i requires 0 <= i < |items| => items[i].event)
  }

  /** The valid portion of the packet data. */
  function PacketBytes(p: Packet): seq<byte> {
    if p.length <= |p.data| then p.data[..p.length] else p.data
  }

  /** A read writes the front of the buffer and leaves the rest; what does not fit is cut off. */
  function ReadInto(p: Packet, d: Datagram, tag: nat): Packet {
    var n := if |d.bytes| <= |p.data| then |d.bytes| else |p.data|;
    Packet(d.bytes[..n] + p.data[n..], n, d.sourceAddr, Some(tag))
  }

  datatype Step =
    | PoolGet(packet: nat)
    | PoolCollect(packet: nat)
    | ReadFails
    | Read(datagram: Datagram)
    | Enqueue
    | Handoff(worker: nat)
    | Discard
    | ReceiverPut
    | Fetch(worker: nat)
    | Decode(worker: nat, now: int)
    | Check(worker: nat, call: Call)
    | Count(worker: nat)
    | Output(worker: nat)
    | WorkerPut(worker: nat)
    | HubTake
    | HubReceive
    | ProcessorTake
    | Process

  predicate Idle(cfg: Config, s: State, worker: nat) {
    worker < cfg.workers && worker !in s.work
  }

  predicate Whitelisted(cfg: Config, s: State) {
    s.receiver.Filled? && s.receiver.packet in s.packets && cfg.allowed(s.packets[s.receiver.packet].sourceAddr)
  }

  predicate Enabled(cfg: Config, s: State, t: Step) {
    match t
    case PoolGet(p) => s.receiver.Waiting? && (p in s.packets ==> p in s.pool)
    case PoolCollect(p) => p in s.pool
    case ReadFails => s.receiver.Holding?
    case Read(_) => s.receiver.Holding? && s.receiver.packet in s.packets
    case Enqueue => Whitelisted(cfg, s) && |s.queue| < cfg.queueCap
    case Handoff(w) => Whitelisted(cfg, s) && s.queue == [] && Idle(cfg, s, w)
    case Discard => s.receiver.Filled? && (!Whitelisted(cfg, s) || |s.queue| >= cfg.queueCap)
    case ReceiverPut => s.receiver.Discarding?
    case Fetch(w) => s.queue != [] && Idle(cfg, s, w)
    case Decode(w, _) => w in s.work && s.work[w].Got? && s.work[w].packet in s.packets
    case Check(w, call) => w in s.work && s.work[w].Parsed? && call.id == s.work[w].event.id.systemID
    case Count(w) => w in s.work && s.work[w].Admitted?
    case Output(w) => w in s.work && s.work[w].Counted?
    case WorkerPut(w) => w in s.work && s.work[w].Releasing?
    case HubTake => s.out != [] && s.hubHand.None?
    case HubReceive => s.hubHand.Some?
    case ProcessorTake => s.out != [] && s.processorHand.None?
    case Process => s.processorHand.Some?
  }

  /** The datagram with this number moves on. */
  function Moved(place: seq<Place>, tag: nat, to: Place): seq<Place> {
    if tag < |place| then place[tag := to] else place
  }

  function DoRead(s: State, d: Datagram): State
    requires s.receiver.Holding? && s.receiver.packet in s.packets
  {
    var p, tag := s.receiver.packet, |s.place|;
    var read := ReadInto(s.packets[p], d, tag);
    s.(packets := s.packets[p := read], receiver := Filled(p, tag), packetsReceived := s.packetsReceived + 1,
       datagrams := s.datagrams + [Datagram(PacketBytes(read), d.sourceAddr)], into := s.into + [p], place := s.place + [AtReceiver])
  }

  function DoDecode(cfg: Config, s: State, w: nat, now: int): State
    requires w in s.work && s.work[w].Got? && s.work[w].packet in s.packets
  {
    var g := s.work[w];
    var p := s.packets[g.packet];
    match cfg.decode(PacketBytes(p), p.sourceAddr, now)
    case Err(_) => s.(work := s.work[w := Releasing(g.packet)], errors := s.errors + 1, place := Moved(s.place, g.tag, Failed))
    case Ok(e) => s.(work := s.work[w := Parsed(g.packet, g.tag, e)])
  }

  /** The rate limit's decision, with the buckets as the check left them. */
  function DoCheck(s: State, w: nat, buckets: map<byte, Bucket>, passes: bool): State
    requires w in s.work && s.work[w].Parsed?
  {
    var g := s.work[w];
    var t := s.(buckets := buckets);
    if passes then t.(work := s.work[w := Admitted(g.packet, g.tag, g.event)])
    else t.(work := s.work[w := Releasing(g.packet)], place := Moved(s.place, g.tag, Limited))
  }

  function DoOutput(cfg: Config, s: State, w: nat): State
    requires w in s.work && s.work[w].Counted?
  {
    var g := s.work[w];
    var t := s.(work := s.work[w := Releasing(g.packet)]);
    if |s.out| < cfg.outCap
    then t.(out := s.out + [Item(g.packet, g.tag, g.event)], place := Moved(s.place, g.tag, InOutput))
    else t.(outputDrops := s.outputDrops + 1, place := Moved(s.place, g.tag, OutputDropped))
  }

  function Next(cfg: Config, s: State, t: Step): State
    requires Enabled(cfg, s, t)
  {
    match t
    case PoolGet(p) =>
      var pkt := if p in s.packets then s.packets[p] else NewPacket(cfg.bufferSize);
      s.(packets := s.packets[p := pkt.(length := 0, sourceAddr := "")], pool := s.pool - {p}, receiver := Holding(p))
    case PoolCollect(p) => s.(pool := s.pool - {p})
    case ReadFails => s.(receiver := Discarding(s.receiver.packet))
    case Read(d) => DoRead(s, d)
    case Enqueue =>
      var f := s.receiver;
      s.(receiver := Waiting, queue := s.queue + [Queued(f.packet, f.tag)], place := Moved(s.place, f.tag, InQueue))
    case Handoff(w) =>
      var f := s.receiver;
      s.(receiver := Waiting, work := s.work[w := Got(f.packet, f.tag)], place := Moved(s.place, f.tag, AtWorker))
    case Discard =>
      var f := s.receiver;
      s.(receiver := Discarding(f.packet), packetsDropped := s.packetsDropped + 1, place := Moved(s.place, f.tag, Refused))
    case ReceiverPut => s.(pool := s.pool + {s.receiver.packet}, receiver := Waiting)
    case Fetch(w) =>
      var q := s.queue[0];
      s.(queue := s.queue[1..], work := s.work[w := Got(q.packet, q.tag)], place := Moved(s.place, q.tag, AtWorker))
    case Decode(w, now) => DoDecode(cfg, s, w, now)
    case Check(w, call) =>
      DoCheck(s, w, CheckRateLimit(cfg.limits, s.buckets, call), Passes(Load(cfg.limits, s.buckets, call), call.now))
    case Count(w) =>
      var g := s.work[w];
      s.(work := s.work[w := Counted(g.packet, g.tag, g.event)], processed := s.processed + 1, place := Moved(s.place, g.tag, Passing))
    case Output(w) => DoOutput(cfg, s, w)
    case WorkerPut(w) => s.(pool := s.pool + {s.work[w].packet}, work := s.work - {w})
    case HubTake => s.(hubHand := Some(s.out[0]), out := s.out[1..], place := Moved(s.place, s.out[0].tag, AtHub))
    case HubReceive =>
      var i := s.hubHand.value;
      s.(hubHand := None, hubItems := s.hubItems + [i], place := Moved(s.place, i.tag, HubGot))
    case ProcessorTake => s.(processorHand := Some(s.out[0]), out := s.out[1..], place := Moved(s.place, s.out[0].tag, AtProcessor))
    case Process =>
      var i := s.processorHand.value;
      s.(processorHand := None, registryItems := s.registryItems + [i], place := Moved(s.place, i.tag, RegistryGot))
  }

  predicate Feasible(cfg: Config, steps: seq<Step>)
    decreases |steps|, 0
  {
    steps == [] || (Feasible(cfg, steps[..|steps| - 1]) && Enabled(cfg, Run(cfg, steps[..|steps| - 1]), steps[|steps| - 1]))
  }

  function Run(cfg: Config, steps: seq<Step>): State
    requires Feasible(cfg, steps)
    decreases |steps|, 1
  {
    if steps == [] then START else Next(cfg, Run(cfg, steps[..|steps| - 1]), steps[|steps| - 1])
  }
}
