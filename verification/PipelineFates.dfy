/** Which datagrams are refused, lost or passed on, and in what order, over every run of the pipeline. */
module PipelineFates {
  import opened Bytes
  import opened Collections
  import opened EndToEnd
  import opened Frames
  import opened Pipeline
  import opened PipelineData
  import opened PipelineLaws
  import opened RateLimit
  import opened Telemetry
  import D = Decoder

  lemma RunNext(cfg: Config, steps: seq<Step>, t: Step)
    requires Feasible(cfg, steps + [t])
    ensures Feasible(cfg, steps) && Enabled(cfg, Run(cfg, steps), t)
    ensures Run(cfg, steps + [t]) == Next(cfg, Run(cfg, steps), t)
  {
    assert (steps + [t])[..|steps|] == steps;
  }

  // ----- the whitelist -----

  /** The datagram got past the receiver. */
  predicate Past(p: Place) {
    !p.AtReceiver? && !p.Refused?
  }

  /** A datagram that got past the receiver came from an allowed address. */
  ghost predicate AllowedAt(cfg: Config, s: State, tag: nat) {
    tag < |s.place| && tag < |s.datagrams| && Past(s.place[tag]) ==> cfg.allowed(s.datagrams[tag].sourceAddr)
  }

  ghost predicate OnlyAllowed(cfg: Config, s: State) {
    forall tag {:trigger AllowedAt(cfg, s, tag)} :: AllowedAt(cfg, s, tag)
  }

  /** One datagram at most changes place, and only the receiver's gets past the receiver. */
  ghost predicate MovesOne(s: State, n: State, tag: nat, to: Place) {
    && n.datagrams == s.datagrams && tag < |s.place| && n.place == Moved(s.place, tag, to)
  }

  lemma MovedAllowed(cfg: Config, s: State, n: State, tag: nat, to: Place)
    requires OnlyAllowed(cfg, s) && MovesOne(s, n, tag, to) && tag < |s.datagrams|
    requires Past(to) ==> Past(s.place[tag]) || cfg.allowed(s.datagrams[tag].sourceAddr)
    ensures OnlyAllowed(cfg, n)
  {
    forall k
      ensures AllowedAt(cfg, n, k)
    {
      assert AllowedAt(cfg, s, k);
    }
  }

  lemma SamePlaces(cfg: Config, s: State, n: State)
    requires OnlyAllowed(cfg, s) && n.datagrams == s.datagrams && n.place == s.place
    ensures OnlyAllowed(cfg, n)
  {
    forall k
      ensures AllowedAt(cfg, n, k)
    {
      assert AllowedAt(cfg, s, k);
    }
  }

  lemma ReadAllowed(cfg: Config, s: State, d: Datagram)
    requires OnlyAllowed(cfg, s) && |s.place| == |s.datagrams| && s.receiver.Holding? && s.receiver.packet in s.packets
    ensures OnlyAllowed(cfg, DoRead(s, d))
  {
    var n := DoRead(s, d);
    forall k
      ensures AllowedAt(cfg, n, k)
    {
      assert AllowedAt(cfg, s, k);
    }
  }

  /** The receiver's three ways out. */
  lemma ReceiverAllowed(cfg: Config, s: State, t: Step)
    requires OnlyAllowed(cfg, s) && Tags(s) && Buffers(cfg, s) && Enabled(cfg, s, t)
    requires t.Enqueue? || t.Handoff? || t.Discard?
    ensures OnlyAllowed(cfg, Next(cfg, s, t))
  {
    var to := if t.Enqueue? then InQueue else if t.Handoff? then AtWorker else Refused;
    MovedAllowed(cfg, s, Next(cfg, s, t), s.receiver.tag, to);
  }

  lemma OthersAllowed(cfg: Config, s: State, t: Step)
    requires OnlyAllowed(cfg, s) && Tags(s) && |s.place| == |s.datagrams| && Enabled(cfg, s, t)
    requires !t.Read? && !t.Enqueue? && !t.Handoff? && !t.Discard?
    ensures OnlyAllowed(cfg, Next(cfg, s, t))
  {
    var n := Next(cfg, s, t);
    LogKept(cfg, s, t);
    if t.Fetch? {
      MovedAllowed(cfg, s, n, s.queue[0].tag, AtWorker);
    } else if n.place == s.place {
      SamePlaces(cfg, s, n);
    } else {
      var tag, to := MoverIs(cfg, s, t);
      MovedAllowed(cfg, s, n, tag, to);
    }
  }

  lemma LogKept(cfg: Config, s: State, t: Step)
    requires Enabled(cfg, s, t) && !t.Read?
    ensures Next(cfg, s, t).datagrams == s.datagrams
  {}

  /** The datagram has been given to a worker. */
  predicate Dispatched(p: Place) {
    Past(p) && !p.InQueue?
  }

  /** A datagram that workers or consumers move had been given to a worker. */
  lemma MoverIs(cfg: Config, s: State, t: Step) returns (tag: nat, to: Place)
    requires Tags(s) && Enabled(cfg, s, t) && !t.Read? && !t.Enqueue? && !t.Handoff? && !t.Discard? && !t.Fetch?
    requires Next(cfg, s, t).place != s.place
    ensures tag < |s.place| && Dispatched(s.place[tag]) && Dispatched(to) && Next(cfg, s, t).place == Moved(s.place, tag, to)
  {
    tag, to := 0, Failed;
    match t
    case Decode(w, _) => tag, to := s.work[w].tag, Failed;
    case Check(w, _) => tag, to := s.work[w].tag, Limited;
    case Count(w) => tag, to := s.work[w].tag, Passing;
    case Output(w) => tag, to := s.work[w].tag, if |s.out| < cfg.outCap then InOutput else OutputDropped;
    case HubTake => tag, to := s.out[0].tag, AtHub;
    case ProcessorTake => tag, to := s.out[0].tag, AtProcessor;
    case HubReceive => tag, to := s.hubHand.value.tag, HubGot;
    case Process => tag, to := s.processorHand.value.tag, RegistryGot;
    case _ =>
  }

  /** In every run, whatever got past the receiver, wherever it is by now, came from an allowed address. */
  lemma {:induction false} RunOnlyAllowed(cfg: Config, steps: seq<Step>)
    requires Feasible(cfg, steps)
    ensures OnlyAllowed(cfg, Run(cfg, steps))
  {
    if steps == [] {
    } else {
      var n := |steps| - 1;
      var s, t := Run(cfg, steps[..n]), steps[n];
      RunOnlyAllowed(cfg, steps[..n]);
      RunSound(cfg, steps[..n]);
      if t.Read? {
        ReadAllowed(cfg, s, t.datagram);
      } else if t.Enqueue? || t.Handoff? || t.Discard? {
        ReceiverAllowed(cfg, s, t);
      } else {
        OthersAllowed(cfg, s, t);
      }
    }
  }

  /** So every event the hub or the registry was given bears an allowed source address. */
  lemma ConsumersGetAllowed(cfg: Config, steps: seq<Step>, item: Item)
    requires UsesDecoder(cfg) && Feasible(cfg, steps)
    requires item in Run(cfg, steps).hubItems || item in Run(cfg, steps).registryItems
    ensures cfg.allowed(item.event.sourceAddr)
  {
    var s := Run(cfg, steps);
    RunSound(cfg, steps);
    RunOnlyAllowed(cfg, steps);
    assert Held(s, item) && Origin(cfg, s, item);
    assert AllowedAt(cfg, s, item.tag);
    assert At(s, item.tag, HubGot) || At(s, item.tag, RegistryGot);
    var d := s.datagrams[item.tag];
    var now :| cfg.decode(d.bytes, d.sourceAddr, now) == Ok(item.event);
    D.AcceptedIsValid(d.bytes, d.sourceAddr, now, item.event);
  }

  // ----- what is lost, and when -----

  /** With this step the datagram comes to this place. */
  ghost predicate Comes(cfg: Config, steps: seq<Step>, t: Step, tag: nat, to: Place) {
    && Feasible(cfg, steps + [t])
    && At(Run(cfg, steps + [t]), tag, to)
    && Feasible(cfg, steps) && !At(Run(cfg, steps), tag, to)
  }

  // Of all steps only the one that fits the place brings a datagram there, the one its actor holds.

  lemma ComesRefused(cfg: Config, s: State, t: Step, tag: nat)
    requires Enabled(cfg, s, t) && At(Next(cfg, s, t), tag, Refused) && !At(s, tag, Refused)
    ensures t.Discard? && tag == s.receiver.tag
  {}

  lemma ComesFailed(cfg: Config, s: State, t: Step, tag: nat)
    requires Enabled(cfg, s, t) && At(Next(cfg, s, t), tag, Failed) && !At(s, tag, Failed)
    ensures t.Decode? && tag == s.work[t.worker].tag && Next(cfg, s, t).work[t.worker].Releasing?
  {}

  lemma ComesLimited(cfg: Config, s: State, t: Step, tag: nat)
    requires Enabled(cfg, s, t) && At(Next(cfg, s, t), tag, Limited) && !At(s, tag, Limited)
    ensures t.Check? && tag == s.work[t.worker].tag && Next(cfg, s, t).work[t.worker].Releasing?
  {}

  lemma ComesDropped(cfg: Config, s: State, t: Step, tag: nat)
    requires Enabled(cfg, s, t) && At(Next(cfg, s, t), tag, OutputDropped) && !At(s, tag, OutputDropped)
    ensures t.Output? && tag == s.work[t.worker].tag && Next(cfg, s, t).out == s.out
  {}

  /** A datagram is refused only because its address is not allowed or the queue is full. */
  lemma RefusedOnly(cfg: Config, steps: seq<Step>, t: Step, tag: nat)
    requires Comes(cfg, steps, t, tag, Refused)
    ensures tag < |Run(cfg, steps).datagrams|
    ensures !cfg.allowed(Run(cfg, steps).datagrams[tag].sourceAddr) || |Run(cfg, steps).queue| >= cfg.queueCap
  {
    var s := Run(cfg, steps);
    RunNext(cfg, steps, t);
    RunSound(cfg, steps);
    ComesRefused(cfg, s, t, tag);
    assert PipelineData.Carries(s, s.receiver.packet, s.receiver.tag);
  }

  /** A datagram fails only because the decoder refuses its bytes. */
  lemma FailedOnly(cfg: Config, steps: seq<Step>, t: Step, tag: nat)
    requires Comes(cfg, steps, t, tag, Failed)
    ensures tag < |Run(cfg, steps).datagrams|
    ensures var d := Run(cfg, steps).datagrams[tag]; exists now :: cfg.decode(d.bytes, d.sourceAddr, now).Err?
  {
    var s := Run(cfg, steps);
    RunNext(cfg, steps, t);
    RunSound(cfg, steps);
    ComesFailed(cfg, s, t, tag);
    assert PipelineData.Carries(s, s.work[t.worker].packet, tag);
    assert cfg.decode(s.datagrams[tag].bytes, s.datagrams[tag].sourceAddr, t.now).Err?;
  }

  /** A datagram is limited only because the bucket of the system ID it was decoded to refuses it. */
  lemma LimitedOnly(cfg: Config, steps: seq<Step>, t: Step, tag: nat)
    requires Comes(cfg, steps, t, tag, Limited)
    ensures t.Check? && exists e :: DecodedFrom(cfg, Run(cfg, steps), tag, e) && t.call.id == e.id.systemID
    ensures !Passes(Load(cfg.limits, Run(cfg, steps).buckets, t.call), t.call.now)
  {
    var s := Run(cfg, steps);
    RunNext(cfg, steps, t);
    RunSound(cfg, steps);
    ComesLimited(cfg, s, t, tag);
    var g := s.work[t.worker];
    assert AtWorkItem(s, t.worker, Item(g.packet, g.tag, g.event));
    assert Held(s, Item(g.packet, g.tag, g.event)) && Origin(cfg, s, Item(g.packet, g.tag, g.event));
  }

  /** An event is dropped at the output only because the output is full. */
  lemma OutputDroppedOnly(cfg: Config, steps: seq<Step>, t: Step, tag: nat)
    requires Comes(cfg, steps, t, tag, OutputDropped)
    ensures |Run(cfg, steps).out| >= cfg.outCap
  {
    RunNext(cfg, steps, t);
    RunSound(cfg, steps);
    ComesDropped(cfg, Run(cfg, steps), t, tag);
  }

  /** A read records the datagram as far as the buffer holds it, with its address, and counts it. */
  lemma ReadRecords(cfg: Config, steps: seq<Step>, d: Datagram)
    requires Feasible(cfg, steps + [Read(d)])
    ensures Feasible(cfg, steps)
    ensures var s, n := Run(cfg, steps), Run(cfg, steps + [Read(d)]);
      && n.datagrams == s.datagrams +
           [Datagram(d.bytes[..if |d.bytes| <= cfg.bufferSize then |d.bytes| else cfg.bufferSize], d.sourceAddr)]
      && n.place == s.place + [AtReceiver] && n.packetsReceived == s.packetsReceived + 1
  {
    RunNext(cfg, steps, Read(d));
    RunSound(cfg, steps);
    var s := Run(cfg, steps);
    assert BufferOK(cfg, s, s.packets[s.receiver.packet]);
    ReadPrefix(s.packets[s.receiver.packet], d, |s.place|);
  }

  lemma ReadPrefix(p: Packet, d: Datagram, tag: nat)
    ensures PacketBytes(ReadInto(p, d, tag)) == d.bytes[..if |d.bytes| <= |p.data| then |d.bytes| else |p.data|]
  {}

  // ----- what the receiver can do -----

  lemma FeasibleNext(cfg: Config, steps: seq<Step>, t: Step)
    requires Feasible(cfg, steps)
    ensures Feasible(cfg, steps + [t]) <==> Enabled(cfg, Run(cfg, steps), t)
  {
    assert (steps + [t])[..|steps|] == steps;
  }

  /**
    A datagram that has been read can be queued exactly if its address is allowed and the queue has room, handed to a worker
    exactly if its address is allowed, the queue is empty and the worker idle, and dropped exactly if its address is
    not allowed or the queue is full.
   */
  lemma ReceiverChoice(cfg: Config, steps: seq<Step>, w: nat)
    requires Feasible(cfg, steps) && Run(cfg, steps).receiver.Filled?
    ensures var s := Run(cfg, steps);
      && s.receiver.tag < |s.datagrams|
      && var ok := cfg.allowed(s.datagrams[s.receiver.tag].sourceAddr);
      && (Feasible(cfg, steps + [Enqueue]) <==> ok && |s.queue| < cfg.queueCap)
      && (Feasible(cfg, steps + [Handoff(w)]) <==> ok && s.queue == [] && w < cfg.workers && w !in s.work)
      && (Feasible(cfg, steps + [Discard]) <==> !ok || |s.queue| >= cfg.queueCap)
  {
    var s := Run(cfg, steps);
    RunSound(cfg, steps);
    assert PipelineData.Carries(s, s.receiver.packet, s.receiver.tag);
    FeasibleNext(cfg, steps, Enqueue);
    FeasibleNext(cfg, steps, Handoff(w));
    FeasibleNext(cfg, steps, Discard);
  }

  // ----- in the order received -----

  predicate Waits(queue: seq<Queued>, tag: nat) {
    exists i :: 0 <= i < |queue| && queue[i].tag == tag
  }

  ghost predicate Ascending(queue: seq<Queued>) {
    forall i, j :: 0 <= i < j < |queue| ==> queue[i].tag < queue[j].tag
  }

  /** No datagram in the queue was received before one that has been given to a worker. */
  ghost predicate Behind(queue: seq<Queued>, place: seq<Place>, tag: nat) {
    && (AtIn(place, tag, InQueue) ==> Waits(queue, tag))
    && (tag < |place| && Dispatched(place[tag]) ==> forall i :: 0 <= i < |queue| ==> tag < queue[i].tag)
  }

  ghost predicate AllBehind(queue: seq<Queued>, place: seq<Place>) {
    forall tag {:trigger Behind(queue, place, tag)} :: Behind(queue, place, tag)
  }

  predicate Newest(receiver: Receiver, place: seq<Place>) {
    receiver.Filled? ==> receiver.tag == |place| - 1
  }

  ghost predicate Line(s: State) {
    Newest(s.receiver, s.place) && Ascending(s.queue) && AllBehind(s.queue, s.place)
  }

  lemma ReadLine(s: State, d: Datagram)
    requires Line(s) && s.receiver.Holding? && s.receiver.packet in s.packets
    ensures Line(DoRead(s, d))
  {
    var n := DoRead(s, d);
    forall k
      ensures Behind(n.queue, n.place, k)
    {
      assert Behind(s.queue, s.place, k);
    }
  }

  lemma QueueLine(queue: seq<Queued>, place: seq<Place>, packet: nat, tag: nat)
    requires Ascending(queue) && AllBehind(queue, place) && QueueTags(queue, place)
    requires AtIn(place, tag, AtReceiver) && tag == |place| - 1
    ensures Ascending(queue + [Queued(packet, tag)]) && AllBehind(queue + [Queued(packet, tag)], Moved(place, tag, InQueue))
  {
    var more, n := queue + [Queued(packet, tag)], Moved(place, tag, InQueue);
    forall k
      ensures Behind(more, n, k)
    {
      assert Behind(queue, place, k);
      assert more[|queue|].tag == tag;
      if AtIn(place, k, InQueue) {
        var i :| 0 <= i < |queue| && queue[i].tag == k;
        assert more[i].tag == k;
      }
    }
  }

  lemma HandoffLine(place: seq<Place>, tag: nat)
    requires AllBehind([], place)
    ensures AllBehind([], Moved(place, tag, AtWorker))
  {
    forall k
      ensures Behind([], Moved(place, tag, AtWorker), k)
    {
      assert Behind([], place, k);
    }
  }

  lemma FetchLine(queue: seq<Queued>, place: seq<Place>)
    requires queue != [] && Ascending(queue) && AllBehind(queue, place)
    ensures Ascending(queue[1..]) && AllBehind(queue[1..], Moved(place, queue[0].tag, AtWorker))
  {
    var rest, n := queue[1..], Moved(place, queue[0].tag, AtWorker);
    forall k
      ensures Behind(rest, n, k)
    {
      assert Behind(queue, place, k);
      if AtIn(n, k, InQueue) {
        var i :| 0 <= i < |queue| && queue[i].tag == k;
        assert rest[i - 1].tag == k;
      }
    }
  }

  lemma MovedLine(queue: seq<Queued>, place: seq<Place>, tag: nat, to: Place)
    requires AllBehind(queue, place) && tag < |place| && !to.InQueue? && (Dispatched(to) ==> Dispatched(place[tag]))
    ensures AllBehind(queue, Moved(place, tag, to))
  {
    forall k
      ensures Behind(queue, Moved(place, tag, to), k)
    {
      assert Behind(queue, place, k);
    }
  }

  lemma ReceiverLine(cfg: Config, s: State, t: Step)
    requires Line(s) && Tags(s) && Enabled(cfg, s, t) && (t.Enqueue? || t.Handoff? || t.Discard?)
    ensures Line(Next(cfg, s, t))
  {
    if t.Enqueue? {
      QueueLine(s.queue, s.place, s.receiver.packet, s.receiver.tag);
    } else if t.Handoff? {
      HandoffLine(s.place, s.receiver.tag);
    } else {
      MovedLine(s.queue, s.place, s.receiver.tag, Refused);
    }
  }

  lemma OthersLine(cfg: Config, s: State, t: Step)
    requires Line(s) && Tags(s) && Enabled(cfg, s, t)
    requires !t.Read? && !t.Enqueue? && !t.Handoff? && !t.Discard? && !t.Fetch?
    ensures Line(Next(cfg, s, t))
  {
    var n := Next(cfg, s, t);
    QueueKept(cfg, s, t);
    if n.place == s.place {
    } else {
      var tag, to := MoverIs(cfg, s, t);
      MovedLine(s.queue, s.place, tag, to);
    }
  }

  lemma QueueKept(cfg: Config, s: State, t: Step)
    requires Enabled(cfg, s, t) && !t.Read? && !t.Enqueue? && !t.Handoff? && !t.Discard? && !t.Fetch?
    ensures var n := Next(cfg, s, t);
      n.queue == s.queue && |n.place| == |s.place| && (n.receiver == s.receiver || !n.receiver.Filled?)
  {}

  lemma {:induction false} RunLine(cfg: Config, steps: seq<Step>)
    requires Feasible(cfg, steps)
    ensures Line(Run(cfg, steps))
  {
    if steps == [] {
    } else {
      var n := |steps| - 1;
      var s, t := Run(cfg, steps[..n]), steps[n];
      RunLine(cfg, steps[..n]);
      RunSound(cfg, steps[..n]);
      if t.Read? {
        ReadLine(s, t.datagram);
      } else if t.Fetch? {
        FetchLine(s.queue, s.place);
      } else if t.Enqueue? || t.Handoff? || t.Discard? {
        ReceiverLine(cfg, s, t);
      } else {
        OthersLine(cfg, s, t);
      }
    }
  }

  /** Workers are given the datagrams in the order received: one that still waits came after every one a worker has had. */
  lemma GivenInOrder(cfg: Config, steps: seq<Step>, waiting: nat, given: nat)
    requires Feasible(cfg, steps) && At(Run(cfg, steps), waiting, InQueue)
    requires given < |Run(cfg, steps).place| && Dispatched(Run(cfg, steps).place[given])
    ensures given < waiting
  {
    RunLine(cfg, steps);
    var s := Run(cfg, steps);
    assert Behind(s.queue, s.place, waiting) && Behind(s.queue, s.place, given);
  }

  // ----- in the order sent -----

  function SentNow(cfg: Config, s: State, t: Step): seq<Item>
    requires Enabled(cfg, s, t)
  {
    if t.Output? && |s.out| < cfg.outCap then [Item(s.work[t.worker].packet, s.work[t.worker].tag, s.work[t.worker].event)] else []
  }

  /** The events workers sent into the output, in that order. */
  function Sent(cfg: Config, steps: seq<Step>): seq<Item>
    requires Feasible(cfg, steps)
  {
    if steps == [] then []
    else
      var n := |steps| - 1;
      Sent(cfg, steps[..n]) + SentNow(cfg, Run(cfg, steps[..n]), steps[n])
  }

  function InHand(hand: Option<Item>): seq<Item> {
    if hand.Some? then [hand.value] else []
  }

  function TakenNow(n: State, t: Step, hub: bool, processor: bool): seq<Item> {
    if t.HubTake? && hub then InHand(n.hubHand)
    else if t.ProcessorTake? && processor then InHand(n.processorHand)
    else []
  }

  /** The events the hub, the processor or either took out of it, in that order. */
  function Taken(cfg: Config, steps: seq<Step>, hub: bool, processor: bool): seq<Item>
    requires Feasible(cfg, steps)
  {
    if steps == [] then []
    else Taken(cfg, steps[..|steps| - 1], hub, processor) + TakenNow(Run(cfg, steps), steps[|steps| - 1], hub, processor)
  }

  /** What one step does to the output and the consumers. */
  lemma OutputStep(cfg: Config, s: State, t: Step)
    requires Enabled(cfg, s, t)
    ensures s.out + SentNow(cfg, s, t) == TakenNow(Next(cfg, s, t), t, true, true) + Next(cfg, s, t).out
  {
    if t.HubTake? || t.ProcessorTake? {
      assert s.out == [s.out[0]] + s.out[1..];
    }
  }

  lemma HubStep(cfg: Config, s: State, t: Step)
    requires Enabled(cfg, s, t)
    ensures var n := Next(cfg, s, t);
      n.hubItems + InHand(n.hubHand) == s.hubItems + InHand(s.hubHand) + TakenNow(n, t, true, false)
  {}

  lemma ProcessorStep(cfg: Config, s: State, t: Step)
    requires Enabled(cfg, s, t)
    ensures var n := Next(cfg, s, t);
      n.registryItems + InHand(n.processorHand) == s.registryItems + InHand(s.processorHand) + TakenNow(n, t, false, true)
  {}

  /** In every run what was sent into the output is what was taken out, in the same order, and then what waits there. */
  lemma {:induction false} SentIsTaken(cfg: Config, steps: seq<Step>)
    requires Feasible(cfg, steps)
    ensures Sent(cfg, steps) == Taken(cfg, steps, true, true) + Run(cfg, steps).out
  {
    if steps == [] {
    } else {
      var n := |steps| - 1;
      var s, taken := Run(cfg, steps[..n]), Taken(cfg, steps[..n], true, true);
      SentIsTaken(cfg, steps[..n]);
      OutputStep(cfg, s, steps[n]);
      Shift(taken, s.out, SentNow(cfg, s, steps[n]), TakenNow(Run(cfg, steps), steps[n], true, true), Run(cfg, steps).out);
    }
  }

  lemma Shift<T>(x: seq<T>, out: seq<T>, sent: seq<T>, taken: seq<T>, rest: seq<T>)
    requires out + sent == taken + rest
    ensures x + out + sent == x + taken + rest
  {
    assert x + out + sent == x + (out + sent);
    assert x + taken + rest == x + (taken + rest);
  }

  /** Each consumer has counted, or has in hand, what it took, in that order. */
  lemma {:induction false} TakenIsGot(cfg: Config, steps: seq<Step>)
    requires Feasible(cfg, steps)
    ensures Taken(cfg, steps, true, false) == Run(cfg, steps).hubItems + InHand(Run(cfg, steps).hubHand)
    ensures Taken(cfg, steps, false, true) == Run(cfg, steps).registryItems + InHand(Run(cfg, steps).processorHand)
  {
    if steps == [] {
    } else {
      var n := |steps| - 1;
      TakenIsGot(cfg, steps[..n]);
      HubStep(cfg, Run(cfg, steps[..n]), steps[n]);
      ProcessorStep(cfg, Run(cfg, steps[..n]), steps[n]);
    }
  }

  lemma {:induction false} TakenBySome(cfg: Config, steps: seq<Step>, hub: bool)
    requires Feasible(cfg, steps)
    ensures Subsequence(Taken(cfg, steps, hub, !hub), Taken(cfg, steps, true, true))
  {
    if steps == [] {
    } else {
      var n := |steps| - 1;
      var own, both := TakenNow(Run(cfg, steps), steps[n], hub, !hub), TakenNow(Run(cfg, steps), steps[n], true, true);
      TakenBySome(cfg, steps[..n], hub);
      TakenStep(Taken(cfg, steps[..n], hub, !hub), Taken(cfg, steps[..n], true, true), own, both);
    }
  }

  lemma TakenStep(own: seq<Item>, all: seq<Item>, x: seq<Item>, y: seq<Item>)
    requires Subsequence(own, all) && |y| <= 1 && (x == y || x == [])
    ensures Subsequence(own + x, all + y)
  {
    if y == [] {
      assert own + x == own && all + y == all;
    } else if x == y {
      SubsequenceBoth(own, all, y[0]);
      assert y == [y[0]];
    } else {
      SubsequenceSkip(own, all, y[0]);
      assert own + x == own && y == [y[0]];
    }
  }

  /**
    Events leave the output in the order the workers sent them in, each to one consumer: what waits there is the end of what
    was sent, and what each consumer has counted or has in hand is a subsequence of the rest.
   */
  lemma OutputInOrder(cfg: Config, steps: seq<Step>)
    requires Feasible(cfg, steps)
    ensures var s, taken := Run(cfg, steps), Taken(cfg, steps, true, true);
      && Sent(cfg, steps) == taken + s.out
      && Subsequence(s.hubItems + InHand(s.hubHand), taken)
      && Subsequence(s.registryItems + InHand(s.processorHand), taken)
      && |taken| == |s.hubItems + InHand(s.hubHand)| + |s.registryItems + InHand(s.processorHand)|
  {
    SentIsTaken(cfg, steps);
    TakenIsGot(cfg, steps);
    TakenBySome(cfg, steps, true);
    TakenBySome(cfg, steps, false);
    TakenAll(cfg, steps);
  }

  lemma {:induction false} TakenAll(cfg: Config, steps: seq<Step>)
    requires Feasible(cfg, steps)
    ensures |Taken(cfg, steps, true, true)| == |Taken(cfg, steps, true, false)| + |Taken(cfg, steps, false, true)|
  {
    if steps == [] {
    } else {
      TakenAll(cfg, steps[..|steps| - 1]);
    }
  }
}
