/** Who owns which buffer, what becomes of every datagram, and what the consumers get, over every run of the pipeline. */
module PipelineLaws {
  import opened Bytes
  import opened Telemetry
  import opened RateLimit
  import opened Collections
  import opened Pipeline

  // ----- buffer ownership -----

  predicate AtReceiverNow(s: State, packet: nat) {
    !s.receiver.Waiting? && s.receiver.packet == packet
  }

  /** A packet has at most one owner: the pool, the receiver, one place in the queue or one worker. */
  ghost predicate Ownership(s: State) {
    && s.pool <= s.packets.Keys
    && (!s.receiver.Waiting? ==> s.receiver.packet in s.packets && s.receiver.packet !in s.pool)
    && (forall i :: 0 <= i < |s.queue| ==>
          var p := s.queue[i].packet; p in s.packets && p !in s.pool && !AtReceiverNow(s, p))
    && (forall i, j :: 0 <= i < j < |s.queue| ==> s.queue[i].packet != s.queue[j].packet)
    && (forall w :: w in s.work ==>
          var p := s.work[w].packet; p in s.packets && p !in s.pool && !AtReceiverNow(s, p))
    && (forall w, v :: w in s.work && v in s.work && w != v ==> s.work[w].packet != s.work[v].packet)
    && (forall i, w :: 0 <= i < |s.queue| && w in s.work ==> s.queue[i].packet != s.work[w].packet)
  }

  lemma ReceiverOwns(cfg: Config, s: State, t: Step)
    requires Enabled(cfg, s, t) && Ownership(s)
    requires t.PoolGet? || t.PoolCollect? || t.ReadFails? || t.Read? || t.Discard? || t.ReceiverPut?
    ensures Ownership(Next(cfg, s, t))
  {}

  lemma QueueOwns(cfg: Config, s: State, t: Step)
    requires Enabled(cfg, s, t) && Ownership(s)
    requires t.Enqueue? || t.Handoff?
    ensures Ownership(Next(cfg, s, t))
  {}

  lemma FetchOwns(cfg: Config, s: State, t: Step)
    requires Enabled(cfg, s, t) && Ownership(s) && t.Fetch?
    ensures Ownership(Next(cfg, s, t))
  {}

  lemma PutOwns(cfg: Config, s: State, t: Step)
    requires Enabled(cfg, s, t) && Ownership(s) && t.WorkerPut?
    ensures Ownership(Next(cfg, s, t))
  {}

  predicate MovesPackets(t: Step) {
    || t.PoolGet? || t.PoolCollect? || t.ReadFails? || t.Read? || t.Discard? || t.ReceiverPut?
    || t.Enqueue? || t.Handoff? || t.Fetch? || t.WorkerPut?
  }

  /** No other step changes who owns what. */
  lemma OthersKeepOwners(cfg: Config, s: State, t: Step)
    requires Enabled(cfg, s, t) && !MovesPackets(t)
    ensures var n := Next(cfg, s, t);
      && n.packets == s.packets && n.pool == s.pool && n.receiver == s.receiver && n.queue == s.queue
      && n.work.Keys == s.work.Keys && forall w :: w in s.work ==> n.work[w].packet == s.work[w].packet
  {}

  lemma OwnershipStep(cfg: Config, s: State, t: Step)
    requires Enabled(cfg, s, t) && Ownership(s)
    ensures Ownership(Next(cfg, s, t))
  {
    if t.Enqueue? || t.Handoff? {
      QueueOwns(cfg, s, t);
    } else if t.Fetch? {
      FetchOwns(cfg, s, t);
    } else if t.WorkerPut? {
      PutOwns(cfg, s, t);
    } else if MovesPackets(t) {
      ReceiverOwns(cfg, s, t);
    } else {
      OthersKeepOwners(cfg, s, t);
    }
  }

  // ----- where every datagram is -----

  predicate AtIn(place: seq<Place>, tag: nat, p: Place) {
    tag < |place| && place[tag] == p
  }

  predicate At(s: State, tag: nat, p: Place) {
    AtIn(s.place, tag, p)
  }

  function WorkPlace(g: Work): Place {
    if g.Counted? then Passing else AtWorker
  }

  ghost predicate QueueTags(queue: seq<Queued>, place: seq<Place>) {
    && (forall i :: 0 <= i < |queue| ==> AtIn(place, queue[i].tag, InQueue))
    && (forall i, j :: 0 <= i < j < |queue| ==> queue[i].tag != queue[j].tag)
  }

  ghost predicate WorkTags(work: map<nat, Work>, place: seq<Place>) {
    && (forall w :: w in work && !work[w].Releasing? ==> AtIn(place, work[w].tag, WorkPlace(work[w])))
    && (forall w, v :: w in work && v in work && w != v && !work[w].Releasing? && !work[v].Releasing?
                       ==> work[w].tag != work[v].tag)
  }

  ghost predicate OutTags(out: seq<Item>, place: seq<Place>) {
    && (forall i :: 0 <= i < |out| ==> AtIn(place, out[i].tag, InOutput))
    && (forall i, j :: 0 <= i < j < |out| ==> out[i].tag != out[j].tag)
  }

  predicate HandTags(receiver: Receiver, hubHand: Option<Item>, processorHand: Option<Item>, place: seq<Place>) {
    && (receiver.Filled? ==> AtIn(place, receiver.tag, AtReceiver))
    && (hubHand.Some? ==> AtIn(place, hubHand.value.tag, AtHub))
    && (processorHand.Some? ==> AtIn(place, processorHand.value.tag, AtProcessor))
  }

  /** Whoever holds a datagram holds it in the place on record, and nobody else does. */
  ghost predicate Tags(s: State) {
    && QueueTags(s.queue, s.place) && WorkTags(s.work, s.place) && OutTags(s.out, s.place)
    && HandTags(s.receiver, s.hubHand, s.processorHand, s.place)
  }

  // ----- a datagram on the move: those that do not hold it keep theirs -----

  lemma QueueKept(queue: seq<Queued>, place: seq<Place>, tag: nat, to: Place)
    requires QueueTags(queue, place) && !AtIn(place, tag, InQueue)
    ensures QueueTags(queue, Moved(place, tag, to))
  {}

  lemma OutKept(out: seq<Item>, place: seq<Place>, tag: nat, to: Place)
    requires OutTags(out, place) && !AtIn(place, tag, InOutput)
    ensures OutTags(out, Moved(place, tag, to))
  {}

  lemma WorkKept(work: map<nat, Work>, place: seq<Place>, tag: nat, to: Place)
    requires WorkTags(work, place) && !AtIn(place, tag, AtWorker) && !AtIn(place, tag, Passing)
    ensures WorkTags(work, Moved(place, tag, to))
  {}

  /** A worker takes up another state, and its datagram moves accordingly. */
  lemma WorkMoved(work: map<nat, Work>, place: seq<Place>, w: nat, g: Work, to: Place)
    requires WorkTags(work, place) && w in work && !work[w].Releasing?
    requires g.Releasing? || (g.tag == work[w].tag && WorkPlace(g) == to)
    ensures WorkTags(work[w := g], Moved(place, work[w].tag, to))
  {}

  lemma WorkAdded(work: map<nat, Work>, place: seq<Place>, w: nat, g: Work)
    requires WorkTags(work, place) && (w in work ==> work[w].Releasing?) && g.Got?
    requires g.tag < |place| && !AtIn(place, g.tag, AtWorker) && !AtIn(place, g.tag, Passing)
    ensures WorkTags(work[w := g], Moved(place, g.tag, AtWorker))
  {}

  lemma QueueShorter(queue: seq<Queued>, place: seq<Place>, to: Place)
    requires QueueTags(queue, place) && queue != []
    ensures QueueTags(queue[1..], Moved(place, queue[0].tag, to))
  {}

  lemma QueueLonger(queue: seq<Queued>, place: seq<Place>, q: Queued)
    requires QueueTags(queue, place) && q.tag < |place| && !AtIn(place, q.tag, InQueue)
    ensures QueueTags(queue + [q], Moved(place, q.tag, InQueue))
  {}

  lemma OutShorter(out: seq<Item>, place: seq<Place>, to: Place)
    requires OutTags(out, place) && out != []
    ensures OutTags(out[1..], Moved(place, out[0].tag, to))
  {}

  lemma OutLonger(out: seq<Item>, place: seq<Place>, item: Item)
    requires OutTags(out, place) && item.tag < |place| && !AtIn(place, item.tag, InOutput)
    ensures OutTags(out + [item], Moved(place, item.tag, InOutput))
  {}

  lemma PlaceAdded(s: State, to: Place)
    requires Tags(s)
    ensures QueueTags(s.queue, s.place + [to]) && WorkTags(s.work, s.place + [to]) && OutTags(s.out, s.place + [to])
    ensures HandTags(s.receiver, s.hubHand, s.processorHand, s.place + [to])
  {}

  // ----- the steps -----

  lemma ReceiverTags(cfg: Config, s: State, t: Step)
    requires Enabled(cfg, s, t) && Tags(s)
    requires t.Read? || t.Enqueue? || t.Handoff? || t.Discard?
    ensures Tags(Next(cfg, s, t))
  {
    if t.Read? {
      PlaceAdded(s, AtReceiver);
    } else {
      var tag := s.receiver.tag;
      var to := if t.Enqueue? then InQueue else if t.Handoff? then AtWorker else Refused;
      OutKept(s.out, s.place, tag, to);
      if t.Enqueue? {
        QueueLonger(s.queue, s.place, Queued(s.receiver.packet, tag));
        WorkKept(s.work, s.place, tag, to);
      } else if t.Handoff? {
        QueueKept(s.queue, s.place, tag, to);
        WorkAdded(s.work, s.place, t.worker, Got(s.receiver.packet, tag));
      } else {
        QueueKept(s.queue, s.place, tag, to);
        WorkKept(s.work, s.place, tag, to);
      }
    }
  }

  lemma FetchTags(cfg: Config, s: State, t: Step)
    requires Enabled(cfg, s, t) && Tags(s) && t.Fetch?
    ensures Tags(Next(cfg, s, t))
  {
    var q := s.queue[0];
    QueueShorter(s.queue, s.place, AtWorker);
    OutKept(s.out, s.place, q.tag, AtWorker);
    WorkAdded(s.work, s.place, t.worker, Got(q.packet, q.tag));
  }

  /** A worker's own step: its datagram stays with it, goes to the output, or is done with. */
  lemma WorkerTags(s: State, n: State, w: nat, g: Work, to: Place)
    requires Tags(s) && w in s.work && !s.work[w].Releasing? && n.work == s.work[w := g]
    requires g.Releasing? || (g.tag == s.work[w].tag && WorkPlace(g) == to)
    requires n.place == Moved(s.place, s.work[w].tag, to) && n.queue == s.queue && n.receiver == s.receiver
    requires n.hubHand == s.hubHand && n.processorHand == s.processorHand
    requires if to.InOutput? then |n.out| == |s.out| + 1 && n.out == s.out + [n.out[|s.out|]] && n.out[|s.out|].tag == s.work[w].tag
             else n.out == s.out
    ensures Tags(n)
  {
    var tag := s.work[w].tag;
    QueueKept(s.queue, s.place, tag, to);
    WorkMoved(s.work, s.place, w, g, to);
    if to.InOutput? {
      OutLonger(s.out, s.place, n.out[|s.out|]);
    } else {
      OutKept(s.out, s.place, tag, to);
    }
  }

  lemma DecodeTags(cfg: Config, s: State, w: nat, now: int)
    requires Tags(s) && w in s.work && s.work[w].Got? && s.work[w].packet in s.packets
    ensures Tags(DoDecode(cfg, s, w, now))
  {
    var n := DoDecode(cfg, s, w, now);
    var g := n.work[w];
    StaysPut(s.place, s.work[w].tag);
    WorkerTags(s, n, w, g, if g.Releasing? then Failed else AtWorker);
  }

  lemma StaysPut(place: seq<Place>, tag: nat)
    requires tag < |place|
    ensures Moved(place, tag, place[tag]) == place
  {}

  lemma CheckTags(s: State, w: nat, buckets: map<byte, Bucket>, passes: bool)
    requires Tags(s) && w in s.work && s.work[w].Parsed?
    ensures Tags(DoCheck(s, w, buckets, passes))
  {
    var n := DoCheck(s, w, buckets, passes);
    StaysPut(s.place, s.work[w].tag);
    WorkerTags(s, n, w, n.work[w], if passes then AtWorker else Limited);
  }

  lemma CountTags(cfg: Config, s: State, t: Step)
    requires Enabled(cfg, s, t) && Tags(s) && t.Count?
    ensures Tags(Next(cfg, s, t))
  {
    WorkerTags(s, Next(cfg, s, t), t.worker, Next(cfg, s, t).work[t.worker], Passing);
  }

  lemma OutputTags(cfg: Config, s: State, w: nat)
    requires Tags(s) && w in s.work && s.work[w].Counted?
    ensures Tags(DoOutput(cfg, s, w))
  {
    var n := DoOutput(cfg, s, w);
    WorkerTags(s, n, w, n.work[w], if |s.out| < cfg.outCap then InOutput else OutputDropped);
  }

  lemma TakeTags(cfg: Config, s: State, t: Step)
    requires Enabled(cfg, s, t) && Tags(s)
    requires t.HubTake? || t.ProcessorTake?
    ensures Tags(Next(cfg, s, t))
  {
    var tag, to := s.out[0].tag, if t.HubTake? then AtHub else AtProcessor;
    OutShorter(s.out, s.place, to);
    QueueKept(s.queue, s.place, tag, to);
    WorkKept(s.work, s.place, tag, to);
  }

  lemma ConsumeTags(cfg: Config, s: State, t: Step)
    requires Enabled(cfg, s, t) && Tags(s) && (t.HubReceive? || t.Process?)
    ensures Tags(Next(cfg, s, t))
  {
    var tag := if t.HubReceive? then s.hubHand.value.tag else s.processorHand.value.tag;
    var to := if t.HubReceive? then HubGot else RegistryGot;
    OutKept(s.out, s.place, tag, to);
    QueueKept(s.queue, s.place, tag, to);
    WorkKept(s.work, s.place, tag, to);
  }

  predicate Moves(t: Step) {
    || t.Read? || t.Enqueue? || t.Handoff? || t.Discard? || t.Fetch? || t.Decode? || t.Check? || t.Count? || t.Output?
    || t.HubTake? || t.HubReceive? || t.ProcessorTake? || t.Process?
  }

  lemma OthersKeepTags(cfg: Config, s: State, t: Step)
    requires Enabled(cfg, s, t) && Tags(s) && !Moves(t)
    ensures Tags(Next(cfg, s, t))
  {}

  lemma TagsStep(cfg: Config, s: State, t: Step)
    requires Enabled(cfg, s, t) && Tags(s)
    ensures Tags(Next(cfg, s, t))
  {
    match t
    case Decode(w, now) => DecodeTags(cfg, s, w, now);
    case Check(w, call) =>
      CheckTags(s, w, CheckRateLimit(cfg.limits, s.buckets, call), Passes(Load(cfg.limits, s.buckets, call), call.now));
    case Count(_) => CountTags(cfg, s, t);
    case Output(w) => OutputTags(cfg, s, w);
    case Fetch(_) => FetchTags(cfg, s, t);
    case HubTake => TakeTags(cfg, s, t);
    case ProcessorTake => TakeTags(cfg, s, t);
    case HubReceive => ConsumeTags(cfg, s, t);
    case Process => ConsumeTags(cfg, s, t);
    case _ =>
      if Moves(t) {
        ReceiverTags(cfg, s, t);
      } else {
        OthersKeepTags(cfg, s, t);
      }
  }

  // ----- each event to one consumer -----

  /** The items a consumer was given are those in its place, each once. */
  ghost predicate GivenTo(s: State, items: seq<Item>, p: Place) {
    && (forall i :: 0 <= i < |items| ==> At(s, items[i].tag, p))
    && (forall i, j :: 0 <= i < j < |items| ==> items[i].tag != items[j].tag)
  }

  lemma GivenKept(s: State, n: State, items: seq<Item>, p: Place, tag: nat, to: Place)
    requires GivenTo(s, items, p) && n.place == Moved(s.place, tag, to)
    requires tag < |s.place| && s.place[tag] != p
    ensures GivenTo(n, items, p)
  {}

  lemma GivenMore(s: State, n: State, items: seq<Item>, item: Item, p: Place)
    requires GivenTo(s, items, p) && n.place == Moved(s.place, item.tag, p)
    requires item.tag < |s.place| && s.place[item.tag] != p
    ensures GivenTo(n, items + [item], p)
  {
    var all := items + [item];
    forall i | 0 <= i < |all|
      ensures At(n, all[i].tag, p)
    {
      assert i < |items| ==> At(s, items[i].tag, p);
    }
  }

  /** Only datagrams on the move change place, and never out of a consumer's hands once counted. */
  lemma PlaceStep(cfg: Config, s: State, t: Step) returns (tag: nat, to: Place)
    requires Enabled(cfg, s, t) && Tags(s) && !t.Read? && !t.HubReceive? && !t.Process?
    ensures var n := Next(cfg, s, t);
      n.place == s.place || (tag < |s.place| && n.place == Moved(s.place, tag, to) && s.place[tag] != HubGot && s.place[tag] != RegistryGot)
  {
    tag, to := 0, AtWorker;
    match t
    case Enqueue => tag, to := s.receiver.tag, InQueue;
    case Handoff(_) => tag := s.receiver.tag;
    case Discard => tag, to := s.receiver.tag, Refused;
    case Fetch(_) => tag := s.queue[0].tag;
    case Decode(w, _) => tag, to := s.work[w].tag, Failed;
    case Check(w, _) => tag, to := s.work[w].tag, Limited;
    case Count(w) => tag, to := s.work[w].tag, Passing;
    case Output(w) => tag, to := s.work[w].tag, if |s.out| < cfg.outCap then InOutput else OutputDropped;
    case HubTake => tag, to := s.out[0].tag, AtHub;
    case ProcessorTake => tag, to := s.out[0].tag, AtProcessor;
    case _ =>
  }

  ghost predicate Given(s: State) {
    GivenTo(s, s.hubItems, HubGot) && GivenTo(s, s.registryItems, RegistryGot)
  }

  lemma GivenRead(s: State, d: Datagram)
    requires Given(s) && s.receiver.Holding? && s.receiver.packet in s.packets
    ensures Given(DoRead(s, d))
  {}

  lemma ItemsKept(cfg: Config, s: State, t: Step)
    requires Enabled(cfg, s, t) && !t.HubReceive? && !t.Process?
    ensures Next(cfg, s, t).hubItems == s.hubItems && Next(cfg, s, t).registryItems == s.registryItems
  {}

  lemma GivenStep(cfg: Config, s: State, t: Step)
    requires Enabled(cfg, s, t) && Tags(s) && Given(s)
    ensures Given(Next(cfg, s, t))
  {
    var n := Next(cfg, s, t);
    if t.Read? {
      GivenRead(s, t.datagram);
    } else if t.HubReceive? {
      GivenMore(s, n, s.hubItems, s.hubHand.value, HubGot);
      GivenKept(s, n, s.registryItems, RegistryGot, s.hubHand.value.tag, HubGot);
    } else if t.Process? {
      GivenMore(s, n, s.registryItems, s.processorHand.value, RegistryGot);
      GivenKept(s, n, s.hubItems, HubGot, s.processorHand.value.tag, RegistryGot);
    } else {
      var tag, to := PlaceStep(cfg, s, t);
      ItemsKept(cfg, s, t);
      if n.place != s.place {
        GivenKept(s, n, s.hubItems, HubGot, tag, to);
        GivenKept(s, n, s.registryItems, RegistryGot, tag, to);
      }
    }
  }

  // ----- counting -----

  function CountAt(place: seq<Place>, p: Place): nat {
    if place == [] then 0 else CountAt(place[..|place| - 1], p) + Is(place[|place| - 1], p)
  }

  lemma {:induction false} CountMoved(place: seq<Place>, tag: nat, to: Place, p: Place)
    requires tag < |place|
    ensures CountAt(Moved(place, tag, to), p)
         == CountAt(place, p) - (if place[tag] == p then 1 else 0) + (if to == p then 1 else 0)
    decreases |place|
  {
    var n := |place| - 1;
    var m := Moved(place, tag, to);
    if tag == n {
      assert m[..n] == place[..n];
    } else {
      assert m[..n] == Moved(place[..n], tag, to);
      CountMoved(place[..n], tag, to, p);
    }
  }

  lemma CountAdded(place: seq<Place>, to: Place, p: Place)
    ensures CountAt(place + [to], p) == CountAt(place, p) + (if to == p then 1 else 0)
  {
    assert (place + [to])[..|place|] == place;
  }

  function Is(p: Place, q: Place): nat {
    if p == q then 1 else 0
  }

  lemma OnePlace(p: Place)
    ensures Is(p, AtReceiver) + Is(p, InQueue) + Is(p, AtWorker) + Is(p, Passing) + Is(p, InOutput) + Is(p, AtHub)
      + Is(p, AtProcessor) + Is(p, Refused) + Is(p, Failed) + Is(p, Limited) + Is(p, OutputDropped) + Is(p, HubGot)
      + Is(p, RegistryGot) == 1
  {}

  /** Every datagram is in exactly one place. */
  lemma {:induction false} CountAll(place: seq<Place>)
    ensures |place| == CountAt(place, AtReceiver) + CountAt(place, InQueue) + CountAt(place, AtWorker) + CountAt(place, Passing)
      + CountAt(place, InOutput) + CountAt(place, AtHub) + CountAt(place, AtProcessor)
      + CountAt(place, Refused) + CountAt(place, Failed) + CountAt(place, Limited) + CountAt(place, OutputDropped)
      + CountAt(place, HubGot) + CountAt(place, RegistryGot)
  {
    if place == [] {
    } else {
      CountAll(place[..|place| - 1]);
      OnePlace(place[|place| - 1]);
    }
  }

  ghost function Busy(work: map<nat, Work>, p: Place): set<nat> {
    set w | w in work && !work[w].Releasing? && WorkPlace(work[w]) == p
  }

  function DropsOf(buckets: map<byte, Bucket>): map<byte, nat> {
    map id | id in buckets :: buckets[id].drops
  }

  /** How many datagrams the program itself has, or has counted, in a place. */
  ghost function Tally(s: State, p: Place): nat {
    match p
    case AtReceiver => if s.receiver.Filled? then 1 else 0
    case InQueue => |s.queue|
    case AtWorker => |Busy(s.work, AtWorker)|
    case Passing => |Busy(s.work, Passing)|
    case InOutput => |s.out|
    case AtHub => if s.hubHand.Some? then 1 else 0
    case AtProcessor => if s.processorHand.Some? then 1 else 0
    case Refused => s.packetsDropped
    case Failed => s.errors
    case Limited => Sum(DropsOf(s.buckets))
    case OutputDropped => s.outputDrops
    case HubGot => |s.hubItems|
    case RegistryGot => |s.registryItems|
  }

  ghost function PastLimit(s: State): nat {
    Tally(s, Passing) + Tally(s, InOutput) + Tally(s, AtHub) + Tally(s, AtProcessor)
    + Tally(s, OutputDropped) + Tally(s, HubGot) + Tally(s, RegistryGot)
  }

  ghost predicate Tallies(s: State, p: Place) {
    Tally(s, p) == CountAt(s.place, p)
  }

  ghost predicate Books(s: State) {
    && s.packetsReceived == |s.place| == |s.datagrams|
    && (forall p {:trigger Tallies(s, p)} :: Tallies(s, p))
    && s.processed == PastLimit(s)
  }

  predicate IsPast(p: Place) {
    p.Passing? || p.InOutput? || p.AtHub? || p.AtProcessor? || p.OutputDropped? || p.HubGot? || p.RegistryGot?
  }

  /** The program's numbers moved with a datagram. */
  ghost predicate TallyMoved(s: State, n: State, from: Place, to: Place, p: Place) {
    Tally(n, p) == Tally(s, p) - (if from == p then 1 else 0) + (if to == p then 1 else 0)
  }

  lemma PastMoved(s: State, n: State, from: Place, to: Place)
    requires forall p {:trigger TallyMoved(s, n, from, to, p)} :: TallyMoved(s, n, from, to, p)
    ensures PastLimit(n) == PastLimit(s) - (if IsPast(from) then 1 else 0) + (if IsPast(to) then 1 else 0)
  {
    assert TallyMoved(s, n, from, to, Passing) && TallyMoved(s, n, from, to, InOutput);
    assert TallyMoved(s, n, from, to, AtHub) && TallyMoved(s, n, from, to, AtProcessor);
    assert TallyMoved(s, n, from, to, OutputDropped) && TallyMoved(s, n, from, to, HubGot);
    assert TallyMoved(s, n, from, to, RegistryGot);
  }

  /** A datagram moved, and the program's numbers moved with it. */
  lemma MoveBooks(s: State, n: State, tag: nat, to: Place)
    requires Books(s) && tag < |s.place| && n.place == Moved(s.place, tag, to)
    requires n.packetsReceived == s.packetsReceived && n.datagrams == s.datagrams
    requires forall p {:trigger TallyMoved(s, n, s.place[tag], to, p)} :: TallyMoved(s, n, s.place[tag], to, p)
    requires n.processed == s.processed + (if IsPast(to) && !IsPast(s.place[tag]) then 1 else 0)
    requires IsPast(s.place[tag]) ==> IsPast(to)
    ensures Books(n)
  {
    forall p
      ensures Tallies(n, p)
    {
      assert Tallies(s, p) && TallyMoved(s, n, s.place[tag], to, p);
      CountMoved(s.place, tag, to, p);
    }
    PastMoved(s, n, s.place[tag], to);
  }

  /** A worker that takes up another state is counted there. */
  lemma BusyMoved(work: map<nat, Work>, w: nat, g: Work, p: Place)
    ensures |Busy(work[w := g], p)| == |Busy(work, p)|
      - (if w in work && !work[w].Releasing? && WorkPlace(work[w]) == p then 1 else 0)
      + (if !g.Releasing? && WorkPlace(g) == p then 1 else 0)
  {
    var b, c := Busy(work, p), Busy(work[w := g], p);
    if !g.Releasing? && WorkPlace(g) == p {
      assert c == b + {w};
    } else {
      assert c == b - {w};
    }
  }

  lemma BusyGone(work: map<nat, Work>, w: nat, p: Place)
    requires w in work && work[w].Releasing?
    ensures Busy(work - {w}, p) == Busy(work, p)
  {}

  lemma DropsChecked(cfg: Limits, m: map<byte, Bucket>, c: Call)
    ensures Sum(DropsOf(CheckRateLimit(cfg, m, c))) == Sum(DropsOf(m)) + (if Passes(Load(cfg, m, c), c.now) then 0 else 1)
  {
    var b := RateLimit.Check(Load(cfg, m, c), c.now);
    assert b.drops == Load(cfg, m, c).drops + (if Passes(Load(cfg, m, c), c.now) then 0 else 1);
    DropsStored(m, c.id, b);
  }

  lemma DropsStored(m: map<byte, Bucket>, id: byte, b: Bucket)
    ensures Sum(DropsOf(m[id := b])) == Sum(DropsOf(m)) + b.drops - (if id in m then m[id].drops else 0)
  {
    assert DropsOf(m[id := b]) == DropsOf(m)[id := b.drops];
    SumUpdate(DropsOf(m), id, b.drops);
  }

  lemma ReadBooks(s: State, d: Datagram)
    requires Books(s) && s.receiver.Holding? && s.receiver.packet in s.packets
    ensures Books(DoRead(s, d))
  {
    var n := DoRead(s, d);
    forall p
      ensures Tallies(n, p)
    {
      assert Tallies(s, p);
      CountAdded(s.place, AtReceiver, p);
    }
  }

  lemma ReceiverBooks(cfg: Config, s: State, t: Step)
    requires Enabled(cfg, s, t) && Tags(s) && Books(s) && (t.Enqueue? || t.Discard?)
    ensures Books(Next(cfg, s, t))
  {
    MoveBooks(s, Next(cfg, s, t), s.receiver.tag, if t.Enqueue? then InQueue else Refused);
  }

  /** A worker takes a datagram from the receiver or the queue. */
  lemma WorkerStartBooks(s: State, n: State, w: nat, g: Work, from: Place)
    requires Books(s) && g.Got? && At(s, g.tag, from) && n.work == s.work[w := g] && w !in s.work
    requires from == AtReceiver || from == InQueue
    requires n == s.(work := n.work, place := Moved(s.place, g.tag, AtWorker), receiver := n.receiver, queue := n.queue)
    requires Tally(n, AtReceiver) == Tally(s, AtReceiver) - (if from == AtReceiver then 1 else 0)
    requires |n.queue| == |s.queue| - (if from == InQueue then 1 else 0)
    ensures Books(n)
  {
    BusyMoved(s.work, w, g, AtWorker);
    BusyMoved(s.work, w, g, Passing);
    MoveBooks(s, n, g.tag, AtWorker);
  }

  /** A worker's datagram moves to `to`, everything else but the counter for that place unchanged. */
  lemma WorkBooks(s: State, n: State, w: nat, g: Work, to: Place)
    requires Tags(s) && Books(s) && w in s.work && !s.work[w].Releasing? && n.work == s.work[w := g]
    requires g.Releasing? || (g.tag == s.work[w].tag && WorkPlace(g) == to)
    requires g.Releasing? ==> to != AtWorker && to != Passing
    requires n.place == Moved(s.place, s.work[w].tag, to)
    requires n.packetsReceived == s.packetsReceived && n.datagrams == s.datagrams
    requires forall p :: p != AtWorker && p != Passing ==> Tally(n, p) == Tally(s, p) + (if to == p then 1 else 0)
    requires n.processed == s.processed + (if IsPast(to) && !s.work[w].Counted? then 1 else 0)
    requires s.work[w].Counted? ==> IsPast(to)
    ensures Books(n)
  {
    BusyMoved(s.work, w, g, AtWorker);
    BusyMoved(s.work, w, g, Passing);
    MoveBooks(s, n, s.work[w].tag, to);
  }

  lemma DecodeBooks(cfg: Config, s: State, w: nat, now: int)
    requires Tags(s) && Books(s) && w in s.work && s.work[w].Got? && s.work[w].packet in s.packets
    ensures Books(DoDecode(cfg, s, w, now))
  {
    var n := DoDecode(cfg, s, w, now);
    var g := n.work[w];
    if !g.Releasing? {
      assert Moved(s.place, s.work[w].tag, AtWorker) == s.place;
    }
    WorkBooks(s, n, w, g, if g.Releasing? then Failed else AtWorker);
  }

  lemma PassBooks(s: State, w: nat, buckets: map<byte, Bucket>)
    requires Tags(s) && Books(s) && w in s.work && s.work[w].Parsed?
    requires Sum(DropsOf(buckets)) == Sum(DropsOf(s.buckets))
    ensures Books(DoCheck(s, w, buckets, true))
  {
    var n := DoCheck(s, w, buckets, true);
    assert Moved(s.place, s.work[w].tag, AtWorker) == s.place;
    WorkBooks(s, n, w, n.work[w], AtWorker);
  }

  lemma LimitBooks(s: State, w: nat, buckets: map<byte, Bucket>)
    requires Tags(s) && Books(s) && w in s.work && s.work[w].Parsed?
    requires Sum(DropsOf(buckets)) == Sum(DropsOf(s.buckets)) + 1
    ensures Books(DoCheck(s, w, buckets, false))
  {
    var n := DoCheck(s, w, buckets, false);
    WorkBooks(s, n, w, n.work[w], Limited);
  }

  lemma CountBooks(cfg: Config, s: State, t: Step)
    requires Enabled(cfg, s, t) && Tags(s) && Books(s) && t.Count?
    ensures Books(Next(cfg, s, t))
  {
    WorkBooks(s, Next(cfg, s, t), t.worker, Next(cfg, s, t).work[t.worker], Passing);
  }

  lemma OutputBooks(cfg: Config, s: State, w: nat)
    requires Tags(s) && Books(s) && w in s.work && s.work[w].Counted?
    ensures Books(DoOutput(cfg, s, w))
  {
    var n := DoOutput(cfg, s, w);
    WorkBooks(s, n, w, n.work[w], if |s.out| < cfg.outCap then InOutput else OutputDropped);
  }

  lemma TakeBooks(cfg: Config, s: State, t: Step)
    requires Enabled(cfg, s, t) && Tags(s) && Books(s) && (t.HubTake? || t.ProcessorTake?)
    ensures Books(Next(cfg, s, t))
  {
    MoveBooks(s, Next(cfg, s, t), s.out[0].tag, if t.HubTake? then AtHub else AtProcessor);
  }

  lemma ConsumeBooks(cfg: Config, s: State, t: Step)
    requires Enabled(cfg, s, t) && Tags(s) && Books(s) && (t.HubReceive? || t.Process?)
    ensures Books(Next(cfg, s, t))
  {
    if t.HubReceive? {
      MoveBooks(s, Next(cfg, s, t), s.hubHand.value.tag, HubGot);
    } else {
      MoveBooks(s, Next(cfg, s, t), s.processorHand.value.tag, RegistryGot);
    }
  }

  lemma OthersKeepBooks(cfg: Config, s: State, t: Step)
    requires Enabled(cfg, s, t) && Books(s) && !Moves(t)
    ensures Books(Next(cfg, s, t))
  {
    if t.WorkerPut? {
      BusyGone(s.work, t.worker, AtWorker);
      BusyGone(s.work, t.worker, Passing);
    }
    SameBooks(s, Next(cfg, s, t));
  }

  lemma SameBooks(s: State, n: State)
    requires Books(s) && n.receiver.Filled? == s.receiver.Filled? && n.queue == s.queue
    requires Busy(n.work, AtWorker) == Busy(s.work, AtWorker) && Busy(n.work, Passing) == Busy(s.work, Passing)
    requires n.out == s.out && n.hubHand == s.hubHand && n.processorHand == s.processorHand
    requires n.packetsReceived == s.packetsReceived && n.packetsDropped == s.packetsDropped && n.errors == s.errors
    requires n.buckets == s.buckets && n.outputDrops == s.outputDrops && n.processed == s.processed
    requires n.hubItems == s.hubItems && n.registryItems == s.registryItems
    requires n.place == s.place && n.datagrams == s.datagrams
    ensures Books(n)
  {
    forall p
      ensures Tallies(n, p)
    {
      assert Tallies(s, p);
    }
  }

  lemma BooksStep(cfg: Config, s: State, t: Step)
    requires Enabled(cfg, s, t) && Tags(s) && Books(s)
    ensures Books(Next(cfg, s, t))
  {
    match t
    case Read(d) => ReadBooks(s, d);
    case Decode(w, now) => DecodeBooks(cfg, s, w, now);
    case Check(w, call) =>
      DropsChecked(cfg.limits, s.buckets, call);
      if Passes(Load(cfg.limits, s.buckets, call), call.now) {
        PassBooks(s, w, CheckRateLimit(cfg.limits, s.buckets, call));
      } else {
        LimitBooks(s, w, CheckRateLimit(cfg.limits, s.buckets, call));
      }
    case Count(_) => CountBooks(cfg, s, t);
    case Output(w) => OutputBooks(cfg, s, w);
    case Fetch(w) => WorkerStartBooks(s, Next(cfg, s, t), w, Got(s.queue[0].packet, s.queue[0].tag), InQueue);
    case Handoff(w) => WorkerStartBooks(s, Next(cfg, s, t), w, Got(s.receiver.packet, s.receiver.tag), AtReceiver);
    case Enqueue => ReceiverBooks(cfg, s, t);
    case Discard => ReceiverBooks(cfg, s, t);
    case HubTake => TakeBooks(cfg, s, t);
    case ProcessorTake => TakeBooks(cfg, s, t);
    case HubReceive => ConsumeBooks(cfg, s, t);
    case Process => ConsumeBooks(cfg, s, t);
    case _ => OthersKeepBooks(cfg, s, t);
  }
}
