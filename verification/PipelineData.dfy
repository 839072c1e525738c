/** What the bytes and events in the pipeline are, over every run, and what of it consumers can rely on. */
module PipelineData {
  import opened Telemetry
  import opened Frames
  import opened Pipeline
  import opened PipelineLaws

  // ----- buffers -----

  /** The packet holds exactly the datagram with this number. */
  predicate Carries(s: State, packet: nat, tag: nat) {
    && packet in s.packets && tag < |s.datagrams| && tag < |s.into| && s.into[tag] == packet
    && s.packets[packet].last == Some(tag)
    && PacketBytes(s.packets[packet]) == s.datagrams[tag].bytes
    && s.packets[packet].sourceAddr == s.datagrams[tag].sourceAddr
  }

  /** Every buffer has the pool's size and still starts with the last datagram read into it. */
  predicate BufferOK(cfg: Config, s: State, p: Packet) {
    && |p.data| == cfg.bufferSize
    && (p.last.Some? ==> p.last.value < |s.datagrams| && s.datagrams[p.last.value].bytes <= p.data)
  }

  ghost predicate Buffers(cfg: Config, s: State) {
    && |s.into| == |s.datagrams|
    && (forall p :: p in s.packets ==> BufferOK(cfg, s, s.packets[p]))
    && (s.receiver.Filled? ==> Carries(s, s.receiver.packet, s.receiver.tag))
    && (forall i :: 0 <= i < |s.queue| ==> Carries(s, s.queue[i].packet, s.queue[i].tag))
    && (forall w :: w in s.work && !s.work[w].Releasing? ==> Carries(s, s.work[w].packet, s.work[w].tag))
  }

  lemma ReadBuffers(cfg: Config, s: State, d: Datagram)
    requires Buffers(cfg, s) && Ownership(s) && Books(s) && s.receiver.Holding? && s.receiver.packet in s.packets
    ensures Buffers(cfg, DoRead(s, d))
  {
    var n, p := DoRead(s, d), s.receiver.packet;
    assert PacketBytes(n.packets[p]) <= n.packets[p].data;
    forall q | q in s.packets && q != p
      ensures BufferOK(cfg, n, n.packets[q])
    {
      assert BufferOK(cfg, s, s.packets[q]);
    }
  }

  lemma GetBuffers(cfg: Config, s: State, t: Step)
    requires Buffers(cfg, s) && Ownership(s) && Enabled(cfg, s, t) && t.PoolGet?
    ensures Buffers(cfg, Next(cfg, s, t))
  {}

  lemma ReceiverKeepsBuffers(cfg: Config, s: State, t: Step)
    requires Buffers(cfg, s) && Enabled(cfg, s, t)
    requires t.Enqueue? || t.Handoff? || t.Discard? || t.ReadFails? || t.ReceiverPut? || t.PoolCollect?
    ensures Buffers(cfg, Next(cfg, s, t))
  {}

  lemma FetchKeepsBuffers(cfg: Config, s: State, t: Step)
    requires Buffers(cfg, s) && Enabled(cfg, s, t) && t.Fetch?
    ensures Buffers(cfg, Next(cfg, s, t))
  {}

  predicate AtWork(t: Step) {
    t.Decode? || t.Check? || t.Count? || t.Output? || t.WorkerPut?
  }

  /** Worker w, if it has a datagram, had it before. */
  predicate HadIt(was: map<nat, Work>, work: map<nat, Work>, w: nat) {
    w in work && !work[w].Releasing? ==>
      w in was && !was[w].Releasing? && work[w].packet == was[w].packet && work[w].tag == was[w].tag
  }

  ghost predicate HadAll(was: map<nat, Work>, work: map<nat, Work>) {
    forall w {:trigger HadIt(was, work, w)} :: HadIt(was, work, w)
  }

  /** A worker keeps its packet and the datagram in it until it releases it. */
  lemma WorkKeeps(cfg: Config, s: State, t: Step)
    requires Enabled(cfg, s, t) && AtWork(t)
    ensures var n := Next(cfg, s, t);
      && n.packets == s.packets && n.receiver == s.receiver && n.queue == s.queue
      && n.datagrams == s.datagrams && n.into == s.into
      && HadAll(s.work, n.work)
  {}

  lemma ConsumersKeep(cfg: Config, s: State, t: Step)
    requires Enabled(cfg, s, t) && (t.HubTake? || t.HubReceive? || t.ProcessorTake? || t.Process?)
    ensures var n := Next(cfg, s, t);
      && n.packets == s.packets && n.receiver == s.receiver && n.queue == s.queue
      && n.datagrams == s.datagrams && n.into == s.into && n.work == s.work
  {}

  lemma BuffersStep(cfg: Config, s: State, t: Step)
    requires Buffers(cfg, s) && Ownership(s) && Books(s) && Enabled(cfg, s, t)
    ensures Buffers(cfg, Next(cfg, s, t))
  {
    if t.Read? {
      ReadBuffers(cfg, s, t.datagram);
    } else if t.PoolGet? {
      GetBuffers(cfg, s, t);
    } else if t.Fetch? {
      FetchKeepsBuffers(cfg, s, t);
    } else if AtWork(t) {
      WorkKeeps(cfg, s, t);
      SameBuffers(cfg, s, Next(cfg, s, t));
    } else if t.HubTake? || t.HubReceive? || t.ProcessorTake? || t.Process? {
      ConsumersKeep(cfg, s, t);
      assert HadAll(s.work, s.work);
      SameBuffers(cfg, s, Next(cfg, s, t));
    } else {
      ReceiverKeepsBuffers(cfg, s, t);
    }
  }

  lemma SameBuffers(cfg: Config, s: State, n: State)
    requires Buffers(cfg, s)
    requires n.packets == s.packets && n.receiver == s.receiver && n.queue == s.queue
    requires n.datagrams == s.datagrams && n.into == s.into
    requires HadAll(s.work, n.work)
    ensures Buffers(cfg, n)
  {
    forall w | w in n.work && !n.work[w].Releasing?
      ensures Carries(n, n.work[w].packet, n.work[w].tag)
    {
      assert HadIt(s.work, n.work, w);
      assert Carries(s, s.work[w].packet, s.work[w].tag);
    }
  }

  // ----- the whole buffer -----

  /** Of the datagrams read into packet `p` and long enough to reach byte `j`, number `t` is the latest. */
  ghost predicate Latest(s: State, p: nat, j: nat, t: nat) {
    && t < |s.datagrams| == |s.into| && s.into[t] == p && j < |s.datagrams[t].bytes|
    && forall u :: t < u < |s.into| && s.into[u] == p ==> |s.datagrams[u].bytes| <= j
  }

  /** The byte is what the latest datagram that reached it left there. */
  ghost predicate ByteOK(s: State, p: nat, j: nat, t: nat) {
    Latest(s, p, j, t) ==> p in s.packets && j < |s.packets[p].data| && s.packets[p].data[j] == s.datagrams[t].bytes[j]
  }

  ghost predicate Contents(s: State) {
    forall p, j, t {:trigger ByteOK(s, p, j, t)} :: ByteOK(s, p, j, t)
  }

  lemma ReadContents(s: State, d: Datagram)
    requires Contents(s) && |s.into| == |s.datagrams| && s.receiver.Holding? && s.receiver.packet in s.packets
    ensures Contents(DoRead(s, d))
  {
    var n := DoRead(s, d);
    forall p, j, t
      ensures ByteOK(n, p, j, t)
    {
      ReadByte(s, d, n, p, j, t);
    }
  }

  lemma ReadByte(s: State, d: Datagram, n: State, p: nat, j: nat, t: nat)
    requires Contents(s) && |s.into| == |s.datagrams|
    requires s.receiver.Holding? && s.receiver.packet in s.packets && n == DoRead(s, d)
    ensures ByteOK(n, p, j, t)
  {
    if Latest(n, p, j, t) && t < |s.into| {
      assert n.into[t] == s.into[t] && n.datagrams[t] == s.datagrams[t];
      forall u | t < u < |s.into| && s.into[u] == p
        ensures |s.datagrams[u].bytes| <= j
      {
        assert n.into[u] == p && n.datagrams[u] == s.datagrams[u];
      }
      assert ByteOK(s, p, j, t);
      assert p == s.receiver.packet ==> n.into[|s.into|] == p;
    }
  }

  /** No other step writes a buffer; a new one has not been read into. */
  lemma BuffersKept(cfg: Config, s: State, t: Step)
    requires Enabled(cfg, s, t) && !t.Read?
    ensures var n := Next(cfg, s, t);
      && n.datagrams == s.datagrams && n.into == s.into
      && forall p :: p in s.packets ==> p in n.packets && n.packets[p].data == s.packets[p].data
  {}

  lemma ContentsStep(cfg: Config, s: State, t: Step)
    requires Contents(s) && |s.into| == |s.datagrams| && Enabled(cfg, s, t)
    ensures Contents(Next(cfg, s, t))
  {
    if t.Read? {
      ReadContents(s, t.datagram);
    } else {
      var n := Next(cfg, s, t);
      BuffersKept(cfg, s, t);
      forall p, j, k
        ensures ByteOK(n, p, j, k)
      {
        assert Latest(n, p, j, k) ==> Latest(s, p, j, k);
        assert ByteOK(s, p, j, k);
      }
    }
  }

  /** A byte that was ever read into has a latest datagram. */
  lemma LatestExists(s: State, p: nat, j: nat, t: nat) returns (u: nat)
    requires t < |s.datagrams| == |s.into| && s.into[t] == p && j < |s.datagrams[t].bytes|
    ensures Latest(s, p, j, u)
  {
    u := t;
    for v := t + 1 to |s.into|
      invariant u < v && s.into[u] == p && j < |s.datagrams[u].bytes|
      invariant forall i :: u < i < v && s.into[i] == p ==> |s.datagrams[i].bytes| <= j
    {
      if s.into[v] == p && j < |s.datagrams[v].bytes| {
        u := v;
      }
    }
  }

  // ----- events -----

  /** The event is what the decoder makes of the datagram with this number. */
  ghost predicate DecodedFrom(cfg: Config, s: State, tag: nat, e: Event) {
    tag < |s.datagrams| && exists now :: cfg.decode(s.datagrams[tag].bytes, s.datagrams[tag].sourceAddr, now) == Ok(e)
  }

  predicate HasEvent(g: Work) {
    g.Parsed? || g.Admitted? || g.Counted?
  }

  predicate AtWorkItem(s: State, w: nat, item: Item) {
    w in s.work && HasEvent(s.work[w]) && item == Item(s.work[w].packet, s.work[w].tag, s.work[w].event)
  }

  /** Somebody has the event: a worker, the output channel, or one of the two consumers, before or after counting it. */
  ghost predicate Held(s: State, item: Item) {
    || (exists w :: AtWorkItem(s, w, item))
    || item in s.out || s.hubHand == Some(item) || s.processorHand == Some(item)
    || item in s.hubItems || item in s.registryItems
  }

  /** The event was decoded from its datagram, which had been read into its packet. */
  ghost predicate Origin(cfg: Config, s: State, item: Item) {
    && item.tag < |s.into| && s.into[item.tag] == item.packet
    && DecodedFrom(cfg, s, item.tag, item.event)
  }

  ghost predicate Events(cfg: Config, s: State) {
    forall item {:trigger Held(s, item)} :: Held(s, item) ==> Origin(cfg, s, item)
  }

  lemma OriginKept(cfg: Config, s: State, n: State, item: Item)
    requires Origin(cfg, s, item) && s.datagrams <= n.datagrams && s.into <= n.into
    ensures Origin(cfg, n, item)
  {
    assert n.datagrams[item.tag] == s.datagrams[item.tag] && n.into[item.tag] == s.into[item.tag];
  }

  lemma LogGrows(cfg: Config, s: State, t: Step)
    requires Enabled(cfg, s, t)
    ensures s.datagrams <= Next(cfg, s, t).datagrams && s.into <= Next(cfg, s, t).into
  {}

  /** Events come from the decoder and are only passed on. */
  lemma HeldBefore(cfg: Config, s: State, t: Step, item: Item)
    requires Enabled(cfg, s, t) && !t.Decode? && Held(Next(cfg, s, t), item)
    ensures Held(s, item)
  {
    var n := Next(cfg, s, t);
    if AtWork(t) || t.Fetch? || t.Handoff? {
      WorkHeldBefore(cfg, s, t, n, item);
    } else {
      assert forall w :: AtWorkItem(n, w, item) ==> AtWorkItem(s, w, item);
    }
  }

  lemma WorkHeldBefore(cfg: Config, s: State, t: Step, n: State, item: Item)
    requires Enabled(cfg, s, t) && (t.Check? || t.Count? || t.Output? || t.WorkerPut? || t.Fetch? || t.Handoff?)
    requires n == Next(cfg, s, t) && Held(n, item)
    ensures Held(s, item)
  {
    OthersHands(cfg, s, t, n);
    if w :| AtWorkItem(n, w, item) {
      ItemWasThere(cfg, s, t, n, w, item);
    } else if t.Output? && item in n.out && item !in s.out {
      assert AtWorkItem(s, t.worker, item);
    }
  }

  lemma OthersHands(cfg: Config, s: State, t: Step, n: State)
    requires Enabled(cfg, s, t) && (t.Check? || t.Count? || t.Output? || t.WorkerPut? || t.Fetch? || t.Handoff?)
    requires n == Next(cfg, s, t)
    ensures n.hubHand == s.hubHand && n.processorHand == s.processorHand
    ensures n.hubItems == s.hubItems && n.registryItems == s.registryItems
    ensures n.out == s.out
      || (t.Output? && var g := s.work[t.worker]; n.out == s.out + [Item(g.packet, g.tag, g.event)])
  {}

  lemma ItemWasThere(cfg: Config, s: State, t: Step, n: State, w: nat, item: Item)
    requires Enabled(cfg, s, t) && (t.Check? || t.Count? || t.Output? || t.WorkerPut? || t.Fetch? || t.Handoff?)
    requires n == Next(cfg, s, t) && AtWorkItem(n, w, item)
    ensures AtWorkItem(s, w, item)
  {}

  lemma DecodedHeld(cfg: Config, s: State, w: nat, now: int, item: Item)
    requires w in s.work && s.work[w].Got? && s.work[w].packet in s.packets && Carries(s, s.work[w].packet, s.work[w].tag)
    requires Held(DoDecode(cfg, s, w, now), item)
    ensures Held(s, item) || Origin(cfg, DoDecode(cfg, s, w, now), item)
  {
    var n, g := DoDecode(cfg, s, w, now), s.work[w];
    if v :| AtWorkItem(n, v, item) {
      if v == w {
        assert cfg.decode(s.datagrams[g.tag].bytes, s.datagrams[g.tag].sourceAddr, now) == Ok(item.event);
      } else {
        assert AtWorkItem(s, v, item);
      }
    }
  }

  lemma EventsStep(cfg: Config, s: State, t: Step)
    requires Buffers(cfg, s) && Events(cfg, s) && Enabled(cfg, s, t)
    ensures Events(cfg, Next(cfg, s, t))
  {
    var n := Next(cfg, s, t);
    LogGrows(cfg, s, t);
    forall item | Held(n, item)
      ensures Origin(cfg, n, item)
    {
      if t.Decode? {
        DecodedHeld(cfg, s, t.worker, t.now, item);
      } else {
        HeldBefore(cfg, s, t, item);
      }
      if Held(s, item) {
        OriginKept(cfg, s, n, item);
      }
    }
  }
}
