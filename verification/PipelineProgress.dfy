/** No datagram is stuck: the work left in the pipeline can always go on, and comes to an end. */
module PipelineProgress {
  import opened Bytes
  import opened Collections
  import opened EndToEnd
  import opened Pipeline
  import opened PipelineFates
  import opened PipelineLaws
  import opened RateLimit

  /** The steps of workers and consumers, and the receiver's on a datagram it has read. */
  predicate IsWork(t: Step) {
    || t.Enqueue? || t.Handoff? || t.Discard? || t.Fetch? || t.Decode? || t.Check? || t.Count? || t.Output? || t.WorkerPut?
    || t.HubTake? || t.HubReceive? || t.ProcessorTake? || t.Process?
  }

  /** How many steps a worker may still cause. */
  function Weight(g: Work): nat {
    match g
    case Got(_, _) => 7
    case Parsed(_, _, _) => 6
    case Admitted(_, _, _) => 5
    case Counted(_, _, _) => 4
    case Releasing(_) => 1
  }

  function Weights(work: map<nat, Work>): map<nat, nat> {
    map w | w in work :: Weight(work[w])
  }

  /** A bound on the work the datagrams in the pipeline may still cause. */
  ghost function Load(s: State): nat {
    (if s.receiver.Filled? then 9 else 0) + 8 * |s.queue| + Sum(Weights(s.work)) + 2 * |s.out|
    + (if s.hubHand.Some? then 1 else 0) + (if s.processorHand.Some? then 1 else 0)
  }

  lemma WeightSet(work: map<nat, Work>, w: nat, g: Work)
    ensures Sum(Weights(work[w := g])) == Sum(Weights(work)) + Weight(g) - (if w in work then Weight(work[w]) else 0)
  {
    assert Weights(work[w := g]) == Weights(work)[w := Weight(g)];
    SumUpdate(Weights(work), w, Weight(g));
  }

  lemma WeightGone(work: map<nat, Work>, w: nat)
    requires w in work
    ensures Sum(Weights(work - {w})) == Sum(Weights(work)) - Weight(work[w])
  {
    assert Weights(work - {w}) == Weights(work) - {w};
    SumRemove(Weights(work), w);
  }

  /** The worker of a step, what it does next, and what else changes. */
  lemma WorkerStep(cfg: Config, s: State, t: Step)
    requires Enabled(cfg, s, t) && (t.Decode? || t.Check? || t.Count?)
    ensures var n := Next(cfg, s, t);
      && t.worker in n.work && n.work == s.work[t.worker := n.work[t.worker]] && Weight(n.work[t.worker]) < Weight(s.work[t.worker])
      && n.receiver == s.receiver && n.queue == s.queue && n.out == s.out
      && n.hubHand == s.hubHand && n.processorHand == s.processorHand
  {}

  lemma WorkerLightens(cfg: Config, s: State, t: Step)
    requires Enabled(cfg, s, t) && (t.Decode? || t.Check? || t.Count?)
    ensures Load(Next(cfg, s, t)) < Load(s)
  {
    WorkerStep(cfg, s, t);
    WeightSet(s.work, t.worker, Next(cfg, s, t).work[t.worker]);
  }

  lemma OutputLightens(cfg: Config, s: State, t: Step)
    requires Enabled(cfg, s, t) && t.Output?
    ensures Load(Next(cfg, s, t)) < Load(s)
  {
    WeightSet(s.work, t.worker, Releasing(s.work[t.worker].packet));
  }

  lemma PutLightens(cfg: Config, s: State, t: Step)
    requires Enabled(cfg, s, t) && t.WorkerPut?
    ensures Load(Next(cfg, s, t)) < Load(s)
  {
    WeightGone(s.work, t.worker);
  }

  lemma StartLightens(cfg: Config, s: State, t: Step)
    requires Enabled(cfg, s, t) && (t.Handoff? || t.Fetch?)
    ensures Load(Next(cfg, s, t)) < Load(s)
  {
    var packet := if t.Handoff? then s.receiver.packet else s.queue[0].packet;
    var tag := if t.Handoff? then s.receiver.tag else s.queue[0].tag;
    WeightSet(s.work, t.worker, Got(packet, tag));
  }

  lemma OtherLightens(cfg: Config, s: State, t: Step)
    requires Enabled(cfg, s, t)
    requires t.Enqueue? || t.Discard? || t.HubTake? || t.HubReceive? || t.ProcessorTake? || t.Process?
    ensures Load(Next(cfg, s, t)) < Load(s)
  {}

  /** Work uses up the load. */
  lemma WorkLightens(cfg: Config, s: State, t: Step)
    requires Enabled(cfg, s, t) && IsWork(t)
    ensures Load(Next(cfg, s, t)) < Load(s)
  {
    if t.Decode? || t.Check? || t.Count? {
      WorkerLightens(cfg, s, t);
    } else if t.Output? {
      OutputLightens(cfg, s, t);
    } else if t.WorkerPut? {
      PutLightens(cfg, s, t);
    } else if t.Handoff? || t.Fetch? {
      StartLightens(cfg, s, t);
    } else {
      OtherLightens(cfg, s, t);
    }
  }

  /** Only a read adds load, and nothing else of the receiver and the pool does. */
  lemma OthersLoad(cfg: Config, s: State, t: Step)
    requires Enabled(cfg, s, t) && !IsWork(t)
    ensures Load(Next(cfg, s, t)) == Load(s) + if t.Read? then 9 else 0
  {}

  function WorkCount(steps: seq<Step>): nat {
    if steps == [] then 0 else WorkCount(steps[..|steps| - 1]) + if IsWork(steps[|steps| - 1]) then 1 else 0
  }

  function ReadCount(steps: seq<Step>): nat {
    if steps == [] then 0 else ReadCount(steps[..|steps| - 1]) + if steps[|steps| - 1].Read? then 1 else 0
  }

  /** Every datagram causes at most nine steps of work, whatever it holds and whoever does them. */
  lemma {:induction false} WorkIsBounded(cfg: Config, steps: seq<Step>)
    requires Feasible(cfg, steps)
    ensures WorkCount(steps) + Load(Run(cfg, steps)) <= 9 * ReadCount(steps)
  {
    if steps == [] {
      EmptyLoad(START);
    } else {
      var n := |steps| - 1;
      var s, t := Run(cfg, steps[..n]), steps[n];
      WorkIsBounded(cfg, steps[..n]);
      if IsWork(t) {
        WorkLightens(cfg, s, t);
      } else {
        OthersLoad(cfg, s, t);
      }
    }
  }

  lemma EmptyLoad(s: State)
    requires s.receiver.Waiting? && s.queue == [] && s.work == map[] && s.out == [] && s.hubHand.None? && s.processorHand.None?
    ensures Load(s) == 0
  {
    assert Weights(s.work) == map[];
  }

  // ----- somebody can always go on -----

  /** A worker that holds a packet can do its next step. */
  lemma WorkerCan(cfg: Config, s: State, w: nat) returns (t: Step)
    requires Ownership(s) && w in s.work
    ensures IsWork(t) && Enabled(cfg, s, t)
  {
    match s.work[w]
    case Got(_, _) => t := Decode(w, 0);
    case Parsed(_, _, e) => t := Check(w, Call(e.id.systemID, 0, 0));
    case Admitted(_, _, _) => t := Pipeline.Count(w);
    case Counted(_, _, _) => t := Output(w);
    case Releasing(_) => t := WorkerPut(w);
  }

  lemma LoadHeld(s: State)
    requires Load(s) > 0
    ensures s.receiver.Filled? || s.queue != [] || s.work != map[] || s.out != [] || s.hubHand.Some? || s.processorHand.Some?
  {
    if s.work == map[] {
      assert Weights(s.work) == map[];
    }
  }

  /** With at least one worker, as long as there is work left somebody can do a step of it. */
  lemma SomebodyCan(cfg: Config, s: State) returns (t: Step)
    requires Ownership(s) && Load(s) > 0 && cfg.workers > 0
    ensures IsWork(t) && Enabled(cfg, s, t)
  {
    LoadHeld(s);
    if s.hubHand.Some? {
      t := HubReceive;
    } else if s.processorHand.Some? {
      t := Process;
    } else if s.out != [] {
      t := HubTake;
    } else if s.work != map[] {
      var w :| w in s.work;
      t := WorkerCan(cfg, s, w);
    } else if s.queue != [] {
      t := Fetch(0);
    } else if Whitelisted(cfg, s) && |s.queue| < cfg.queueCap {
      t := Enqueue;
    } else {
      t := Discard;
    }
  }

  predicate Settled(p: Place) {
    p.Refused? || p.Failed? || p.Limited? || p.OutputDropped? || p.HubGot? || p.RegistryGot?
  }

  lemma {:induction false} NoneThere(place: seq<Place>, p: Place, tag: nat)
    requires CountAt(place, p) == 0 && tag < |place|
    ensures place[tag] != p
  {
    if tag == |place| - 1 {
    } else {
      NoneThere(place[..|place| - 1], p, tag);
    }
  }

  lemma WorkerWeighs(work: map<nat, Work>, w: nat)
    requires w in work
    ensures Sum(Weights(work)) > 0
  {
    SumRemove(Weights(work), w);
  }

  /** With no work left every datagram has reached an end. */
  lemma NoLoadSettled(s: State, tag: nat)
    requires Books(s) && Load(s) == 0 && tag < |s.place|
    ensures Settled(s.place[tag])
  {
    if w :| w in s.work {
      WorkerWeighs(s.work, w);
    }
    assert Busy(s.work, AtWorker) == {} && Busy(s.work, Passing) == {};
    var p := s.place[tag];
    assert Tallies(s, p);
    if CountAt(s.place, p) == 0 {
      NoneThere(s.place, p, tag);
    }
  }

  lemma WorkKeepsPlaces(cfg: Config, s: State, t: Step)
    requires Enabled(cfg, s, t) && IsWork(t)
    ensures |Next(cfg, s, t).place| == |s.place|
  {}

  ghost predicate AllSettled(s: State) {
    forall tag :: 0 <= tag < |s.place| ==> Settled(s.place[tag])
  }

  lemma NothingLeft(cfg: Config, steps: seq<Step>)
    requires Feasible(cfg, steps) && Load(Run(cfg, steps)) == 0
    ensures AllSettled(Run(cfg, steps))
  {
    var s := Run(cfg, steps);
    RunSound(cfg, steps);
    forall tag | 0 <= tag < |s.place|
      ensures Settled(s.place[tag])
    {
      NoLoadSettled(s, tag);
    }
  }

  lemma OneMore(cfg: Config, steps: seq<Step>) returns (t: Step)
    requires Feasible(cfg, steps) && cfg.workers > 0 && Load(Run(cfg, steps)) > 0
    ensures IsWork(t) && Feasible(cfg, steps + [t]) && Load(Run(cfg, steps + [t])) < Load(Run(cfg, steps))
    ensures |Run(cfg, steps + [t]).place| == |Run(cfg, steps).place|
  {
    var s := Run(cfg, steps);
    RunSound(cfg, steps);
    t := SomebodyCan(cfg, s);
    FeasibleNext(cfg, steps, t);
    RunNext(cfg, steps, t);
    WorkLightens(cfg, s, t);
    WorkKeepsPlaces(cfg, s, t);
  }

  /** The longer run only goes on with work. */
  ghost predicate GoesOn(steps: seq<Step>, longer: seq<Step>) {
    steps <= longer && forall i :: |steps| <= i < |longer| ==> IsWork(longer[i])
  }

  /**
    From every reachable state, with at least one worker, finitely many steps of the workers and consumers, and of the
    receiver on what it has read, bring every datagram to an end: refused, failed, limited, dropped or given to a consumer.
   */
  lemma Drains(cfg: Config, steps: seq<Step>) returns (longer: seq<Step>)
    requires Feasible(cfg, steps) && cfg.workers > 0
    ensures Feasible(cfg, longer) && GoesOn(steps, longer) && |longer| - |steps| <= Load(Run(cfg, steps))
    ensures |Run(cfg, longer).place| == |Run(cfg, steps).place| && AllSettled(Run(cfg, longer))
  {
    longer := steps;
    var load := Load(Run(cfg, steps));
    while load > 0
      invariant Feasible(cfg, longer) && load == Load(Run(cfg, longer)) && GoesOn(steps, longer)
      invariant |longer| - |steps| + load <= Load(Run(cfg, steps))
      invariant |Run(cfg, longer).place| == |Run(cfg, steps).place|
      decreases load
    {
      var t := OneMore(cfg, longer);
      longer := longer + [t];
      load := Load(Run(cfg, longer));
    }
    NothingLeft(cfg, longer);
  }
}
