/** The rate limit as it holds in every run of the pipeline, whatever the interleaving of workers. */
module PipelineRate {
  import opened Bytes
  import opened RateLimit
  import opened Pipeline

  /** The limiter calls a run made, in order. */
  function CallsOf(steps: seq<Step>): seq<Call> {
    if steps == [] then []
    else
      var n := |steps| - 1;
      CallsOf(steps[..n]) + (if steps[n].Check? then [steps[n].call] else [])
  }

  lemma BucketsKept(cfg: Config, s: State, t: Step)
    requires Enabled(cfg, s, t) && !t.Check?
    ensures Next(cfg, s, t).buckets == s.buckets
  {}

  lemma BucketsChecked(cfg: Config, s: State, t: Step)
    requires Enabled(cfg, s, t) && t.Check?
    ensures Next(cfg, s, t).buckets == CheckRateLimit(cfg.limits, s.buckets, t.call)
  {}

  lemma CallsNext(steps: seq<Step>)
    requires steps != []
    ensures var n := |steps| - 1;
      CallsOf(steps) == if steps[n].Check? then CallsOf(steps[..n]) + [steps[n].call] else CallsOf(steps[..n])
  {}

  /** The buckets of a run are those its limiter calls make. */
  lemma {:induction false} BucketsAreCalls(cfg: Config, steps: seq<Step>)
    requires Feasible(cfg, steps)
    ensures Run(cfg, steps).buckets == RunCalls(cfg.limits, CallsOf(steps))
  {
    if steps == [] {
    } else {
      var n := |steps| - 1;
      var calls := CallsOf(steps[..n]);
      BucketsAreCalls(cfg, steps[..n]);
      CallsNext(steps);
      if steps[n].Check? {
        BucketsChecked(cfg, Run(cfg, steps[..n]), steps[n]);
        assert (calls + [steps[n].call])[..|calls|] == calls;
      } else {
        BucketsKept(cfg, Run(cfg, steps[..n]), steps[n]);
      }
    }
  }

  /** The run ends with a worker's check that lets an event of this system ID pass. */
  ghost predicate EndsPassed(cfg: Config, steps: seq<Step>, id: byte) {
    && Feasible(cfg, steps) && steps != []
    && var t := steps[|steps| - 1];
    && t.Check? && Run(cfg, steps).work[t.worker].Admitted? && Run(cfg, steps).work[t.worker].event.id.systemID == id
  }

  /** How many messages of the ID passed the limit in the steps from number `lo` on. */
  ghost function Passed(cfg: Config, steps: seq<Step>, id: byte, lo: nat): nat
    requires Feasible(cfg, steps)
  {
    if |steps| <= lo then 0
    else Passed(cfg, steps[..|steps| - 1], id, lo) + (if EndsPassed(cfg, steps, id) then 1 else 0)
  }

  // ----- the same from the calls alone -----

  predicate LastPasses(cfg: Limits, steps: seq<Step>, id: byte)
    requires steps != []
  {
    var n := |steps| - 1;
    steps[n].Check? && steps[n].call.id == id
    && Passes(Load(cfg, RunCalls(cfg, CallsOf(steps[..n])), steps[n].call), steps[n].call.now)
  }

  function Count(cfg: Limits, steps: seq<Step>, id: byte, lo: nat): nat {
    if |steps| <= lo then 0
    else Count(cfg, steps[..|steps| - 1], id, lo) + (if LastPasses(cfg, steps, id) then 1 else 0)
  }

  lemma EndsIff(cfg: Config, steps: seq<Step>, id: byte)
    requires Feasible(cfg, steps) && steps != []
    ensures EndsPassed(cfg, steps, id) <==> LastPasses(cfg.limits, steps, id)
  {
    BucketsAreCalls(cfg, steps[..|steps| - 1]);
  }

  lemma {:induction false} SameCount(cfg: Config, steps: seq<Step>, id: byte, lo: nat)
    requires Feasible(cfg, steps)
    ensures Passed(cfg, steps, id, lo) == Count(cfg.limits, steps, id, lo)
  {
    if |steps| <= lo {
    } else {
      SameCount(cfg, steps[..|steps| - 1], id, lo);
      EndsIff(cfg, steps, id);
    }
  }

  // ----- the ID's own bucket -----

  /** The bucket made at an ID's first call. */
  function First(cfg: Limits, own: seq<Call>): Bucket {
    NewBucket(cfg.perSecond, cfg.burst, if own == [] then 0 else own[0].created)
  }

  lemma OwnNext(cfg: Limits, steps: seq<Step>, id: byte)
    requires steps != []
    ensures var n, own := |steps| - 1, Own(CallsOf(steps), id);
      if steps[n].Check? && steps[n].call.id == id then
        && own == Own(CallsOf(steps[..n]), id) + [steps[n].call]
        && (LastPasses(cfg, steps, id) <==> Admits(First(cfg, own), Times(own), |own| - 1))
      else own == Own(CallsOf(steps[..n]), id)
  {
    var n := |steps| - 1;
    var calls := CallsOf(steps[..n]);
    CallsNext(steps);
    if steps[n].Check? {
      assert (calls + [steps[n].call])[..|calls|] == calls;
      DecisionIsOwn(cfg, calls, steps[n].call);
    }
  }

  /** A check passes exactly when the ID's own bucket, on the ID's own calls, admits the last of them. */
  lemma CheckPasses(cfg: Config, steps: seq<Step>, id: byte)
    requires Feasible(cfg, steps) && steps != [] && steps[|steps| - 1].Check? && steps[|steps| - 1].call.id == id
    ensures var own := Own(CallsOf(steps), id);
      && own == Own(CallsOf(steps[..|steps| - 1]), id) + [steps[|steps| - 1].call]
      && (EndsPassed(cfg, steps, id) <==> Admits(First(cfg.limits, own), Times(own), |own| - 1))
  {
    EndsIff(cfg, steps, id);
    OwnNext(cfg.limits, steps, id);
  }

  /** The messages that pass are those the ID's own bucket admits. */
  lemma {:induction false} CountIsAdmitted(cfg: Limits, steps: seq<Step>, id: byte, lo: nat)
    requires lo <= |steps|
    ensures var before, own := Own(CallsOf(steps[..lo]), id), Own(CallsOf(steps), id);
      && before <= own
      && Count(cfg, steps, id, lo) == RateLimit.Admitted(First(cfg, own), Times(own), |before|, |own|)
  {
    if |steps| == lo {
      assert steps[..lo] == steps;
    } else {
      var n := |steps| - 1;
      assert steps[..n][..lo] == steps[..lo];
      CountIsAdmitted(cfg, steps[..n], id, lo);
      OwnNext(cfg, steps, id);
      if steps[n].Check? && steps[n].call.id == id {
        AdmittedNext(cfg, Own(CallsOf(steps[..n]), id), steps[n].call, |Own(CallsOf(steps[..lo]), id)|);
      }
    }
  }

  lemma AdmittedNext(cfg: Limits, own: seq<Call>, c: Call, i: nat)
    requires i <= |own|
    ensures var more := own + [c];
      RateLimit.Admitted(First(cfg, more), Times(more), i, |more|)
      == RateLimit.Admitted(First(cfg, own), Times(own), i, |own|)
         + (if Admits(First(cfg, more), Times(more), |own|) then 1 else 0)
  {
    var more := own + [c];
    assert Times(more)[..|own|] == Times(own);
    AdmittedOfPrefix(First(cfg, more), Times(more), |own|, i, |own|);
  }

  lemma AdmitsLonger(cfg: Limits, x: seq<Call>, y: seq<Call>, i: nat)
    requires i < |x| && x <= y
    ensures Admits(First(cfg, x), Times(x), i) == Admits(First(cfg, y), Times(y), i)
  {
    assert Times(x)[..i] == Times(y)[..i];
  }

  // ----- the bound -----

  /** Capacity plus rate times the time, in units of 1e-9 token. */
  function Allowance(cfg: Limits, elapsed: int): int {
    (cfg.perSecond + cfg.burst) * TOKEN + cfg.perSecond * elapsed
  }

  lemma OwnBound(cfg: Limits, own: seq<Call>, i: nat)
    requires i < |own| && Admits(First(cfg, own), Times(own), i) && Admits(First(cfg, own), Times(own), |own| - 1)
    ensures TOKEN * RateLimit.Admitted(First(cfg, own), Times(own), i, |own|) <= Allowance(cfg, own[|own| - 1].now - own[i].now)
  {
    RateBound(First(cfg, own), Times(own), i, |own| - 1);
  }

  lemma CountBound(cfg: Limits, steps: seq<Step>, id: byte, lo: nat)
    requires lo < |steps| && LastPasses(cfg, steps[..lo + 1], id) && LastPasses(cfg, steps, id)
    ensures TOKEN * Count(cfg, steps, id, lo) <= Allowance(cfg, steps[|steps| - 1].call.now - steps[lo].call.now)
  {
    var first := steps[..lo + 1];
    assert first[..lo] == steps[..lo];
    var before, own := Own(CallsOf(steps[..lo]), id), Own(CallsOf(steps), id);
    OwnNext(cfg, first, id);
    OwnNext(cfg, steps, id);
    CountIsAdmitted(cfg, steps, id, lo);
    CountIsAdmitted(cfg, steps, id, lo + 1);
    AdmitsLonger(cfg, before + [steps[lo].call], own, |before|);
    OwnBound(cfg, own, |before|);
  }

  /**
    In every run, from one message of a system ID that passes the limit to another, at most capacity plus rate times the time
    between them pass, whoever checks them and in whatever order the workers read the clock.
   */
  lemma RateHolds(cfg: Config, steps: seq<Step>, id: byte, lo: nat)
    requires lo < |steps| && EndsPassed(cfg, steps[..lo + 1], id) && EndsPassed(cfg, steps, id)
    ensures TOKEN * Passed(cfg, steps, id, lo) <= Allowance(cfg.limits, steps[|steps| - 1].call.now - steps[lo].call.now)
  {
    EndsIff(cfg, steps[..lo + 1], id);
    EndsIff(cfg, steps, id);
    SameCount(cfg, steps, id, lo);
    CountBound(cfg.limits, steps, id, lo);
  }
}
