/**
  The per-drone token bucket of internal/ingest/udp.go (newTokenBucket, checkRateLimit).

  Tokens are counted exactly, in units of 1e-9 token: a refill adds elapsed nanoseconds
  times perSecond, a message costs TOKEN units. Timestamps may arrive in any order, as they
  are read before the bucket's lock is taken.
 */
module RateLimit {
  import opened Bytes

  const TOKEN: int := 1_000_000_000

  datatype Bucket = Bucket(tokens: int, max: int, rate: int, lastTime: int, drops: nat)

  function NewBucket(perSecond: int, burst: int, now: int): Bucket {
    Bucket((perSecond + burst) * TOKEN, (perSecond + burst) * TOKEN, perSecond, now, 0)
  }

  /** The tokens a call at `now` finds: refilled, then capped. */
  function Level(b: Bucket, now: int): int {
    var refilled := b.tokens + b.rate * (now - b.lastTime);
    if refilled > b.max then b.max else refilled
  }

  predicate Passes(b: Bucket, now: int) {
    Level(b, now) >= TOKEN
  }

  function Check(b: Bucket, now: int): Bucket {
    if Passes(b, now) then b.(tokens := Level(b, now) - TOKEN, lastTime := now)
    else b.(tokens := Level(b, now), lastTime := now, drops := b.drops + 1)
  }

  class TokenBucket {
    var tokens: int
    const max: int
    const rate: int
    var lastTime: int
    var drops: nat

    function Value(): Bucket
      reads this
    {
      Bucket(tokens, max, rate, lastTime, drops)
    }

    constructor (perSecond: int, burst: int, now: int)
      ensures Value() == NewBucket(perSecond, burst, now)
    {
      tokens := (perSecond + burst) * TOKEN;
      max := (perSecond + burst) * TOKEN;
      rate := perSecond;
      lastTime := now;
      drops := 0;
    }

    method Take(now: int) returns (ok: bool)
      modifies this
      ensures ok == old(Passes(Value(), now))
      ensures Value() == old(Check(Value(), now))
    {
      var elapsed := now - lastTime;
      lastTime := now;
      tokens := tokens + elapsed * rate;
      if tokens > max {
        tokens := max;
      }
      if tokens < TOKEN {
        drops := drops + 1;
        return false;
      }
      tokens := tokens - TOKEN;
      return true;
    }
  }

  // ----- runs of one bucket -----

  /** The bucket after calls at the given times. */
  function After(b: Bucket, ts: seq<int>): Bucket {
    if ts == [] then b else Check(After(b, ts[..|ts| - 1]), ts[|ts| - 1])
  }

  /** Whether call `k` is admitted. */
  predicate Admits(b: Bucket, ts: seq<int>, k: nat)
    requires k < |ts|
  {
    Passes(After(b, ts[..k]), ts[k])
  }

  /** The number of calls admitted among i, ..., j-1. */
  function Admitted(b: Bucket, ts: seq<int>, i: nat, j: nat): nat
    requires i <= j <= |ts|
    decreases j
  {
    if i == j then 0 else Admitted(b, ts, i, j - 1) + (if Admits(b, ts, j - 1) then 1 else 0)
  }

  lemma AfterStep(b: Bucket, ts: seq<int>, k: nat)
    requires k < |ts|
    ensures After(b, ts[..k + 1]) == Check(After(b, ts[..k]), ts[k])
  {
    assert ts[..k + 1][..k] == ts[..k];
  }

  lemma {:induction false} Unchanged(b: Bucket, ts: seq<int>)
    ensures After(b, ts).rate == b.rate && After(b, ts).max == b.max
    ensures ts != [] ==> After(b, ts).lastTime == ts[|ts| - 1]
  {
    if ts == [] {
    } else {
      Unchanged(b, ts[..|ts| - 1]);
    }
  }

  /** What the window starting at call i leaves for call j. */
  function Window(b: Bucket, ts: seq<int>, i: nat, j: nat): int
    requires i <= j < |ts|
  {
    Left(b, ts[i], ts[j], Admitted(b, ts, i, j))
  }

  function Left(p: Bucket, start: int, now: int, admitted: int): int {
    p.max + p.rate * (now - start) - TOKEN * admitted
  }

  /** One call at t1 carries a window's bound, and its exactness unless the cap bites, on to t2. */
  lemma WindowStep(p: Bucket, start: int, t1: int, t2: int, a: nat)
    requires Level(p, t1) <= Left(p, start, t1, a)
    ensures var a' := if Passes(p, t1) then a + 1 else a;
      && Level(Check(p, t1), t2) <= Left(p, start, t2, a')
      && (Level(p, t1) == Left(p, start, t1, a) && Level(Check(p, t1), t2) < p.max
          ==> Level(Check(p, t1), t2) == Left(p, start, t2, a'))
  {
    Distribute(p.rate, t1 - start, t2 - t1);
  }

  lemma Distribute(r: int, x: int, y: int)
    ensures r * (x + y) == r * x + r * y
  {}

  /** The level call j finds is at most what any window leaves: refills telescope and capping only lowers. */
  lemma {:induction false} LevelBelowWindow(b: Bucket, ts: seq<int>, i: nat, j: nat)
    requires i <= j < |ts|
    ensures Level(After(b, ts[..j]), ts[j]) <= Window(b, ts, i, j)
    decreases j
  {
    Unchanged(b, ts[..j]);
    if j <= i {
    } else {
      LevelBelowWindow(b, ts, i, j - 1);
      AfterStep(b, ts, j - 1);
      Unchanged(b, ts[..j - 1]);
      WindowStep(After(b, ts[..j - 1]), ts[i], ts[j - 1], ts[j], Admitted(b, ts, i, j - 1));
    }
  }

  /**
    Rate bound, whatever order the timestamps come in and whatever state the bucket was in:
    between two admitted calls at most max + rate * (t_j - t_i) tokens' worth is admitted.
   */
  lemma RateBound(b: Bucket, ts: seq<int>, i: nat, j: nat)
    requires i <= j < |ts| && Admits(b, ts, i) && Admits(b, ts, j)
    ensures TOKEN * Admitted(b, ts, i, j + 1) <= b.max + b.rate * (ts[j] - ts[i])
  {
    LevelBelowWindow(b, ts, i, j);
  }

  /** A bucket just made, whose first call is not before its creation. */
  ghost predicate Fresh(b: Bucket, ts: seq<int>) {
    && b.tokens == b.max && 0 <= b.rate
    && (ts != [] ==> b.lastTime <= ts[0])
  }

  /** From a fresh bucket the level is exactly the tightest window: its closed form. */
  lemma {:induction false} LevelIsSomeWindow(b: Bucket, ts: seq<int>, j: nat) returns (i: nat)
    requires Fresh(b, ts) && j < |ts|
    ensures i <= j && Level(After(b, ts[..j]), ts[j]) == Window(b, ts, i, j)
    decreases j
  {
    Unchanged(b, ts[..j]);
    if j == 0 {
      i := 0;
      NotNegative(b.rate, ts[0] - b.lastTime);
    } else {
      i := LevelIsSomeWindow(b, ts, j - 1);
      AfterStep(b, ts, j - 1);
      Unchanged(b, ts[..j - 1]);
      WindowStep(After(b, ts[..j - 1]), ts[i], ts[j - 1], ts[j], Admitted(b, ts, i, j - 1));
      if Level(After(b, ts[..j]), ts[j]) == b.max {
        i := j;
      }
    }
  }

  lemma NotNegative(x: int, y: int)
    requires 0 <= x && 0 <= y
    ensures 0 <= y * x
  {}

  /** Call j and what was admitted from call i on fit within max and what was refilled since. */
  ghost predicate FitsWindow(b: Bucket, ts: seq<int>, i: nat, j: nat)
    requires i <= j < |ts|
  {
    TOKEN * (Admitted(b, ts, i, j) + 1) <= b.max + b.rate * (ts[j] - ts[i])
  }

  /** Every decision, exactly: call j passes if and only if it and what was admitted since any earlier call fit that window. */
  lemma AdmitsIff(b: Bucket, ts: seq<int>, j: nat)
    requires Fresh(b, ts) && j < |ts|
    ensures Admits(b, ts, j) <==>
      forall i :: 0 <= i <= j ==> FitsWindow(b, ts, i, j)
  {
    if Admits(b, ts, j) {
      forall i | 0 <= i <= j
        ensures FitsWindow(b, ts, i, j)
      {
        LevelBelowWindow(b, ts, i, j);
      }
    }
    var i := LevelIsSomeWindow(b, ts, j);
    assert FitsWindow(b, ts, i, j) <==> Window(b, ts, i, j) >= TOKEN;
  }

  ghost predicate WindowFits(perSecond: int, burst: int, ts: seq<int>, i: nat, j: nat)
    requires i <= j < |ts|
  {
    (j - i + 1) * TOKEN <= (perSecond + burst) * TOKEN + perSecond * (ts[j] - ts[i])
  }

  /** A stream is admitted without a drop if and only if every window of it fits rate and burst. */
  lemma NoDropIff(perSecond: int, burst: int, created: int, ts: seq<int>)
    requires 0 <= perSecond && (ts != [] ==> created <= ts[0])
    ensures After(NewBucket(perSecond, burst, created), ts).drops == 0
      <==> forall i, j :: 0 <= i <= j < |ts| ==> WindowFits(perSecond, burst, ts, i, j)
  {
    var b := NewBucket(perSecond, burst, created);
    DropsAreRefusals(b, ts);
    AllAdmitted(b, ts, 0, |ts|);
    if Admitted(b, ts, 0, |ts|) == |ts| {
      forall i, j | 0 <= i <= j < |ts|
        ensures WindowFits(perSecond, burst, ts, i, j)
      {
        AdmittedFits(perSecond, burst, b, ts, i, j);
      }
    }
    if forall i, j :: 0 <= i <= j < |ts| ==> WindowFits(perSecond, burst, ts, i, j) {
      FitsAdmitsAll(b, perSecond, burst, created, ts, |ts|);
    }
  }

  lemma AdmittedFits(perSecond: int, burst: int, b: Bucket, ts: seq<int>, i: nat, j: nat)
    requires i <= j < |ts| && b.rate == perSecond && b.max == (perSecond + burst) * TOKEN
    requires forall k :: 0 <= k < |ts| ==> Admits(b, ts, k)
    ensures WindowFits(perSecond, burst, ts, i, j)
  {
    CountAll(b, ts, i, j);
    LevelBelowWindow(b, ts, i, j);
    assert Admits(b, ts, j);
  }

  lemma {:induction false} DropsAreRefusals(b: Bucket, ts: seq<int>)
    ensures After(b, ts).drops == b.drops + |ts| - Admitted(b, ts, 0, |ts|)
  {
    if ts == [] {
    } else {
      var k := |ts| - 1;
      DropsAreRefusals(b, ts[..k]);
      AdmittedOfPrefix(b, ts, k, 0, k);
      assert ts[..|ts|] == ts;
      AfterStep(b, ts, k);
    }
  }

  lemma {:induction false} AdmittedOfPrefix(b: Bucket, ts: seq<int>, k: nat, i: nat, j: nat)
    requires i <= j <= k <= |ts|
    ensures Admitted(b, ts[..k], i, j) == Admitted(b, ts, i, j)
    decreases j
  {
    if j <= i {
    } else {
      AdmittedOfPrefix(b, ts, k, i, j - 1);
      assert ts[..k][..j - 1] == ts[..j - 1];
    }
  }

  lemma {:induction false} AllAdmitted(b: Bucket, ts: seq<int>, i: nat, j: nat)
    requires i <= j <= |ts|
    ensures Admitted(b, ts, i, j) <= j - i
    ensures Admitted(b, ts, i, j) == j - i ==> forall k :: i <= k < j ==> Admits(b, ts, k)
    decreases j
  {
    if j <= i {
    } else {
      AllAdmitted(b, ts, i, j - 1);
    }
  }

  lemma {:induction false} CountAll(b: Bucket, ts: seq<int>, i: nat, j: nat)
    requires i <= j <= |ts| && forall k :: i <= k < j ==> Admits(b, ts, k)
    ensures Admitted(b, ts, i, j) == j - i
    decreases j
  {
    if j <= i {
    } else {
      CountAll(b, ts, i, j - 1);
    }
  }

  lemma {:induction false} FitsAdmitsAll(b: Bucket, perSecond: int, burst: int, created: int, ts: seq<int>, n: nat)
    requires b == NewBucket(perSecond, burst, created) && n <= |ts|
    requires 0 <= perSecond && (ts != [] ==> created <= ts[0])
    requires forall i, j :: 0 <= i <= j < |ts| ==> WindowFits(perSecond, burst, ts, i, j)
    ensures Admitted(b, ts, 0, n) == n
    decreases n
  {
    if n == 0 {
    } else {
      var j := n - 1;
      FitsAdmitsAll(b, perSecond, burst, created, ts, j);
      AllAdmitted(b, ts, 0, j);
      var i := LevelIsSomeWindow(b, ts, j);
      CountAll(b, ts, i, j);
      assert WindowFits(perSecond, burst, ts, i, j);
    }
  }

  // ----- greedy optimality -----

  /** Tokens left after k calls when `choice` decides who is admitted, under the same refill and cap. */
  function Spent(b: Bucket, ts: seq<int>, choice: seq<bool>, k: nat): Bucket
    requires k <= |ts| == |choice|
    decreases k
  {
    if k == 0 then b else
      var p := Spent(b, ts, choice, k - 1);
      p.(tokens := Level(p, ts[k - 1]) - (if choice[k - 1] then TOKEN else 0), lastTime := ts[k - 1])
  }

  /** The choice never spends a token that is not there. */
  ghost predicate Affordable(b: Bucket, ts: seq<int>, choice: seq<bool>) {
    && |ts| == |choice|
    && forall k :: 0 <= k < |ts| && choice[k] ==> Passes(Spent(b, ts, choice, k), ts[k])
  }

  function Chosen(choice: seq<bool>, k: nat): nat
    requires k <= |choice|
  {
    if k == 0 then 0 else Chosen(choice, k - 1) + (if choice[k - 1] then 1 else 0)
  }

  /** The limiter's own decisions. */
  function Decisions(b: Bucket, ts: seq<int>): seq<bool> {
    seq(|ts|, k requires 0 <= k < |ts| => Admits(b, ts, k))
  }

  /** No affordable choice admits more than the limiter at any prefix. */
  lemma {:induction false} GreedyIsOptimal(b: Bucket, ts: seq<int>, choice: seq<bool>, k: nat)
    requires Affordable(b, ts, choice) && k <= |ts|
    ensures Chosen(choice, k) <= Admitted(b, ts, 0, k)
    ensures Spent(b, ts, choice, k).tokens - After(b, ts[..k]).tokens <= TOKEN * (Admitted(b, ts, 0, k) - Chosen(choice, k))
    ensures var p := Spent(b, ts, choice, k);
      p.lastTime == After(b, ts[..k]).lastTime && p.max == After(b, ts[..k]).max && p.rate == After(b, ts[..k]).rate
    decreases k
  {
    if k == 0 {
    } else {
      GreedyIsOptimal(b, ts, choice, k - 1);
      AfterStep(b, ts, k - 1);
      LevelApart(Spent(b, ts, choice, k - 1), After(b, ts[..k - 1]), ts[k - 1]);
    }
  }

  /** A refill does not drive two buckets of the same kind further apart. */
  lemma LevelApart(p: Bucket, q: Bucket, now: int)
    requires p.lastTime == q.lastTime && p.max == q.max && p.rate == q.rate
    ensures Level(p, now) - Level(q, now) <= if p.tokens > q.tokens then p.tokens - q.tokens else 0
  {
    assert p.rate * (now - p.lastTime) == q.rate * (now - q.lastTime);
  }

  /** The limiter's own decisions are an affordable choice, so the bound is reached. */
  lemma GreedyIsAffordable(b: Bucket, ts: seq<int>)
    ensures Affordable(b, ts, Decisions(b, ts))
    ensures forall k :: 0 <= k <= |ts| ==> Chosen(Decisions(b, ts), k) == Admitted(b, ts, 0, k)
  {
    forall k | 0 <= k <= |ts|
      ensures Spent(b, ts, Decisions(b, ts), k).tokens == After(b, ts[..k]).tokens
      ensures k < |ts| && Decisions(b, ts)[k] ==> Passes(Spent(b, ts, Decisions(b, ts), k), ts[k])
      ensures Chosen(Decisions(b, ts), k) == Admitted(b, ts, 0, k)
    {
      GreedySpends(b, ts, k);
    }
  }

  lemma {:induction false} GreedySpends(b: Bucket, ts: seq<int>, k: nat)
    requires k <= |ts|
    ensures Spent(b, ts, Decisions(b, ts), k) == After(b, ts[..k]).(drops := b.drops)
    ensures Chosen(Decisions(b, ts), k) == Admitted(b, ts, 0, k)
  {
    if k == 0 {
    } else {
      GreedySpends(b, ts, k - 1);
      AfterStep(b, ts, k - 1);
    }
  }

  // ----- one bucket per system ID -----

  /** A call of checkRateLimit: the bucket made for it if the ID is new, then the time the call reads. */
  datatype Call = Call(id: byte, created: int, now: int)

  datatype Limits = Limits(perSecond: int, burst: int)

  /** LoadOrStore: the bucket stored for the ID, or the new one. */
  function Load(cfg: Limits, m: map<byte, Bucket>, c: Call): Bucket {
    if c.id in m then m[c.id] else NewBucket(cfg.perSecond, cfg.burst, c.created)
  }

  function CheckRateLimit(cfg: Limits, m: map<byte, Bucket>, c: Call): map<byte, Bucket> {
    m[c.id := Check(Load(cfg, m, c), c.now)]
  }

  class RateLimiters {
    const limits: Limits
    var limiters: map<byte, TokenBucket>

    ghost predicate Valid()
      reads this
    {
      forall k, l :: k in limiters && l in limiters && k != l ==> limiters[k] != limiters[l]
    }

    ghost function Value(): map<byte, Bucket>
      reads this, limiters.Values
    {
      map k | k in limiters :: limiters[k].Value()
    }

    constructor (limits: Limits)
      ensures Valid() && Value() == map[] && this.limits == limits
    {
      this.limits := limits;
      limiters := map[];
    }

    method CheckLimit(c: Call) returns (ok: bool)
      requires Valid()
      modifies this, limiters.Values
      ensures Valid() && fresh(limiters.Values - old(limiters.Values))
      ensures ok == Passes(Load(limits, old(Value()), c), c.now)
      ensures Value() == CheckRateLimit(limits, old(Value()), c)
    {
      var made := new TokenBucket(limits.perSecond, limits.burst, c.created);
      if c.id !in limiters {
        limiters := limiters[c.id := made];
      }
      var bucket := limiters[c.id];
      ghost var before, found := old(Value()), bucket.Value();
      assert found == Load(limits, before, c);
      ok := bucket.Take(c.now);
      forall k | k in limiters && k != c.id
        ensures k in before && limiters[k].Value() == before[k]
      {
        assert limiters[k] != bucket;
      }
      assert limiters.Keys == before.Keys + {c.id};
      assert Value() == before[c.id := Check(found, c.now)];
    }
  }

  function RunCalls(cfg: Limits, calls: seq<Call>): map<byte, Bucket> {
    if calls == [] then map[]
    else CheckRateLimit(cfg, RunCalls(cfg, calls[..|calls| - 1]), calls[|calls| - 1])
  }

  /** The calls made for one system ID, in order. */
  function Own(calls: seq<Call>, id: byte): seq<Call> {
    if calls == [] then []
    else
      var last := calls[|calls| - 1];
      Own(calls[..|calls| - 1], id) + (if last.id == id then [last] else [])
  }

  function Times(calls: seq<Call>): (ts: seq<int>)
    ensures |ts| == |calls|
  {
    seq(|calls|, i requires 0 <= i < |calls| => calls[i].now)
  }

  /** What a bucket made at the first of these calls is after all of them. */
  function OwnBucket(cfg: Limits, own: seq<Call>): Bucket
    requires own != []
  {
    After(NewBucket(cfg.perSecond, cfg.burst, own[0].created), Times(own))
  }

  lemma OwnStep(cfg: Limits, before: seq<Call>, c: Call)
    ensures var b := if before == [] then NewBucket(cfg.perSecond, cfg.burst, c.created) else OwnBucket(cfg, before);
      && OwnBucket(cfg, before + [c]) == Check(b, c.now)
      && (Passes(b, c.now) <==>
          Admits(NewBucket(cfg.perSecond, cfg.burst, (before + [c])[0].created), Times(before + [c]), |before|))
  {
    var b := NewBucket(cfg.perSecond, cfg.burst, (before + [c])[0].created);
    var ts := Times(before + [c]);
    assert ts[..|before|] == Times(before) && ts[|before|] == c.now;
    AfterStep(b, ts, |before|);
    assert ts[..|before| + 1] == ts;
    assert before == [] ==> Times(before) == [];
  }

  /** In any interleaving, an ID's bucket is what its own calls alone make of it; other IDs do not interfere. */
  lemma {:induction false} NoInterference(cfg: Limits, calls: seq<Call>, id: byte)
    ensures id in RunCalls(cfg, calls) <==> Own(calls, id) != []
    ensures id in RunCalls(cfg, calls) ==> RunCalls(cfg, calls)[id] == OwnBucket(cfg, Own(calls, id))
  {
    if calls == [] {
    } else {
      var n := |calls| - 1;
      NoInterference(cfg, calls[..n], id);
      if calls[n].id == id {
        OwnStep(cfg, Own(calls[..n], id), calls[n]);
      } else {
        assert Own(calls, id) == Own(calls[..n], id);
      }
    }
  }

  /** So the decision on a call is the one its own bucket makes on the ID's own calls. */
  lemma DecisionIsOwn(cfg: Limits, calls: seq<Call>, c: Call)
    ensures var own := Own(calls, c.id) + [c];
      Passes(Load(cfg, RunCalls(cfg, calls), c), c.now)
      <==> Admits(NewBucket(cfg.perSecond, cfg.burst, own[0].created), Times(own), |own| - 1)
  {
    NoInterference(cfg, calls, c.id);
    OwnStep(cfg, Own(calls, c.id), c);
  }
}
