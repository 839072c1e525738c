/** internal/ingest/packet.go and the packet handling of internal/ingest/udp.go as they run on objects. */
module Workers {
  import opened Bytes
  import opened Telemetry
  import opened Frames
  import opened RateLimit
  import opened Collections
  import D = Decoder
  import L = PipelineLaws
  import P = Pipeline

  class Packet {
    const data: array<byte>
    var length: nat
    var sourceAddr: string

    ghost predicate Valid()
      reads this
    {
      length <= data.Length
    }

    constructor (size: nat)
      ensures Valid() && fresh(data) && data.Length == size && length == 0 && sourceAddr == ""
      ensures data[..] == seq(size, _ => 0)
    {
      data := new byte[size](_ => 0);
      length, sourceAddr := 0, "";
    }

    /** Clears the packet for reuse; the data stays. */
    method Reset()
      modifies this
      ensures Valid() && length == 0 && sourceAddr == ""
    {
      length, sourceAddr := 0, "";
    }

    method Bytes() returns (bytes: seq<byte>)
      requires Valid()
      ensures bytes == data[..length]
    {
      bytes := data[..length];
    }

    /** A read from the socket: the front of the buffer is overwritten, what does not fit is lost. */
    method Fill(datagram: seq<byte>, from: string)
      modifies this, data
      ensures Valid() && sourceAddr == from
      ensures length == if |datagram| <= data.Length then |datagram| else data.Length
      ensures data[..] == datagram[..length] + old(data[..])[length..]
    {
      var n := if |datagram| <= data.Length then |datagram| else data.Length;
      ghost var before := data[..];
      for i := 0 to n
        invariant forall k :: 0 <= k < i ==> data[k] == datagram[k]
        invariant forall k :: i <= k < data.Length ==> data[k] == before[k]
      {
        data[i] := datagram[i];
      }
      length, sourceAddr := n, from;
    }
  }

  ghost predicate Differ(s: seq<Packet>, i: nat, j: nat) {
    i < j < |s| ==> s[i] != s[j]
  }

  ghost predicate NoRepeats(s: seq<Packet>) {
    forall i, j {:trigger Differ(s, i, j)} :: Differ(s, i, j)
  }

  lemma NoRepeatsNext(s: seq<Packet>, pkt: Packet)
    ensures NoRepeats(s + [pkt]) <==> NoRepeats(s) && pkt !in s
  {
    var t := s + [pkt];
    if NoRepeats(t) {
      forall i | 0 <= i < |s|
        ensures s[i] != pkt
      {
        assert Differ(t, i, |s|);
      }
      forall i, j
        ensures Differ(s, i, j)
      {
        assert Differ(t, i, j);
      }
    }
    if NoRepeats(s) && pkt !in s {
      forall i, j
        ensures Differ(t, i, j)
      {
        assert Differ(s, i, j);
      }
    }
  }

  /** A pool of packets of one size. */
  class PacketPool {
    const bufferSize: nat
    var free: seq<Packet>

    ghost predicate Valid()
      reads this
    {
      forall i :: 0 <= i < |free| ==> free[i].data.Length == bufferSize
    }

    /** Each packet is in the pool at most once. */
    ghost predicate Distinct()
      reads this
    {
      NoRepeats(free)
    }

    constructor (bufferSize: nat)
      ensures Valid() && Distinct() && free == [] && this.bufferSize == bufferSize
    {
      this.bufferSize := bufferSize;
      free := [];
    }

    /** A free packet, or a new one; `fromPool` is the pool's own choice. */
    method Get(fromPool: bool) returns (pkt: Packet)
      requires Valid()
      modifies this, free
      ensures Valid() && pkt.Valid()
      ensures pkt.length == 0 && pkt.sourceAddr == "" && pkt.data.Length == bufferSize
      ensures multiset(free) <= multiset(old(free)) && (old(Distinct()) ==> Distinct() && pkt !in free)
      ensures if pkt in old(free) then multiset(old(free)) == multiset(free) + multiset{pkt} else fresh(pkt) && free == old(free)
    {
      if fromPool && free != [] {
        pkt := free[|free| - 1];
        ghost var before := free;
        free := free[..|free| - 1];
        assert before == free + [pkt];
        NoRepeatsNext(free, pkt);
      } else {
        pkt := new Packet(bufferSize);
      }
      pkt.Reset();
    }

    predicate Takes(pkt: Packet?)
      reads this
    {
      pkt != null && pkt.data.Length == bufferSize
    }

    /**
      Only a packet of the expected size goes back. The pool does not look whether it has it already: two later calls
      of Get may hand out the same packet exactly when somebody puts back one that is in the pool.
     */
    method Put(pkt: Packet?)
      requires Valid()
      modifies this
      ensures Valid()
      ensures Distinct() <==> old(Distinct()) && (Takes(pkt) ==> pkt !in old(free))
      ensures free == if Takes(pkt) then old(free) + [pkt] else old(free)
    {
      if pkt == null {
        return;
      }
      if pkt.data.Length == bufferSize {
        ghost var before := free;
        free := free + [pkt];
        NoRepeatsNext(before, pkt);
      }
    }
  }

  /** What the worker pool counts and keeps. */
  datatype Books = Books(errors: nat, processed: nat, outputDrops: nat, output: seq<Event>, buckets: map<byte, Bucket>)

  datatype Config = Config(limits: Limits, outCap: nat)

  /** What becomes of one decoded or rejected packet. */
  function Settle(cfg: Config, b: Books, r: Result<Event>, created: int, now: int): Books {
    match r
    case Err(_) => b.(errors := b.errors + 1)
    case Ok(e) =>
      var call := Call(e.id.systemID, created, now);
      var c := b.(buckets := CheckRateLimit(cfg.limits, b.buckets, call));
      if !Passes(Load(cfg.limits, b.buckets, call), now) then c
      else if |b.output| < cfg.outCap then c.(processed := b.processed + 1, output := b.output + [e])
      else c.(processed := b.processed + 1, outputDrops := b.outputDrops + 1)
  }

  /** Every packet adds one to exactly one of errors, bucket drops and processed; every processed one to the output or its drops. */
  lemma SettledOnce(cfg: Config, b: Books, r: Result<Event>, created: int, now: int)
    ensures var c := Settle(cfg, b, r, created, now);
      && c.errors + Sum(L.DropsOf(c.buckets)) + c.processed == b.errors + Sum(L.DropsOf(b.buckets)) + b.processed + 1
      && c.processed - c.outputDrops - |c.output| == b.processed - b.outputDrops - |b.output|
  {
    if r.Ok? {
      L.DropsChecked(cfg.limits, b.buckets, Call(r.value.id.systemID, created, now));
    }
  }

  class WorkerPool {
    const cfg: Config
    const pool: PacketPool
    const limiters: RateLimiters
    var errors: nat
    var processed: nat
    var outputDrops: nat
    var output: seq<Event>

    ghost predicate Valid()
      reads this, limiters, pool
    {
      limiters.Valid() && limiters.limits == cfg.limits && pool.Valid()
    }

    ghost function Value(): Books
      reads this, limiters, limiters.limiters.Values
    {
      Books(errors, processed, outputDrops, output, limiters.Value())
    }

    constructor (cfg: Config, pool: PacketPool)
      requires pool.Valid()
      ensures Valid() && Value() == Books(0, 0, 0, [], map[]) && this.cfg == cfg && this.pool == pool && fresh(limiters)
    {
      this.cfg, this.pool := cfg, pool;
      limiters := new RateLimiters(cfg.limits);
      errors, processed, outputDrops, output := 0, 0, 0, [];
    }

    /** Counted as processed, and output without blocking. */
    method Output(event: Event)
      modifies `processed, `outputDrops, `output
      ensures processed == old(processed) + 1
      ensures output == if |old(output)| < cfg.outCap then old(output) + [event] else old(output)
      ensures outputDrops == old(outputDrops) + (if |old(output)| < cfg.outCap then 0 else 1)
    {
      processed := processed + 1;
      if |output| < cfg.outCap {
        output := output + [event];
      } else {
        outputDrops := outputDrops + 1;
      }
    }

    method Admit(event: Event, created: int, now: int)
      requires Valid()
      modifies `processed, `outputDrops, `output, limiters, limiters.limiters.Values
      ensures Valid() && fresh(limiters.limiters.Values - old(limiters.limiters.Values))
      ensures Value() == Settle(cfg, old(Value()), Ok(event), created, now)
    {
      ghost var before := limiters.Value();
      var call := Call(event.id.systemID, created, now);
      var ok := limiters.CheckLimit(call);
      assert limiters.Value() == CheckRateLimit(cfg.limits, before, call);
      if ok {
        Output(event);
      }
    }

    /** Parse, rate limit, output; `now` is read by the decoder, `created` and `at` by the limiter. */
    method Handle(data: seq<byte>, sourceAddr: string, now: int, created: int, at: int)
      requires Valid()
      modifies `errors, `processed, `outputDrops, `output, limiters, limiters.limiters.Values
      ensures Valid() && fresh(limiters.limiters.Values - old(limiters.limiters.Values))
      ensures Value() == Settle(cfg, old(Value()), D.DecodePacket(data, sourceAddr, now), created, at)
    {
      var r := D.Decode(data, sourceAddr, now);
      if r.Err? {
        errors := errors + 1;
      } else {
        Admit(r.value, created, at);
      }
    }

    /** processPacket: the packet goes back to the pool whatever happens. */
    method ProcessPacket(pkt: Packet, now: int, created: int, at: int)
      requires Valid() && pkt.Valid()
      modifies `errors, `processed, `outputDrops, `output, limiters, limiters.limiters.Values, pool
      ensures Valid() && fresh(limiters.limiters.Values - old(limiters.limiters.Values))
      ensures Value() == Settle(cfg, old(Value()), D.DecodePacket(old(pkt.data[..pkt.length]), pkt.sourceAddr, now), created, at)
      ensures pool.free == if pkt.data.Length == pool.bufferSize then old(pool.free) + [pkt] else old(pool.free)
    {
      var data := pkt.Bytes();
      Handle(data, pkt.sourceAddr, now, created, at);
      ghost var books := Value();
      pool.Put(pkt);
      assert Value() == books;
    }
  }

  // ----- the same as steps of the pipeline -----

  function BooksOf(s: P.State): Books {
    Books(s.errors, s.processed, s.outputDrops, P.EventsOf(s.out), s.buckets)
  }

  /** A worker's steps for one packet, from the queue to the release, with nobody else at work. */
  function WorkerSteps(cfg: P.Config, s: P.State, w: nat, now: int, created: int, at: int): P.State
    requires w in s.work && s.work[w].Got? && s.work[w].packet in s.packets
  {
    var a := P.DoDecode(cfg, s, w, now);
    if a.work[w].Releasing? then a
    else
      var call := Call(a.work[w].event.id.systemID, created, at);
      var b := P.Next(cfg, a, P.Check(w, call));
      if b.work[w].Releasing? then b else P.DoOutput(cfg, P.Next(cfg, b, P.Count(w)), w)
  }

  /** The method on objects and the pipeline's steps keep the same books. */
  lemma StepsSettle(cfg: P.Config, s: P.State, w: nat, now: int, created: int, at: int)
    requires w in s.work && s.work[w].Got? && s.work[w].packet in s.packets
    ensures var p := s.packets[s.work[w].packet];
      BooksOf(WorkerSteps(cfg, s, w, now, created, at))
      == Settle(Config(cfg.limits, cfg.outCap), BooksOf(s), cfg.decode(P.PacketBytes(p), p.sourceAddr, now), created, at)
  {
    var a := P.DoDecode(cfg, s, w, now);
    if !a.work[w].Releasing? {
      var e := a.work[w].event;
      assert P.EventsOf(s.out + [P.Item(s.work[w].packet, s.work[w].tag, e)]) == P.EventsOf(s.out) + [e];
    }
  }
}
