/** The per-drone ring buffer of internal/drone/history.go. */
module History {
  import opened Telemetry

  /** The last `n` elements, or all if there are fewer. */
  function TakeLast<T>(s: seq<T>, n: nat): (r: seq<T>)
    ensures |r| == if |s| <= n then |s| else n
  {
    if |s| <= n then s else s[|s| - n..]
  }

  lemma TakeLastTwice<T>(s: seq<T>, m: nat, n: nat)
    ensures TakeLast(TakeLast(s, m), n) == TakeLast(s, if m < n then m else n)
  {}

  /** The slot at distance `x` along the ring. */
  function Around<T>(ring: seq<T>, x: nat): T
    requires ring != []
  {
    ring[x % |ring|]
  }

  /** The `count` slots before `head`, oldest first. */
  function Stored<T>(ring: seq<T>, head: nat, count: nat): (s: seq<T>)
    requires head < |ring| && count <= |ring|
    ensures |s| == count
  {
    if count <= head then ring[head - count..head] else ring[head - count + |ring|..] + ring[..head]
  }

  lemma ModWrap(x: nat, m: nat)
    requires x < 2 * m
    ensures x % m == if x < m then x else x - m
  {
    if x >= m {
      assert x == (x - m) + m * 1;
    }
  }

  /** Counting up from n slots before `head` runs through the latest n entries. */
  lemma LatestAround<T>(ring: seq<T>, head: nat, count: nat, n: nat, k: nat)
    requires head < |ring| && k < n <= count <= |ring|
    ensures Around(ring, (head - n + |ring|) % |ring| + k) == Stored(ring, head, count)[count - n + k]
  {
    ModWrap(head - n + |ring|, |ring|);
    ModWrap((head - n + |ring|) % |ring| + k, |ring|);
  }

  lemma Unwound<T>(ring: seq<T>, head: nat, count: nat, n: nat, start: nat, result: seq<T>)
    requires head < |ring| && 0 < n <= count <= |ring| && start == (head - n + |ring|) % |ring|
    requires |result| == n && forall k :: 0 <= k < n ==> result[k] == Around(ring, start + k)
    ensures result == TakeLast(Stored(ring, head, count), n)
  {
    var s := Stored(ring, head, count);
    assert TakeLast(s, n) == s[count - n..];
    forall k | 0 <= k < n
      ensures result[k] == s[count - n + k]
    {
      LatestAround(ring, head, count, n, k);
    }
  }

  /** Writing at `head` and advancing it keeps the latest entries. */
  lemma PushStored<T>(ring: seq<T>, head: nat, count: nat, entry: T)
    requires head < |ring| && count <= |ring|
    ensures (head + 1) % |ring| < |ring|
    ensures Stored(ring[head := entry], (head + 1) % |ring|, if count < |ring| then count + 1 else count)
         == TakeLast(Stored(ring, head, count) + [entry], |ring|)
  {
    ModWrap(head + 1, |ring|);
    if head + 1 < |ring| {
      PushInside(ring, head, count, entry);
    } else {
      PushAtEnd(ring, head, count, entry);
    }
  }

  lemma PushInside<T>(ring: seq<T>, head: nat, count: nat, entry: T)
    requires head + 1 < |ring| && count <= |ring|
    ensures Stored(ring[head := entry], head + 1, if count < |ring| then count + 1 else count)
         == TakeLast(Stored(ring, head, count) + [entry], |ring|)
  {}

  lemma PushAtEnd<T>(ring: seq<T>, head: nat, count: nat, entry: T)
    requires head + 1 == |ring| && count <= |ring|
    ensures Stored(ring[head := entry], 0, if count < |ring| then count + 1 else count)
         == TakeLast(Stored(ring, head, count) + [entry], |ring|)
  {}

  /** `s` is what the ring stores, entry by entry. */
  ghost predicate Holds<T>(ring: seq<T>, head: nat, count: nat, s: seq<T>)
    requires head < |ring| && count <= |ring|
  {
    |s| == count && forall k :: 0 <= k < |s| ==> s[k] == Stored(ring, head, count)[k]
  }

  class RingBuffer {
    const entries: array<HistoryEntry>
    var head: nat
    var count: nat
    const cap: nat
    /** The entries kept, oldest first. */
    ghost var contents: seq<HistoryEntry>

    ghost predicate Valid()
      reads this, entries
    {
      && entries.Length == cap && count <= cap
      && if cap == 0 then head == 0 && contents == [] else head < cap && Holds(entries[..], head, count, contents)
    }

    constructor (capacity: nat)
      ensures Valid() && contents == [] && cap == capacity && fresh(entries)
    {
      entries := new HistoryEntry[capacity];
      cap := capacity;
      head, count, contents := 0, 0, [];
    }

    /** With no capacity at all there is no slot to write to: the source's index panics. */
    method Push(entry: HistoryEntry)
      requires Valid() && 0 < cap
      modifies this, entries
      ensures Valid()
      ensures contents == TakeLast(old(contents) + [entry], cap)
    {
      PushStored(entries[..], head, count, entry);
      assert contents == Stored(entries[..], head, count);
      entries[head] := entry;
      assert entries[..] == old(entries[..])[head := entry];
      head := (head + 1) % cap;
      if count < cap {
        count := count + 1;
      }
      contents := TakeLast(contents + [entry], cap);
    }

    method Last(n: nat) returns (result: array<HistoryEntry>)
      requires Valid()
      ensures fresh(result)
      ensures result[..] == TakeLast(contents, n)
    {
      var m := if n > count then count else n;
      result := new HistoryEntry[m];
      if m == 0 {
        return;
      }
      var start := (head - m + cap) % cap;
      ghost var ring := entries[..];
      for i := 0 to m
        invariant entries[..] == ring
        invariant forall k :: 0 <= k < i ==> result[k] == Around(ring, start + k)
      {
        assert Around(ring, start + i) == entries[(start + i) % cap] by {
          ModWrap(start + i, cap);
        }
        result[i] := entries[(start + i) % cap];
      }
      Unwound(ring, head, count, m, start, result[..]);
      assert contents == Stored(ring, head, count);
    }

    method Len() returns (n: nat)
      requires Valid()
      ensures n == |contents|
    {
      n := count;
    }
  }

  /** What a buffer of this capacity holds after these pushes, one at a time. */
  function Pushes(cap: nat, es: seq<HistoryEntry>): seq<HistoryEntry> {
    if es == [] then [] else TakeLast(Pushes(cap, es[..|es| - 1]) + [es[|es| - 1]], cap)
  }

  /** However many entries were pushed, the buffer holds exactly the latest ones. */
  lemma {:induction false} PushesAreSuffix(cap: nat, es: seq<HistoryEntry>)
    ensures Pushes(cap, es) == TakeLast(es, cap)
  {
    if es == [] {
    } else {
      var n := |es| - 1;
      PushesAreSuffix(cap, es[..n]);
      assert es == es[..n] + [es[n]];
    }
  }
}
