/** The single-producer single-consumer ring, one load or store at a time. Each side reads
    its own cursor exactly and the other's possibly late, but never back in time. */
module Rings {
  import opened Basics

  const TWO32: nat := 0x1_0000_0000

  /** A power of two up to 2^31. */
  ghost predicate Capacity(n: nat) { exists k: nat :: k <= 31 && n == Pow2(k) }

  /** Where the producer is inside `push(v)`: its loads of tail and head, its write. */
  datatype Producer<T> = PIdle | PTail(v: T, tail: nat) | PHead(v: T, tail: nat, head: nat) | PWrote(v: T, tail: nat)

  /** Where the consumer is inside `pop`. */
  datatype Consumer<T> = CIdle | CHead(head: nat) | CTail(head: nat, tail: nat) | CRead(head: nat, v: T)

  /** The ring's memory, both sides' progress, and its history: all completed pushes and pops,
      and the latest count of the other side's moves each side has seen. */
  datatype Ring<T> = Ring(entries: seq<T>, head: nat, tail: nat, producer: Producer<T>, consumer: Consumer<T>,
                          pushed: seq<T>, popped: seq<T>, headSeen: nat, tailSeen: nat)

  datatype Step<T> =
    | PushStart(v: T) | PushLoadHead(moves: nat) | PushFull | PushWrite | PushStoreTail
    | PopStart | PopLoadTail(moves: nat) | PopEmpty | PopRead | PopStoreHead

  function Add32(x: nat): nat { (x + 1) % TWO32 }

  /** Wrapping difference of two cursors. */
  function Sub32(x: nat, y: nat): nat { (x - y) % TWO32 }

  predicate Enabled<T>(r: Ring<T>, s: Step<T>)
    requires |r.entries| > 0
  {
    match s
    case PushStart(v) => r.producer.PIdle?
    case PushLoadHead(moves) => r.producer.PTail? && r.headSeen <= moves <= |r.popped|
    case PushFull => r.producer.PHead? && Sub32(r.producer.tail, r.producer.head) == |r.entries|
    case PushWrite => r.producer.PHead? && Sub32(r.producer.tail, r.producer.head) != |r.entries|
    case PushStoreTail => r.producer.PWrote?
    case PopStart => r.consumer.CIdle?
    case PopLoadTail(moves) => r.consumer.CHead? && r.tailSeen <= moves <= |r.pushed|
    case PopEmpty => r.consumer.CTail? && r.consumer.head == r.consumer.tail
    case PopRead => r.consumer.CTail? && r.consumer.head != r.consumer.tail
    case PopStoreHead => r.consumer.CRead?
  }

  function Next<T>(r: Ring<T>, s: Step<T>): Ring<T>
    requires |r.entries| > 0 && Enabled(r, s)
  {
    var n := |r.entries|;
    match s
    case PushStart(v) => r.(producer := PTail(v, r.tail))
    case PushLoadHead(moves) => r.(producer := PHead(r.producer.v, r.producer.tail, moves % TWO32), headSeen := moves)
    case PushFull => r.(producer := PIdle)
    case PushWrite => r.(entries := r.entries[r.producer.tail % n := r.producer.v],
      producer := PWrote(r.producer.v, r.producer.tail))
    case PushStoreTail => r.(tail := Add32(r.producer.tail), producer := PIdle, pushed := r.pushed + [r.producer.v])
    case PopStart => r.(consumer := CHead(r.head))
    case PopLoadTail(moves) => r.(consumer := CTail(r.consumer.head, moves % TWO32), tailSeen := moves)
    case PopEmpty => r.(consumer := CIdle)
    case PopRead => r.(consumer := CRead(r.consumer.head, r.entries[r.consumer.head % n]))
    case PopStoreHead => r.(head := Add32(r.consumer.head), consumer := CIdle, popped := r.popped + [r.consumer.v])
  }

  ghost predicate Start<T>(r: Ring<T>)
  {
    && Capacity(|r.entries|)
    && r.head == r.tail == r.headSeen == r.tailSeen == 0 && r.producer.PIdle? && r.consumer.CIdle?
    && r.pushed == [] && r.popped == []
  }

  /** Neither side is ever without a step, and a late load may see any move of the other side
      since the last one seen. */
  lemma NeverStuck<T>(r: Ring<T>, v: T, m: nat)
    requires |r.entries| > 0
    ensures r.producer.PIdle? ==> Enabled(r, PushStart(v))
    ensures r.producer.PTail? ==> (Enabled(r, PushLoadHead(m)) <==> r.headSeen <= m <= |r.popped|)
    ensures r.producer.PHead? ==> (Enabled(r, PushFull) <==> !Enabled(r, PushWrite))
    ensures r.producer.PWrote? ==> Enabled(r, PushStoreTail)
    ensures r.consumer.CIdle? ==> Enabled(r, PopStart)
    ensures r.consumer.CHead? ==> (Enabled(r, PopLoadTail(m)) <==> r.tailSeen <= m <= |r.pushed|)
    ensures r.consumer.CTail? ==> (Enabled(r, PopEmpty) <==> !Enabled(r, PopRead))
    ensures r.consumer.CRead? ==> Enabled(r, PopStoreHead)
  {
  }

  /** Every unread entry sits in its slot. */
  ghost predicate Unread<T>(r: Ring<T>)
    requires |r.entries| > 0
  {
    forall k :: |r.popped| <= k < |r.pushed| ==> r.entries[k % |r.entries|] == r.pushed[k]
  }

  ghost predicate Cursors<T>(r: Ring<T>)
  {
    var h, t, n := |r.popped|, |r.pushed|, |r.entries|;
    && Capacity(n)
    && r.head == h % TWO32 && r.tail == t % TWO32
    && r.headSeen <= h <= r.tailSeen <= t <= r.headSeen + n
  }

  ghost predicate ProducerOk<T>(r: Ring<T>)
    requires |r.entries| > 0
  {
    var t, n := |r.pushed|, |r.entries|;
    match r.producer
    case PIdle => true
    case PTail(v, tail) => tail == t % TWO32
    case PHead(v, tail, head) => tail == t % TWO32 && head == r.headSeen % TWO32
    case PWrote(v, tail) => tail == t % TWO32 && t < r.headSeen + n && r.entries[t % n] == v
  }

  ghost predicate ConsumerOk<T>(r: Ring<T>)
  {
    var h := |r.popped|;
    match r.consumer
    case CIdle => true
    case CHead(head) => head == h % TWO32
    case CTail(head, tail) => head == h % TWO32 && tail == r.tailSeen % TWO32
    case CRead(head, v) => head == h % TWO32 && h < r.tailSeen && h < |r.pushed| && v == r.pushed[h]
  }

  /** First in, first out; never more than `n` unread; both sides' local state is current. */
  ghost predicate Inv<T>(r: Ring<T>)
  {
    && |r.entries| > 0 && Cursors(r) && r.popped <= r.pushed && Unread(r) && ProducerOk(r) && ConsumerOk(r)
  }

  lemma CursorWidths()
    ensures Pow2(31) == TWO32 / 2 && Pow2(32) == TWO32
  {
    hide Pow2;
    assert Pow2(1) == 2 && Pow2(2) == 4 by { SmallPowers(); }
    PowAdd(2, 2);
    PowAdd(4, 4);
    PowAdd(8, 8);
    PowAdd(16, 16);
    PowAdd(1, 31);
  }

  lemma SmallPowers()
    ensures Pow2(1) == 2 && Pow2(2) == 4
  {
  }

  /** A capacity is below half the cursor range and divides it. */
  lemma CapacityDivides(n: nat) returns (q: nat)
    requires Capacity(n)
    ensures q * n == TWO32 && n <= TWO32 / 2
  {
    hide Pow2;
    var k: nat :| k <= 31 && n == Pow2(k);
    PowAdd(32 - k, k);
    PowOrdered(k, 31);
    CursorWidths();
    q := Pow2(32 - k);
  }

  /** A wrapped cursor still names the slot of its count. */
  lemma SlotOfCursor(t: nat, n: nat)
    requires Capacity(n) && n > 0
    ensures (t % TWO32) % n == t % n
  {
    hide Capacity;
    var q := CapacityDivides(n);
    var a, b := t / TWO32, t % TWO32;
    var c, d := b / n, b % n;
    Division(t, TWO32);
    Division(b, n);
    Regroup(a, q, n, c, d);
    QuotientOf(t, a * q + c, n);
  }

  lemma Regroup(a: nat, q: nat, n: nat, c: nat, d: nat)
    ensures a * (q * n) + (c * n + d) == (a * q + c) * n + d
  {
  }

  /** Counts less than a capacity apart have different slots. */
  lemma SlotsDiffer(i: nat, j: nat, n: nat)
    requires i < j < i + n
    ensures i % n != j % n
  {
    var q, r := i / n, i % n + (j - i);
    Division(i, n);
    QuotientOf(j, if r < n then q else q + 1, n);
  }

  /** Counts at most a capacity apart: the wrapped difference is the true one. */
  lemma WrappedDifference(t: nat, h: nat)
    requires h <= t < h + TWO32
    ensures Sub32(t % TWO32, h % TWO32) == t - h
  {
  }

  lemma CapacityBound(n: nat)
    requires Capacity(n)
    ensures 0 < n <= TWO32 / 2
  {
    var q := CapacityDivides(n);
  }

  lemma StartInv<T>(r: Ring<T>)
    requires Start(r)
    ensures Inv(r)
  {
    CapacityBound(|r.entries|);
  }

  /** The producer's write goes to a slot that holds nothing unread. */
  lemma WriteIsSafe<T>(r: Ring<T>)
    requires Inv(r) && Enabled(r, PushWrite)
    ensures |r.pushed| < r.headSeen + |r.entries| && r.producer.tail % |r.entries| == |r.pushed| % |r.entries|
    ensures forall k :: |r.popped| <= k < |r.pushed| ==> k % |r.entries| != r.producer.tail % |r.entries|
  {
    hide Capacity, Unread;
    var n, t := |r.entries|, |r.pushed|;
    CapacityBound(n);
    WrappedDifference(t, r.headSeen);
    SlotOfCursor(t, n);
    forall k | |r.popped| <= k < t ensures k % n != t % n { SlotsDiffer(k, t, n); }
  }

  /** What the consumer reads is the oldest unread entry. */
  lemma ReadIsOldest<T>(r: Ring<T>)
    requires Inv(r) && Enabled(r, PopRead)
    ensures |r.popped| < r.tailSeen <= |r.pushed| && r.entries[r.consumer.head % |r.entries|] == r.pushed[|r.popped|]
  {
    hide Capacity;
    CapacityBound(|r.entries|);
    WrappedDifference(r.tailSeen, |r.popped|);
    SlotOfCursor(|r.popped|, |r.entries|);
  }

  lemma StepKeeps<T>(r: Ring<T>, s: Step<T>)
    requires Inv(r) && Enabled(r, s)
    ensures Inv(Next(r, s))
  {
    hide Capacity, Unread, Add32, Sub32;
    match s {
      case PushWrite => WriteKeeps(r);
      case PushStoreTail => StoreTailKeeps(r);
      case PopRead => ReadIsOldest(r);
      case PopStoreHead => StoreHeadKeeps(r);
      case _ =>
    }
    if !s.PushWrite? && !s.PushStoreTail? && !s.PopStoreHead? { SameUnread(r, Next(r, s)); }
  }

  lemma SameUnread<T>(r: Ring<T>, r': Ring<T>)
    requires |r.entries| > 0 && Unread(r)
    requires r'.entries == r.entries && r'.pushed == r.pushed && r'.popped == r.popped
    ensures Unread(r')
  {
  }

  lemma Incremented(t: nat)
    ensures Add32(t % TWO32) == (t + 1) % TWO32
  {
  }

  lemma WriteKeeps<T>(r: Ring<T>)
    requires Inv(r) && Enabled(r, PushWrite)
    ensures Inv(Next(r, PushWrite))
  {
    hide Capacity, Sub32;
    WriteIsSafe(r);
  }

  lemma StoreTailKeeps<T>(r: Ring<T>)
    requires Inv(r) && Enabled(r, PushStoreTail)
    ensures Inv(Next(r, PushStoreTail))
  {
    hide Capacity, Add32;
    Incremented(|r.pushed|);
  }

  lemma StoreHeadKeeps<T>(r: Ring<T>)
    requires Inv(r) && Enabled(r, PopStoreHead)
    ensures Inv(Next(r, PopStoreHead))
  {
    hide Capacity, Add32;
    Incremented(|r.popped|);
  }

  ghost predicate IsRun<T>(states: seq<Ring<T>>, steps: seq<Step<T>>)
  {
    && |states| == |steps| + 1 && Start(states[0])
    && forall k :: 0 <= k < |steps| ==>
      |states[k].entries| > 0 && Enabled(states[k], steps[k]) && states[k + 1] == Next(states[k], steps[k])
  }

  lemma {:induction false} RunInv<T>(states: seq<Ring<T>>, steps: seq<Step<T>>, k: nat)
    requires IsRun(states, steps) && k < |states|
    ensures Inv(states[k])
    decreases k
  {
    if k == 0 {
      StartInv(states[0]);
    } else {
      RunInv(states, steps, k - 1);
      StepKeeps(states[k - 1], steps[k - 1]);
    }
  }

  /** In every interleaving, at every moment: what was popped is a prefix of what was pushed,
      at most the capacity is outstanding, and no unread slot is overwritten, however often
      the cursors have wrapped. */
  lemma Fifo<T>(states: seq<Ring<T>>, steps: seq<Step<T>>, k: nat)
    requires IsRun(states, steps) && k < |states|
    ensures var r := states[k];
      && r.popped <= r.pushed
      && |r.pushed| - |r.popped| <= |r.entries| == |states[0].entries|
      && (k < |steps| && steps[k].PushWrite? ==>
            forall j :: |r.popped| <= j < |r.pushed| ==> j % |r.entries| != r.producer.tail % |r.entries|)
  {
    hide Unread, ProducerOk, ConsumerOk, Capacity;
    RunInv(states, steps, k);
    SameCapacity(states, steps, k);
    if k < |steps| && steps[k].PushWrite? { WriteIsSafe(states[k]); }
  }

  lemma {:induction false} SameCapacity<T>(states: seq<Ring<T>>, steps: seq<Step<T>>, k: nat)
    requires IsRun(states, steps) && k < |states|
    ensures |states[k].entries| == |states[0].entries|
    decreases k
  {
    if k > 0 { SameCapacity(states, steps, k - 1); }
  }

  /** A push is refused only if the ring was full at a head the consumer had reached, and a
      pop finds nothing only if it was empty at a tail the producer had reached. */
  lemma RefusalsAreHonest<T>(r: Ring<T>)
    requires Inv(r)
    ensures Enabled(r, PushFull) ==> |r.pushed| - r.headSeen == |r.entries| && r.headSeen <= |r.popped|
    ensures Enabled(r, PopEmpty) ==> r.tailSeen == |r.popped| && r.tailSeen <= |r.pushed|
  {
    hide Capacity, Unread;
    CapacityBound(|r.entries|);
    WrappedDifference(|r.pushed|, r.headSeen);
    WrappedDifference(r.tailSeen, |r.popped|);
  }

  /** The ring itself, with `push` and `pop` run to completion one at a time. `pops` and
      `pushes` are the cursors before wrapping. */
  class SpscRing<T> {
    const entries: array<T>
    var head: nat
    var tail: nat
    ghost var pops: nat
    ghost var pushes: nat

    ghost predicate Valid()
      reads this
    {
      && Capacity(entries.Length) && entries.Length > 0
      && head == pops % TWO32 && tail == pushes % TWO32 && pops <= pushes <= pops + entries.Length
    }

    /** What was pushed and not popped, oldest first. */
    ghost function Contents(): (c: seq<T>)
      requires Valid()
      reads this, entries
    {
      Unwrapped(entries[..], pops, pushes - pops)
    }

    constructor (n: nat, zero: T)
      requires Capacity(n)
      ensures Valid() && fresh(entries) && entries.Length == n && Contents() == []
    {
      hide Capacity;
      CapacityBound(n);
      entries := new T[n](_ => zero);
      head, tail, pops, pushes := 0, 0, 0, 0;
    }

    method Length() returns (n: nat)
      requires Valid()
      ensures n == |Contents()|
    {
      hide Capacity;
      CapacityBound(entries.Length);
      WrappedDifference(pushes, pops);
      n := Sub32(tail, head);
    }

    method Push(v: T) returns (ok: bool)
      requires Valid()
      modifies this, entries
      ensures Valid()
      ensures ok <==> |old(Contents())| < entries.Length
      ensures Contents() == if ok then old(Contents()) + [v] else old(Contents())
    {
      hide Capacity, Unwrapped, Add32;
      var n := Length();
      if n == entries.Length { return false; }
      SlotOfCursor(pushes, entries.Length);
      Incremented(pushes);
      var slot := tail % entries.Length;
      PushedAt(entries[..], pops, pushes - pops, slot, v);
      Store(slot, v);
      tail, pushes := Add32(tail), pushes + 1;
      return true;
    }

    method Store(slot: nat, v: T)
      requires slot < entries.Length
      modifies entries
      ensures entries[..] == old(entries[..])[slot := v]
    {
      entries[slot] := v;
    }

    method Pop() returns (r: Option<T>)
      requires Valid()
      modifies this
      ensures Valid()
      ensures r.None? <==> old(Contents()) == []
      ensures Contents() == if r.Some? then old(Contents())[1..] else []
      ensures r.Some? ==> r.value == old(Contents())[0]
    {
      hide Capacity, Add32, Unwrapped;
      CursorsMeet(pops, pushes, entries.Length);
      if head == tail { return None; }
      SlotOfCursor(pops, entries.Length);
      Incremented(pops);
      PoppedAt(entries[..], pops, pushes - pops);
      r := Some(entries[head % entries.Length]);
      head, pops := Add32(head), pops + 1;
    }
  }

  lemma CursorsMeet(h: nat, t: nat, n: nat)
    requires Capacity(n) && h <= t <= h + n
    ensures h % TWO32 == t % TWO32 <==> h == t
  {
    hide Capacity;
    CapacityBound(n);
    WrappedDifference(t, h);
  }

  lemma PoppedAt<T>(slots: seq<T>, from: nat, n: nat)
    requires |slots| > 0 && n > 0
    ensures Unwrapped(slots, from, n)[0] == slots[from % |slots|]
    ensures Unwrapped(slots, from, n)[1..] == Unwrapped(slots, from + 1, n - 1)
  {
  }

  function Unwrapped<T>(slots: seq<T>, from: nat, n: nat): (c: seq<T>)
    requires |slots| > 0
    ensures |c| == n
  {
    seq(n, k requires 0 <= k < n => slots[(from + k) % |slots|])
  }

  lemma PushedAt<T>(slots: seq<T>, from: nat, n: nat, slot: nat, v: T)
    requires 0 <= n < |slots| && slot == (from + n) % |slots|
    ensures Unwrapped(slots[slot := v], from, n + 1) == Unwrapped(slots, from, n) + [v]
  {
    forall k | 0 <= k < n ensures Unwrapped(slots[slot := v], from, n + 1)[k] == Unwrapped(slots, from, n)[k] {
      SlotsDiffer(from + k, from + n, |slots|);
    }
  }
}
