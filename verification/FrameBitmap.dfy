/** The physical frame allocator: one bit a frame, packed into 64-bit words, set when used. */
module FrameBitmaps {
  import opened Basics

  const FRAME_SIZE: nat := 4096

  /** Bit `k` of a word. */
  predicate Bit(w: nat, k: nat) { if k == 0 then w % 2 == 1 else Bit(w / 2, k - 1) }

  function WithBit(w: nat, k: nat, on: bool): nat
  {
    if k == 0 then (w / 2) * 2 + (if on then 1 else 0) else w % 2 + 2 * WithBit(w / 2, k - 1, on)
  }

  lemma {:induction false} BitSet(w: nat, k: nat, on: bool, j: nat)
    ensures Bit(WithBit(w, k, on), j) == if j == k then on else Bit(w, j)
    decreases k, j
  {
    if k > 0 && j > 0 { BitSet(w / 2, k - 1, on, j - 1); }
  }

  /** Frames by state: true is used. */
  type View = seq<bool>

  function FreeCount(v: View): nat { if v == [] then 0 else (if v[0] then 0 else 1) + FreeCount(v[1..]) }

  /** `n` frames from `i` on set to `used`. */
  function Fill(v: View, i: nat, n: nat, used: bool): (r: View)
    ensures |r| == |v|
  {
    seq(|v|, k requires 0 <= k < |v| => if i <= k < i + n then used else v[k])
  }

  predicate AllFree(v: View, i: nat, n: nat) { i + n <= |v| && forall k :: i <= k < i + n ==> !v[k] }

  predicate AllUsed(v: View, i: nat, n: nat) { i + n <= |v| && forall k :: i <= k < i + n ==> v[k] }

  /** What an allocation of `n` frames at `i` does to the bitmap. */
  ghost predicate Takes(v: View, i: nat, n: nat, v': View) { n > 0 && AllFree(v, i, n) && v' == Fill(v, i, n, true) }

  /** What freeing a block does. */
  ghost predicate Gives(v: View, i: nat, n: nat, v': View) { AllUsed(v, i, n) && v' == Fill(v, i, n, false) }

  lemma {:induction false} CountOne(v: View, i: nat, used: bool)
    requires i < |v|
    ensures FreeCount(v[i := used]) == FreeCount(v) - (if v[i] then 0 else 1) + (if used then 0 else 1)
    decreases |v|
  {
    if i > 0 {
      assert v[i := used][1..] == v[1..][i - 1 := used];
      CountOne(v[1..], i - 1, used);
    } else {
      assert v[i := used][1..] == v[1..];
    }
  }

  lemma {:induction false} CountZero(v: View)
    ensures FreeCount(v) == 0 <==> forall k :: 0 <= k < |v| ==> v[k]
    ensures FreeCount(v) <= |v|
  {
    if v != [] {
      CountZero(v[1..]);
      if FreeCount(v) == 0 {
        forall k | 0 <= k < |v| ensures v[k] { if k > 0 { assert v[1..][k - 1] == v[k]; } }
      }
    }
  }

  /** Changing a uniform run changes the count by its length. */
  lemma {:induction false} CountRun(v: View, i: nat, n: nat)
    requires AllFree(v, i, n)
    ensures FreeCount(v) == FreeCount(Fill(v, i, n, true)) + n
    decreases n
  {
    if n == 0 {
      assert Fill(v, i, 0, true) == v;
    } else {
      CountRun(v, i, n - 1);
      var w := Fill(v, i, n - 1, true);
      CountOne(w, i + n - 1, true);
      assert w[i + n - 1 := true] == Fill(v, i, n, true);
    }
  }

  /** A place for `n` frames whose physical frame number is a multiple of `align`. */
  predicate Place(v: View, baseFrame: nat, n: nat, align: nat, i: nat)
    requires align > 0
  {
    (baseFrame + i) % align == 0 && AllFree(v, i, n)
  }

  /** Skipping to the next multiple passes no multiple. */
  lemma NoMultipleBetween(x: nat, align: nat, y: nat)
    requires align > 0 && x % align != 0 && x <= y < x + (align - x % align)
    ensures y % align != 0
  {
    var q := x / align;
    Division(x, align);
    QuotientOf(y, q, align);
  }

  function Unpacked(words: seq<nat>, n: nat): (v: View)
    requires n <= 64 * |words|
    ensures |v| == n
  {
    seq(n, i requires 0 <= i < n => Bit(words[i / 64], i % 64))
  }

  /** A word of `n` set bits. */
  function Ones(n: nat): nat { if n == 0 then 0 else 1 + 2 * Ones(n - 1) }

  lemma {:induction false} OnesBits(n: nat, k: nat)
    requires k < n
    ensures Bit(Ones(n), k)
    decreases n
  {
    if k > 0 { OnesBits(n - 1, k - 1); }
  }

  lemma UnpackedOnes(words: seq<nat>, n: nat)
    requires n <= 64 * |words| && forall k :: 0 <= k < |words| ==> words[k] == Ones(64)
    ensures FreeCount(Unpacked(words, n)) == 0 && forall i :: 0 <= i < n ==> Unpacked(words, n)[i]
  {
    hide Ones, FreeCount;
    forall i | 0 <= i < n ensures Unpacked(words, n)[i] { OnesBits(64, i % 64); }
    CountZero(Unpacked(words, n));
  }

  class FrameBitmap {
    const bits: array<nat>
    const base: nat
    const nframes: nat
    var cursor: nat
    var free: nat

    /** All bits of the storage. */
    ghost function Stored(): (v: View)
      reads bits
      ensures |v| == 64 * bits.Length
    {
      Unpacked(bits[..], 64 * bits.Length)
    }

    /** The tracked ones. */
    ghost function View(): (v: View)
      requires nframes <= 64 * bits.Length
      reads bits
      ensures |v| == nframes && v == Stored()[..nframes]
    {
      Unpacked(bits[..], nframes)
    }

    ghost predicate Sized()
      reads `cursor
    {
      nframes <= 64 * bits.Length && (nframes > 0 ==> cursor < nframes)
    }

    /** `free` is the number of clear tracked bits. */
    ghost predicate Valid()
      reads this, bits
    {
      Sized() && free == FreeCount(View())
    }

    predicate IsUsed(i: nat)
      requires i < 64 * bits.Length
      reads bits
      ensures IsUsed(i) == Stored()[i]
    {
      Bit(bits[i / 64], i % 64)
    }

    function IndexOf(addr: nat): nat
      requires addr >= base
    {
      (addr - base) / FRAME_SIZE
    }

    function AddrOf(i: nat): (addr: nat)
      ensures addr == base + 4096 * i && IndexOf(addr) == i
    {
      base + i * FRAME_SIZE
    }

    /** All frames start used, the untracked bits of the last word too. */
    constructor (base: nat, nframes: nat, storage: array<nat>)
      requires 64 * storage.Length >= nframes && base % FRAME_SIZE == 0
      modifies storage
      ensures Valid() && this.base == base && this.nframes == nframes && bits == storage && cursor == 0
      ensures free == 0 && forall i :: 0 <= i < 64 * bits.Length ==> Stored()[i]
    {
      hide Unpacked, FreeCount, Ones;
      this.bits, this.base, this.nframes := storage, base, nframes;
      cursor, free := 0, 0;
      new;
      for k := 0 to storage.Length
        modifies storage
        invariant forall j :: 0 <= j < k ==> storage[j] == Ones(64)
      {
        storage[k] := Ones(64);
      }
      UnpackedOnes(storage[..], nframes);
      UnpackedOnes(storage[..], 64 * storage.Length);
    }

    /** Sets one bit; `free` follows the bit, tracked or not. */
    method SetUsed(i: nat, used: bool)
      requires Sized() && i < 64 * bits.Length && (used ==> Valid() && i < nframes)
      modifies bits, `free
      ensures Sized() && Stored() == old(Stored())[i := used]
      ensures View() == if i < nframes then old(View())[i := used] else old(View())
      ensures !used ==> free == old(free) + if old(Stored())[i] then 1 else 0
      ensures old(Valid()) && i < nframes ==> Valid()
    {
      ghost var before, tracked := Stored(), View();
      var word := bits[i / 64];
      var was := Bit(word, i % 64);
      bits[i / 64] := WithBit(word, i % 64, used);
      forall j | 0 <= j < 64 * bits.Length ensures Stored()[j] == before[i := used][j] {
        BitSet(word, i % 64, used, j % 64);
      }
      assert Stored() == before[i := used];
      if i < nframes { CountOne(tracked, i, used); }
      if used && !was { free := free - 1; } else if !used && was { free := free + 1; }
    }

    /** Sets frames `first` to `last` one by one. */
    method SetRange(first: nat, last: nat, used: bool)
      requires Valid() && last <= nframes
      modifies bits, `free
      ensures Valid()
      ensures View() == if first < last then Fill(old(View()), first, last - first, used) else old(View())
    {
      var i := first;
      while i < last
        invariant Valid() && (first <= last ==> i <= last) && first <= i
        invariant first <= i <= nframes ==> View() == Fill(old(View()), first, i - first, used)
        invariant first >= last ==> i == first && View() == old(View())
      {
        SetUsed(i, used);
        assert View() == Fill(old(View()), first, i + 1 - first, used);
        i := i + 1;
      }
    }

    /** Whole frames of `[addr, addr + len)`, clipped to the tracked range, become free. */
    method MarkFreeRange(addr: nat, len: nat)
      requires Valid() && addr >= base
      modifies bits, `free
      ensures Valid() && View() == Fill(old(View()), IndexOf(addr), len / FRAME_SIZE, false)
    {
      var first, n := IndexOf(addr), len / FRAME_SIZE;
      SetRange(first, if first + n < nframes then first + n else nframes, false);
    }

    /** Every frame that `[addr, addr + len)` touches from its first on, clipped, becomes used. */
    method MarkUsedRange(addr: nat, len: nat)
      requires Valid() && addr >= base
      modifies bits, `free
      ensures Valid() && View() == Fill(old(View()), IndexOf(addr), (len + FRAME_SIZE - 1) / FRAME_SIZE, true)
    {
      var first, n := IndexOf(addr), (len + FRAME_SIZE - 1) / FRAME_SIZE;
      SetRange(first, if first + n < nframes then first + n else nframes, true);
    }

    /** Next-fit: the first free frame from the cursor on, round the end, if any is free. */
    method Alloc() returns (r: Option<nat>)
      requires Valid()
      modifies bits, `free, `cursor
      ensures Valid()
      ensures r.None? <==> forall k :: 0 <= k < nframes ==> old(View())[k]
      ensures r.None? ==> View() == old(View())
      ensures r.Some? ==> exists i: nat ::
        && NextFree(old(View()), old(cursor), i)
        && r.value == AddrOf(i)
        && Takes(old(View()), i, 1, View())
        && cursor == (i + 1) % nframes
    {
      hide FreeCount, NextFree;
      CountZero(View());
      if free == 0 { return None; }
      var i := FindFree();
      assert !View()[i] by { NextFreeIsFree(View(), cursor, i); }
      SetUsed(i, true);
      assert Takes(old(View()), i, 1, View());
      cursor := (i + 1) % nframes;
      r := Some(AddrOf(i));
    }

    method FindFree() returns (i: nat)
      requires Valid() && free > 0
      ensures i < nframes && NextFree(View(), cursor, i)
    {
      hide FreeCount, Unpacked, Around;
      ghost var v := View();
      CountZero(v);
      ghost var t: nat :| t < nframes && !v[t];
      ghost var far: nat := if t >= cursor then t - cursor else t + nframes - cursor;
      ghost var d: nat := 0;
      i := cursor;
      AroundEnds(cursor, t, nframes);
      while IsUsed(i)
        invariant d <= far < nframes && i == Around(cursor, d, nframes) && Around(cursor, far, nframes) == t
        invariant forall j: nat :: j < d ==> v[Around(cursor, j, nframes)]
        decreases far - d
      {
        AroundNext(cursor, d, nframes);
        i, d := (i + 1) % nframes, d + 1;
      }
    }

    /** First fit of `n` contiguous frames at an aligned physical address: the lowest place
        there is, and none only if there is none. */
    method AllocContig(n: nat, align: nat) returns (r: Option<nat>)
      requires Valid() && n > 0 && PowerOfTwo(align)
      modifies bits, `free
      ensures Valid()
      ensures r.None? ==> View() == old(View()) && forall i: nat :: !Place(old(View()), base / FRAME_SIZE, n, align, i)
      ensures r.Some? ==> exists i: nat ::
        && r.value == AddrOf(i)
        && Place(old(View()), base / FRAME_SIZE, n, align, i)
        && (forall j: nat :: j < i ==> !Place(old(View()), base / FRAME_SIZE, n, align, j))
        && Takes(old(View()), i, n, View())
    {
      ghost var v := View();
      var frame := base / FRAME_SIZE;
      if free < n {
        forall i: nat ensures !Place(v, frame, n, align, i) { TooFew(v, frame, n, align, i); }
        return None;
      }
      var i: nat := 0;
      while i + n <= nframes
        invariant View() == v && Valid()
        invariant forall j: nat :: j < i ==> !Place(v, frame, n, align, j)
        decreases nframes - i
      {
        var misalign := (frame + i) % align;
        if misalign != 0 {
          forall j: nat | j < i + (align - misalign) ensures !Place(v, frame, n, align, j) {
            if j >= i { NoMultipleBetween(frame + i, align, frame + j); }
          }
          i := i + (align - misalign);
        } else {
          var j := FirstUsed(i, n);
          if j < n {
            assert forall k: nat :: i <= k <= i + j ==> !AllFree(v, k, n);
            i := i + j + 1;
          } else {
            SetRange(i, i + n, true);
            assert Place(v, frame, n, align, i) && Takes(v, i, n, View());
            return Some(AddrOf(i));
          }
        }
      }
      return None;
    }

    /** Offset of the first used frame of a run, or its length. */
    method FirstUsed(i: nat, n: nat) returns (j: nat)
      requires Valid() && i + n <= nframes
      ensures j <= n && AllFree(View(), i, j) && (j < n ==> View()[i + j])
    {
      j := 0;
      while j < n
        invariant j <= n && AllFree(View(), i, j)
      {
        if IsUsed(i + j) { return; }
        j := j + 1;
      }
    }

    /** Frees a block frame by frame; stops with false at a frame that is free already. Nothing
        checks the block against the tracked range: the count survives iff it lies inside. */
    method FreeFrames(addr: nat, n: nat) returns (ok: bool)
      requires Valid() && addr >= base && IndexOf(addr) + n <= 64 * bits.Length
      modifies bits, `free
      ensures Sized()
      ensures ok <==> AllUsed(old(Stored()), IndexOf(addr), n)
      ensures ok ==> Stored() == Fill(old(Stored()), IndexOf(addr), n, false) && free == old(free) + n
      ensures ok ==> (Valid() <==> n == 0 || IndexOf(addr) + n <= nframes)
      ensures ok && IndexOf(addr) + n <= nframes ==> Gives(old(View()), IndexOf(addr), n, View())
      ensures !ok ==> exists k: nat :: k < n && FreedUpTo(old(Stored()), Stored(), IndexOf(addr), k)
    {
      hide FreeCount, Unpacked;
      var first := IndexOf(addr);
      for i := first to first + n
        invariant Sized() && AllUsed(old(Stored()), first, i - first) && free == old(free) + (i - first)
        invariant Stored() == Fill(old(Stored()), first, i - first, false)
      {
        if !IsUsed(i) {
          assert FreedUpTo(old(Stored()), Stored(), first, i - first);
          return false;
        }
        SetUsed(i, false);
        assert Stored() == Fill(old(Stored()), first, i + 1 - first, false);
      }
      CountFreed(old(Stored()), nframes, first, n);
      assert n == 0 ==> Stored() == old(Stored());
      return true;
    }
  }

  /** Freeing `n` used bits of a storage adds to its first `tracked` as many as lie there. */
  lemma CountFreed(v: View, tracked: nat, first: nat, n: nat)
    requires AllUsed(v, first, n) && tracked <= |v|
    ensures var inside := if first + n <= tracked then n else if first <= tracked then tracked - first else 0;
      FreeCount(Fill(v, first, n, false)[..tracked]) == FreeCount(v[..tracked]) + inside
    ensures first + n <= tracked ==> Gives(v[..tracked], first, n, Fill(v, first, n, false)[..tracked])
  {
    hide FreeCount;
    var inside := if first + n <= tracked then n else if first <= tracked then tracked - first else 0;
    var before, after := v[..tracked], Fill(v, first, n, false)[..tracked];
    if inside == 0 {
      assert after == before;
    } else {
      assert after == Fill(before, first, inside, false);
      CountRun(after, first, inside);
      assert Fill(after, first, inside, true) == before;
    }
  }

  /** One tracked frame in a word of storage: freeing the untracked frame after it is accepted,
      and leaves a free frame counted that no search will find. */
  method StrayFree() returns (b: FrameBitmap, ok: bool)
    ensures ok && b.Sized() && b.nframes == 1 && b.free == 1 && FreeCount(b.View()) == 0 && !b.Valid()
  {
    hide FreeCount, Unpacked;
    var storage := new nat[1];
    b := new FrameBitmap(0, 1, storage);
    ghost var before := b.View();
    CountZero(before);
    ok := b.FreeFrames(FRAME_SIZE, 1);
    assert b.View() == before;
  }

  /** The frame `d` steps after `start`, round the end. */
  function Around(start: nat, d: nat, n: nat): (i: nat)
    requires start < n && d < n
    ensures i < n
  {
    if start + d < n then start + d else start + d - n
  }

  lemma AroundEnds(start: nat, t: nat, n: nat)
    requires start < n && t < n
    ensures Around(start, 0, n) == start
    ensures Around(start, if t >= start then t - start else t + n - start, n) == t
  {
  }

  lemma AroundNext(start: nat, d: nat, n: nat)
    requires start < n && d < n
    ensures d + 1 < n ==> (Around(start, d, n) + 1) % n == Around(start, d + 1, n)
  {
  }

  /** Frame `i` is free and every frame from `start` on before it, round the end, is used. */
  ghost predicate NextFree(v: View, start: nat, i: nat)
  {
    && start < |v|
    && exists d: nat ::
      d < |v| && i == Around(start, d, |v|) && !v[i] && forall j: nat :: j < d ==> v[Around(start, j, |v|)]
  }

  lemma NextFreeIsFree(v: View, start: nat, i: nat)
    requires NextFree(v, start, i)
    ensures i < |v| && !v[i]
  {
  }

  lemma TooFew(v: View, baseFrame: nat, n: nat, align: nat, i: nat)
    requires FreeCount(v) < n && align > 0
    ensures !Place(v, baseFrame, n, align, i)
  {
    if AllFree(v, i, n) { CountRun(v, i, n); }
  }

  /** The `k` frames from `first` on were used and are freed; the one after was free before. */
  ghost predicate FreedUpTo(was: View, now: View, first: nat, k: nat)
  {
    first + k < |was| && AllUsed(was, first, k) && !was[first + k] && now == Fill(was, first, k, false)
  }

  /** What is done to the bitmap: a client gets a block or gives one back, or a range is marked
      free or used. */
  datatype Act = Got(i: nat, n: nat) | Gave(i: nat, n: nat) | Marked(i: nat, n: nat, used: bool)

  /** The bitmap, the blocks handed out, and their frames in all. */
  datatype Clients = Clients(v: View, out: set<(nat, nat)>, held: int)

  /** Blocks come from allocations, only blocks handed out are given back, and marks keep off
      them. */
  ghost predicate Step(s: Clients, a: Act, s': Clients)
  {
    match a
    case Got(i, n) => Takes(s.v, i, n, s'.v) && s'.out == s.out + {(i, n)} && s'.held == s.held + n
    case Gave(i, n) =>
      (i, n) in s.out && s'.v == Fill(s.v, i, n, false) && s'.out == s.out - {(i, n)} && s'.held == s.held - n
    case Marked(i, n, used) =>
      (forall b :: b in s.out ==> Apart(b, (i, n))) && s'.v == Fill(s.v, i, n, used) && s'.out == s.out
        && s'.held == s.held
  }

  ghost predicate Apart(a: (nat, nat), b: (nat, nat)) { a.0 + a.1 <= b.0 || b.0 + b.1 <= a.0 }

  ghost predicate Disjoint(s: Clients)
  {
    && (forall b :: b in s.out ==> b.1 > 0 && AllUsed(s.v, b.0, b.1))
    && (forall a, b :: a in s.out && b in s.out && a != b ==> Apart(a, b))
  }

  ghost predicate IsRun(states: seq<Clients>, acts: seq<Act>)
  {
    |states| == |acts| + 1 && forall k :: 0 <= k < |acts| ==> Step(states[k], acts[k], states[k + 1])
  }

  lemma StepKeepsDisjoint(s: Clients, a: Act, s': Clients)
    requires Disjoint(s) && Step(s, a, s')
    ensures Disjoint(s')
    ensures !a.Marked? ==> FreeCount(s'.v) + s'.held == FreeCount(s.v) + s.held
  {
    hide FreeCount;
    match a
    case Got(i, n) =>
      CountRun(s.v, i, n);
      forall b | b in s.out ensures Apart(b, (i, n)) {
        assert s.v[b.0] && !s.v[i];
      }
    case Gave(i, n) =>
      CountRun(s'.v, i, n);
      assert Fill(s'.v, i, n, true) == s.v;
      forall b | b in s'.out ensures AllUsed(s'.v, b.0, b.1) { assert Apart(b, (i, n)); }
    case Marked(i, n, used) =>
      forall b | b in s'.out ensures AllUsed(s'.v, b.0, b.1) { assert Apart(b, (i, n)); }
  }

  /** Over every run of allocations, frees and marks, from any bitmap, blocks handed out stay
      used and disjoint, so giving one back never finds it free; and between marks free and held
      frames are conserved. */
  lemma {:induction false} RunsDisjoint(states: seq<Clients>, acts: seq<Act>, k: nat)
    requires IsRun(states, acts) && k < |states| && states[0].out == {}
    ensures Disjoint(states[k])
    ensures (forall j :: 0 <= j < k ==> !acts[j].Marked?) ==>
      FreeCount(states[k].v) + states[k].held == FreeCount(states[0].v) + states[0].held
    ensures k < |acts| && acts[k].Gave? ==> Gives(states[k].v, acts[k].i, acts[k].n, states[k + 1].v)
    decreases k
  {
    if k > 0 {
      RunsDisjoint(states, acts, k - 1);
      StepKeepsDisjoint(states[k - 1], acts[k - 1], states[k]);
    }
    if k < |acts| && acts[k].Gave? { assert Step(states[k], acts[k], states[k + 1]); }
  }
}
