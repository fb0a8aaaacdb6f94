/** Cheney evacuation: copy everything reachable from the roots into to-space, leaving a
    forwarding word in each old header, then scan the copies and redirect their slots. */
module Evacuation {
  import opened Basics
  import opened Terms
  import opened Heaps

  /** What a collection starts from: the memory, its objects, the free words
      `[lo, hi)` of to-space, and the root words. */
  datatype Space = Space(mem: seq<Word>, objs: set<nat>, lo: nat, hi: nat, roots: seq<Word>)

  /** The copies made so far: `order[i]` is the old address of the object now at
      `place[i]`; `place` has one more entry, the bump pointer. */
  datatype Trace = Trace(order: seq<nat>, place: seq<nat>)

  /** Each object is whole, outside to-space, overlaps no other, refers to objects only,
      and has immediate keys if it is a map. */
  ghost predicate Object(g: Space, a: nat)
  {
    && a < |g.mem|
    && ValidKind(g.mem[a])
    && a + Size(g.mem[a]) <= |g.mem|
    && Outside(g.lo, g.hi).Fits(a, Size(g.mem[a]))
    && (forall k :: a + FirstSlot(g.mem[a]) <= k < a + Size(g.mem[a]) && IsBoxed(g.mem[k]) ==> g.mem[k] / 8 in g.objs)
    && (g.mem[a] % 8 == KIND_MAP ==> forall k :: a < k < a + FirstSlot(g.mem[a]) ==> IsImmediate(g.mem[k]))
  }

  ghost predicate Apart(g: Space, a: nat, b: nat)
    requires a < |g.mem|
  {
    a < b ==> a + Size(g.mem[a]) <= b
  }

  ghost predicate WellFormed(g: Space)
  {
    && g.lo <= g.hi <= |g.mem|
    && (forall a :: a in g.objs ==> Object(g, a))
    && (forall a, b :: a in g.objs && b in g.objs ==> Apart(g, a, b))
    && (forall i :: 0 <= i < |g.roots| && IsBoxed(g.roots[i]) ==> g.roots[i] / 8 in g.objs)
  }

  ghost predicate Edge(g: Space, a: nat, b: nat)
  {
    && a < |g.mem|
    && a + Size(g.mem[a]) <= |g.mem|
    && exists k :: a + FirstSlot(g.mem[a]) <= k < a + Size(g.mem[a]) && g.mem[k] == 8 * b
  }

  ghost predicate Path(g: Space, p: seq<nat>)
  {
    && |p| > 0
    && 8 * p[0] in g.roots
    && forall i :: 0 <= i < |p| - 1 ==> Edge(g, p[i], p[i + 1])
  }

  ghost predicate Reachable(g: Space, a: nat)
  {
    exists p :: Path(g, p) && p[|p| - 1] == a
  }

  ghost function Live(g: Space): set<nat> { set a | a in g.objs && Reachable(g, a) }

  /** Copy `i` is of a live object and ends where the next one starts. */
  ghost predicate Entry(g: Space, t: Trace, i: nat)
    requires i < |t.order| < |t.place|
  {
    && t.order[i] in g.objs
    && Reachable(g, t.order[i])
    && Object(g, t.order[i])
    && g.lo <= t.place[i]
    && t.place[i + 1] == t.place[i] + Size(g.mem[t.order[i]])
    && t.place[i + 1] <= t.place[|t.order|]
  }

  /** Copy `i` is of another object than copy `j` and ends before it starts. */
  ghost predicate Before(t: Trace, i: nat, j: nat)
    requires i < j < |t.order| < |t.place|
  {
    t.order[i] != t.order[j] && t.place[i + 1] <= t.place[j]
  }

  /** Copies are laid out back to back from `lo`, no object twice, live objects only. */
  ghost predicate Layout(g: Space, t: Trace)
  {
    && |t.place| == |t.order| + 1
    && t.place[0] == g.lo <= t.place[|t.order|] <= g.hi
    && (forall i :: 0 <= i < |t.order| ==> Entry(g, t, i))
    && (forall i, j :: 0 <= i < j < |t.order| ==> Before(t, i, j))
  }

  /** `w'` is `w` with a pointer redirected to the copy. */
  ghost predicate Forwarded(t: Trace, w: Word, w': Word)
  {
    if IsBoxed(w) then exists i :: 0 <= i < |t.order| < |t.place| && t.order[i] == w / 8 && w' == 8 * t.place[i]
    else w' == w
  }

  /** Word `j` of copy `i` is the old word, redirected once the scan has passed it. */
  ghost predicate Cell(g: Space, m: seq<Word>, t: Trace, scan: nat, i: nat, j: nat)
    requires i < |t.order| < |t.place|
  {
    && t.order[i] < |g.mem|
    && t.order[i] + j < |g.mem|
    && t.place[i] + j < |m|
    && if FirstSlot(g.mem[t.order[i]]) <= j && t.place[i] + j < scan
       then Forwarded(t, g.mem[t.order[i] + j], m[t.place[i] + j])
       else m[t.place[i] + j] == g.mem[t.order[i] + j]
  }

  ghost predicate Copies(g: Space, m: seq<Word>, t: Trace, scan: nat)
    requires |t.order| < |t.place|
  {
    forall i, j :: 0 <= i < |t.order| && InCopy(t, i, j) ==> Cell(g, m, t, scan, i, j)
  }

  ghost predicate InCopy(t: Trace, i: nat, j: nat)
    requires i < |t.order| < |t.place|
  {
    t.place[i] + j < t.place[i + 1]
  }

  ghost predicate HeaderForwarded(m: seq<Word>, t: Trace, i: nat)
    requires i < |t.order| < |t.place|
  {
    t.order[i] < |m| && m[t.order[i]] == 8 * t.place[i] + KIND_FWD
  }

  ghost predicate Kept(g: Space, m: seq<Word>, t: Trace, k: nat)
  {
    k < |m| == |g.mem| && (k in t.order || m[k] == g.mem[k])
  }

  /** Outside to-space only the headers of copied objects changed, to forwarding words. */
  ghost predicate Headers(g: Space, m: seq<Word>, t: Trace)
    requires |t.order| < |t.place|
  {
    && |m| == |g.mem|
    && (forall k :: 0 <= k < |m| && !(g.lo <= k < g.hi) ==> Kept(g, m, t, k))
    && (forall i :: 0 <= i < |t.order| ==> HeaderForwarded(m, t, i))
  }

  ghost predicate Inv(g: Space, m: seq<Word>, t: Trace, scan: nat)
  {
    WellFormed(g) && Layout(g, t) && Headers(g, m, t) && Copies(g, m, t, scan) && scan <= t.place[|t.order|]
  }

  ghost predicate Extends(t: Trace, t': Trace)
  {
    t.order <= t'.order && t.place <= t'.place
  }

  lemma ForwardedExtends(t: Trace, t': Trace, w: Word, w': Word)
    requires Forwarded(t, w, w') && Extends(t, t') && |t'.order| < |t'.place|
    ensures Forwarded(t', w, w')
  {
    if IsBoxed(w) {
      var i :| 0 <= i < |t.order| < |t.place| && t.order[i] == w / 8 && w' == 8 * t.place[i];
      assert t'.order[i] == t.order[i] && t'.place[i] == t.place[i];
    }
  }

  ghost function Extend(g: Space, t: Trace, a: nat): Trace
    requires a < |g.mem| && |t.place| == |t.order| + 1
  {
    Trace(t.order + [a], t.place + [t.place[|t.order|] + Size(g.mem[a])])
  }

  lemma ExtendLayout(g: Space, t: Trace, a: nat)
    requires WellFormed(g) && Layout(g, t) && a in g.objs && Reachable(g, a) && a !in t.order
    requires t.place[|t.order|] + Size(g.mem[a]) <= g.hi
    ensures Layout(g, Extend(g, t, a)) && Extends(t, Extend(g, t, a))
  {
    hide Reachable;
    assert Object(g, a);
    var t' := Extend(g, t, a);
    forall i | 0 <= i < |t'.order| ensures Entry(g, t', i) {
      if i < |t.order| { assert Entry(g, t, i); }
    }
    forall i, j | 0 <= i < j < |t'.order| ensures Before(t', i, j) {
      if j < |t.order| { assert Before(t, i, j); } else { assert Entry(g, t, i); }
    }
  }

  /** An object not yet copied still reads as it did at the start. */
  lemma Untouched(g: Space, m: seq<Word>, t: Trace, a: nat, k: nat)
    requires WellFormed(g) && Layout(g, t) && Headers(g, m, t) && a in g.objs && a !in t.order
    requires a <= k < a + Size(g.mem[a])
    ensures k < |m| && m[k] == g.mem[k]
  {
    hide Reachable;
    assert Object(g, a);
    assert Kept(g, m, t, k);
    forall i | 0 <= i < |t.order| ensures t.order[i] != k {
      assert Entry(g, t, i) && Apart(g, a, t.order[i]);
    }
  }

  /** The memory after one object at `a` is copied to `top` and its header forwarded. */
  ghost predicate CopiedTo(m: seq<Word>, m': seq<Word>, a: nat, top: nat, n: nat)
  {
    && |m'| == |m| && a + n <= |m| && top + n <= |m|
    && (forall k :: 0 <= k < n ==> Moved(m, m', a, top, k))
    && (forall k :: 0 <= k < |m| && k != a && !(top <= k < top + n) ==> m'[k] == m[k])
    && a < |m| && m'[a] == 8 * top + KIND_FWD
  }

  ghost predicate Moved(m: seq<Word>, m': seq<Word>, a: nat, top: nat, k: nat)
  {
    a + k < |m| && top + k < |m'| && m'[top + k] == m[a + k]
  }

  lemma CopyHeaders(g: Space, m: seq<Word>, m': seq<Word>, t: Trace, scan: nat, a: nat)
    requires Inv(g, m, t, scan) && a in g.objs && Reachable(g, a) && a !in t.order
    requires t.place[|t.order|] + Size(g.mem[a]) <= g.hi
    requires CopiedTo(m, m', a, t.place[|t.order|], Size(g.mem[a]))
    ensures Headers(g, m', Extend(g, t, a))
  {
    hide Reachable, Copies;
    var t' := Extend(g, t, a);
    assert Object(g, a);
    forall i | 0 <= i < |t'.order| ensures HeaderForwarded(m', t', i) {
      if i < |t.order| { assert Entry(g, t, i) && HeaderForwarded(m, t, i); }
    }
    forall k | 0 <= k < |m'| && !(g.lo <= k < g.hi) ensures Kept(g, m', t', k) {
      assert Kept(g, m, t, k);
      if k in t.order { assert k in t'.order; }
      assert t'.order[|t.order|] == a;
    }
  }

  lemma CopyCells(g: Space, m: seq<Word>, m': seq<Word>, t: Trace, scan: nat, a: nat)
    requires Inv(g, m, t, scan) && a in g.objs && Reachable(g, a) && a !in t.order
    requires t.place[|t.order|] + Size(g.mem[a]) <= g.hi
    requires CopiedTo(m, m', a, t.place[|t.order|], Size(g.mem[a]))
    ensures Copies(g, m', Extend(g, t, a), scan)
  {
    hide Reachable;
    var t', top := Extend(g, t, a), t.place[|t.order|];
    assert Object(g, a);
    forall i, j | 0 <= i < |t'.order| && InCopy(t', i, j) ensures Cell(g, m', t', scan, i, j) {
      if i < |t.order| {
        OldCell(g, m, m', t, scan, a, i, j);
      } else {
        Untouched(g, m, t, a, a + j);
        assert Moved(m, m', a, top, j);
      }
    }
  }

  lemma OldCell(g: Space, m: seq<Word>, m': seq<Word>, t: Trace, scan: nat, a: nat, i: nat, j: nat)
    requires Inv(g, m, t, scan) && a in g.objs
    requires CopiedTo(m, m', a, t.place[|t.order|], Size(g.mem[a]))
    requires i < |t.order| && t.place[i] + j < t.place[i + 1]
    ensures Cell(g, m', Extend(g, t, a), scan, i, j)
  {
    hide Reachable, Cell, Headers;
    assert Object(g, a) && Entry(g, t, i);
    assert InCopy(t, i, j) && Cell(g, m, t, scan, i, j);
    assert m'[t.place[i] + j] == m[t.place[i] + j];
    CellStable(g, m, m', t, Extend(g, t, a), scan, i, j);
  }

  lemma CellStable(g: Space, m: seq<Word>, m': seq<Word>, t: Trace, t': Trace, scan: nat, i: nat, j: nat)
    requires i < |t.order| < |t.place| && |t'.order| < |t'.place| && Extends(t, t') && Cell(g, m, t, scan, i, j)
    requires t.place[i] + j < |m'| && m'[t.place[i] + j] == m[t.place[i] + j]
    ensures Cell(g, m', t', scan, i, j)
  {
    if FirstSlot(g.mem[t.order[i]]) <= j && t.place[i] + j < scan {
      ForwardedExtends(t, t', g.mem[t.order[i] + j], m[t.place[i] + j]);
    }
  }

  lemma CopyKeepsInv(g: Space, m: seq<Word>, m': seq<Word>, t: Trace, scan: nat, a: nat)
    requires Inv(g, m, t, scan) && a in g.objs && Reachable(g, a) && a !in t.order
    requires t.place[|t.order|] + Size(g.mem[a]) <= g.hi
    requires CopiedTo(m, m', a, t.place[|t.order|], Size(g.mem[a]))
    ensures Inv(g, m', Extend(g, t, a), scan) && Extends(t, Extend(g, t, a))
  {
    hide Reachable, WellFormed, Copies, Headers, CopiedTo;
    ExtendLayout(g, t, a);
    CopyHeaders(g, m, m', t, scan, a);
    CopyCells(g, m, m', t, scan, a);
  }

  /** Redirecting the slot under the scan pointer moves the scan past it. */
  lemma SlotKeepsInv(g: Space, m: seq<Word>, m': seq<Word>, t: Trace, scan: nat, i: nat, j: nat)
    requires Inv(g, m, t, scan) && i < |t.order| && Entry(g, t, i) && scan == t.place[i] + j < t.place[i + 1]
    requires |m'| == |m| && forall k :: 0 <= k < |m| && k != scan ==> m'[k] == m[k]
    requires scan < |m'| && FirstSlot(g.mem[t.order[i]]) <= j && Forwarded(t, g.mem[t.order[i] + j], m'[scan])
    ensures Inv(g, m', t, scan + 1)
  {
    hide Reachable, WellFormed;
    forall i', j' | 0 <= i' < |t.order| && InCopy(t, i', j') ensures Cell(g, m', t, scan + 1, i', j') {
      assert Cell(g, m, t, scan, i', j');
      if t.place[i'] + j' == scan { SamePlace(g, t, i, j, i', j'); }
    }
    SlotHeaders(g, m, m', t, scan);
  }

  lemma SamePlace(g: Space, t: Trace, i: nat, j: nat, i': nat, j': nat)
    requires Layout(g, t) && i < |t.order| && i' < |t.order| && t.place[i] + j == t.place[i'] + j'
    requires t.place[i] + j < t.place[i + 1] && t.place[i'] + j' < t.place[i' + 1]
    ensures i == i' && j == j'
  {
    assert i < i' ==> Before(t, i, i');
    assert i' < i ==> Before(t, i', i);
  }

  lemma SlotHeaders(g: Space, m: seq<Word>, m': seq<Word>, t: Trace, k: nat)
    requires Layout(g, t) && Headers(g, m, t) && g.lo <= k < g.hi
    requires |m'| == |m| && forall k' :: 0 <= k' < |m| && k' != k ==> m'[k'] == m[k']
    ensures Headers(g, m', t)
  {
    hide Reachable;
    forall i | 0 <= i < |t.order| ensures HeaderForwarded(m', t, i) {
      assert Entry(g, t, i) && HeaderForwarded(m, t, i);
    }
    forall k | 0 <= k < |m'| && !(g.lo <= k < g.hi) ensures Kept(g, m', t, k) {
      assert Kept(g, m, t, k);
    }
  }

  /** Words that hold no terms need no redirecting. */
  lemma SkipKeepsInv(g: Space, m: seq<Word>, t: Trace, i: nat)
    requires i < |t.order| < |t.place| && Inv(g, m, t, t.place[i])
    ensures Entry(g, t, i) && Inv(g, m, t, t.place[i] + FirstSlot(g.mem[t.order[i]]))
  {
    hide Reachable, WellFormed, Headers;
    assert Entry(g, t, i);
    var scan := t.place[i] + FirstSlot(g.mem[t.order[i]]);
    forall i', j' | 0 <= i' < |t.order| && InCopy(t, i', j') ensures Cell(g, m, t, scan, i', j') {
      assert Cell(g, m, t, t.place[i], i', j');
      if i' < i { assert Before(t, i', i); }
      if i < i' { assert Before(t, i, i'); }
    }
  }

  lemma ReachStep(g: Space, a: nat, b: nat)
    requires Reachable(g, a) && Edge(g, a, b)
    ensures Reachable(g, b)
  {
    var p :| Path(g, p) && p[|p| - 1] == a;
    var q := p + [b];
    forall i | 0 <= i < |q| - 1 ensures Edge(g, q[i], q[i + 1]) {
      if i < |p| - 1 { assert Edge(g, p[i], p[i + 1]); }
    }
    assert Path(g, q) && q[|q| - 1] == b;
  }

  lemma ReachRoot(g: Space, i: nat)
    requires WellFormed(g) && i < |g.roots| && IsBoxed(g.roots[i])
    ensures g.roots[i] / 8 in g.objs && Reachable(g, g.roots[i] / 8)
  {
    var p := [g.roots[i] / 8];
    assert 8 * p[0] == g.roots[i];
    assert Path(g, p) && p[|p| - 1] == g.roots[i] / 8;
  }

  /** What a term slot of a copied object refers to is live. */
  lemma SlotLive(g: Space, t: Trace, i: nat, j: nat)
    requires WellFormed(g) && i < |t.order| < |t.place| && Entry(g, t, i)
    requires FirstSlot(g.mem[t.order[i]]) <= j < Size(g.mem[t.order[i]]) && IsBoxed(g.mem[t.order[i] + j])
    ensures g.mem[t.order[i] + j] / 8 in g.objs && Reachable(g, g.mem[t.order[i] + j] / 8)
  {
    hide Reachable;
    var b := g.mem[t.order[i] + j] / 8;
    assert g.mem[t.order[i] + j] == 8 * b;
    assert Edge(g, t.order[i], b);
    ReachStep(g, t.order[i], b);
  }

  /** The next live object that does not fit; why a collection gives up. */
  ghost predicate NoRoom(g: Space, t: Trace, a: nat)
  {
    && a in g.objs && Reachable(g, a) && a !in t.order
    && a < |g.mem| && |t.order| < |t.place|
    && t.place[|t.order|] + Size(g.mem[a]) > g.hi
  }

  ghost predicate Ready(g: Space, to: Heap, t: Trace, scan: nat)
    reads to, to.mem
  {
    && to.Valid() && to.base + to.cap == g.hi
    && Inv(g, to.mem[..], t, scan)
    && to.base + to.top == t.place[|t.order|]
  }

  /** What a header's kind bits say, read in the current memory. */
  lemma HeaderSays(g: Space, m: seq<Word>, t: Trace, scan: nat, a: nat)
    requires Inv(g, m, t, scan) && a in g.objs
    ensures a < |m| && (m[a] % 8 == KIND_FWD <==> a in t.order)
    ensures a in t.order ==> Forwarded(t, 8 * a, m[a] - KIND_FWD)
    ensures a !in t.order
      ==> m[a] == g.mem[a] && ValidKind(m[a]) && a + Size(m[a]) <= |m| && Outside(g.lo, g.hi).Fits(a, Size(m[a]))
  {
    hide Reachable, Copies;
    assert Object(g, a);
    if a in t.order {
      var i :| 0 <= i < |t.order| && t.order[i] == a;
      assert HeaderForwarded(m, t, i);
    } else {
      Untouched(g, m, t, a, a);
    }
  }

  /** Shallow-copy one object, or follow its forwarding word. */
  method EvacOne(w: Word, to: Heap, ghost g: Space, ghost t: Trace, ghost scan: nat)
    returns (r: Option<Word>, ghost t': Trace, ghost miss: nat)
    requires Ready(g, to, t, scan)
    requires IsBoxed(w) ==> w / 8 in g.objs && Reachable(g, w / 8)
    modifies to`top, to.mem
    ensures Ready(g, to, t', scan) && Extends(t, t')
    ensures r.Some? ==> Forwarded(t', w, r.value)
    ensures r.None? ==> NoRoom(g, t', miss)
  {
    hide Inv, Reachable, Forwarded, CopiedTo, Agree, Object, Extends;
    miss := w / 8;
    ExtendsSelf(t);
    if !IsBoxed(w) {
      ForwardedImmediate(t, w);
      return Some(w), t, miss;
    }
    var a := w / 8;
    HeaderSays(g, to.mem[..], t, scan, a);
    LayoutFacts(g, to.mem[..], t, scan);
    var header := to.mem[a];
    if header % 8 == KIND_FWD {
      return Some(header - KIND_FWD), t, miss;
    }
    var words := if header % 8 == KIND_TUPLE then 1 + header / 8
                 else if header % 8 == KIND_CONS then 3
                 else if header % 8 == KIND_BINARY then 1 + DivCeil(header / 8, 8)
                 else 1 + 2 * (header / 8);
    ghost var m := to.mem[..];
    var dst := MoveObject(to, a, words);
    if dst.None? { return None, t, miss; }
    CopyKeepsInv(g, m, to.mem[..], t, scan, a);
    t' := Extend(g, t, a);
    ForwardedLast(t', a);
    return Some(8 * dst.value), t', miss;
  }

  /** Copies the `n` words of an object to the top of `to` and forwards its header. */
  method MoveObject(to: Heap, a: nat, n: nat) returns (dst: Option<nat>)
    requires to.Valid() && n > 0 && a + n <= to.mem.Length && Outside(to.base + to.top, to.base + to.cap).Fits(a, n)
    modifies to`top, to.mem
    ensures to.Valid() && (dst.Some? <==> old(to.top) + n <= to.cap)
    ensures dst.None? ==> to.top == old(to.top) && to.mem[..] == old(to.mem[..])
    ensures dst.Some? ==> dst.value == to.base + old(to.top) && to.top == old(to.top) + n
    ensures dst.Some? ==> CopiedTo(old(to.mem[..]), to.mem[..], a, dst.value, n)
  {
    hide Agree, CopiedTo;
    ghost var m := to.mem[..];
    dst := to.Alloc(n);
    if dst.None? { return; }
    CopyWords(to.mem, a, dst.value, n);
    ghost var m1 := to.mem[..];
    to.mem[a] := 8 * dst.value + KIND_FWD;
    MovedTo(m, m1, to.mem[..], a, dst.value, n);
  }

  lemma SizePositive(g: Space, a: nat)
    requires Object(g, a)
    ensures a < |g.mem| && 1 <= FirstSlot(g.mem[a]) <= Size(g.mem[a])
  {
  }

  lemma ExtendsSelf(t: Trace)
    ensures Extends(t, t)
  {
  }

  lemma ForwardedImmediate(t: Trace, w: Word)
    requires !IsBoxed(w)
    ensures Forwarded(t, w, w)
  {
  }

  lemma ForwardedLast(t: Trace, a: nat)
    requires 0 < |t.order| < |t.place| && t.order[|t.order| - 1] == a
    ensures Forwarded(t, 8 * a, 8 * t.place[|t.order| - 1])
  {
  }

  lemma LayoutFacts(g: Space, m: seq<Word>, t: Trace, scan: nat)
    requires Inv(g, m, t, scan)
    ensures |t.place| == |t.order| + 1 && g.lo <= t.place[|t.order|] <= g.hi <= |m| == |g.mem|
      && scan <= t.place[|t.order|]
  {
    hide Reachable, Copies;
  }

  lemma MovedTo(m: seq<Word>, m1: seq<Word>, m2: seq<Word>, a: nat, top: nat, n: nat)
    requires |m| == |m1| && a < a + n <= |m| && top + n <= |m| && (a + n <= top || top + n <= a)
    requires m1[top..top + n] == m[a..a + n] && Agree(m, m1, Outside(top, top + n))
    requires m2 == m1[a := 8 * top + KIND_FWD]
    ensures CopiedTo(m, m2, a, top, n)
  {
    forall k | 0 <= k < n ensures Moved(m, m2, a, top, k) {
      assert m1[top..top + n][k] == m[a..a + n][k];
    }
  }

  /** Redirects the `n` term slots of copy `i`, copying what they refer to as needed. */
  method ScanSlots(to: Heap, at: nat, n: nat, ghost g: Space, ghost t: Trace, ghost i: nat)
    returns (ok: bool, ghost t': Trace, ghost miss: nat)
    requires Ready(g, to, t, at) && i < |t.order| && Entry(g, t, i)
    requires at == t.place[i] + FirstSlot(g.mem[t.order[i]]) && at + n == t.place[i + 1]
    modifies to`top, to.mem
    ensures exists q :: Ready(g, to, t', q)
    ensures Extends(t, t')
    ensures ok ==> Ready(g, to, t', at + n)
    ensures !ok ==> NoRoom(g, t', miss)
  {
    hide Inv, Reachable, Forwarded, Object;
    t', miss := t, 0;
    var k := 0;
    SizePositive(g, t.order[i]);
    LayoutFacts(g, to.mem[..], t, at);
    ExtendsSelf(t);
    ghost var first := FirstSlot(g.mem[t.order[i]]);
    while k < n
      invariant 0 <= k <= n && Ready(g, to, t', at + k) && Extends(t, t')
    {
      UnscannedSlot(g, to.mem[..], t', t, at + k, i, first + k);
      ghost var t1 := t';
      var r;
      r, t', miss := EvacOne(to.mem[at + k], to, g, t', at + k);
      if r.None? { return false, t', miss; }
      ghost var m := to.mem[..];
      LayoutFacts(g, m, t', at + k);
      to.mem[at + k] := r.value;
      EntryStable(g, t, t', m, at + k, i);
      SlotKeepsInv(g, m, to.mem[..], t', at + k, i, first + k);
      k := k + 1;
    }
    return true, t', miss;
  }

  lemma EntryStable(g: Space, t: Trace, t': Trace, m: seq<Word>, scan: nat, i: nat)
    requires Inv(g, m, t', scan) && Extends(t, t') && i < |t.order| < |t.place|
    ensures i < |t'.order| && Entry(g, t', i) && t'.order[i] == t.order[i] && t'.place[i] == t.place[i]
      && t'.place[i + 1] == t.place[i + 1]
  {
    hide Reachable, WellFormed, Copies, Headers, Entry;
  }

  /** Ahead of the scan a slot still holds the old word. */
  lemma UnscannedSlot(g: Space, m: seq<Word>, t': Trace, t: Trace, scan: nat, i: nat, j: nat)
    requires Inv(g, m, t', scan) && Extends(t, t') && i < |t.order| < |t.place|
    requires t.order[i] < |g.mem| && FirstSlot(g.mem[t.order[i]]) <= j && scan == t.place[i] + j < t.place[i + 1]
    ensures scan < |m| && t.order[i] + j < |g.mem| && m[scan] == g.mem[t.order[i] + j]
    ensures IsBoxed(m[scan]) ==> m[scan] / 8 in g.objs && Reachable(g, m[scan] / 8)
  {
    hide Reachable, Headers;
    EntryStable(g, t, t', m, scan, i);
    assert InCopy(t', i, j) && Cell(g, m, t', scan, i, j);
    if IsBoxed(m[scan]) { SlotLive(g, t', i, j); }
  }

  ghost function SizeAt(g: Space, a: nat): nat { if a < |g.mem| then Size(g.mem[a]) else 0 }

  /** Words the objects in `S` occupy together. */
  ghost function Total(g: Space, S: set<nat>): nat
    decreases |S|
  {
    if S == {} then 0 else
      var a :| a in S;
      SizeAt(g, a) + Total(g, S - {a})
  }

  lemma {:induction false} TotalRemove(g: Space, S: set<nat>, a: nat)
    requires a in S
    ensures Total(g, S) == SizeAt(g, a) + Total(g, S - {a})
    decreases |S|
  {
    var b :| b in S && Total(g, S) == SizeAt(g, b) + Total(g, S - {b});
    if a != b {
      TotalRemove(g, S - {b}, a);
      TotalRemove(g, S - {a}, b);
      assert S - {b} - {a} == S - {a} - {b};
    }
  }

  lemma {:induction false} TotalSubset(g: Space, S: set<nat>, S': set<nat>)
    requires S <= S'
    ensures Total(g, S) <= Total(g, S')
    decreases |S|
  {
    if S != {} {
      var a :| a in S;
      TotalRemove(g, S, a);
      TotalRemove(g, S', a);
      TotalSubset(g, S - {a}, S' - {a});
    }
  }

  ghost function Elems(s: seq<nat>): set<nat> { set x | x in s }

  /** The bump pointer has moved by exactly the sizes of the objects copied. */
  lemma {:induction false} TopIsTotal(g: Space, t: Trace, n: nat)
    requires Layout(g, t) && n <= |t.order|
    ensures t.place[n] == g.lo + Total(g, Elems(t.order[..n]))
    ensures |Elems(t.order[..n])| == n
  {
    hide Reachable, Total, Elems;
    TotalNone(g, t.order);
    if n > 0 {
      TopIsTotal(g, t, n - 1);
      assert Entry(g, t, n - 1);
      NotCopiedBefore(g, t, n - 1);
      TotalSnoc(g, t.order, n - 1);
    }
  }

  lemma TotalNone(g: Space, s: seq<nat>)
    ensures Elems(s[..0]) == {} && Total(g, Elems(s[..0])) == 0
  {
  }

  lemma TotalSnoc(g: Space, s: seq<nat>, n: nat)
    requires n < |s| && s[n] !in s[..n]
    ensures Total(g, Elems(s[..n + 1])) == Total(g, Elems(s[..n])) + SizeAt(g, s[n])
    ensures |Elems(s[..n + 1])| == |Elems(s[..n])| + 1
  {
    hide Total;
    assert Elems(s[..n + 1]) == Elems(s[..n]) + {s[n]};
    assert Elems(s[..n + 1]) - {s[n]} == Elems(s[..n]);
    TotalRemove(g, Elems(s[..n + 1]), s[n]);
  }

  lemma NotCopiedBefore(g: Space, t: Trace, n: nat)
    requires Layout(g, t) && n < |t.order|
    ensures t.order[n] !in t.order[..n]
  {
    forall i | 0 <= i < n ensures t.order[..n][i] != t.order[n] { assert Before(t, i, n); }
  }

  lemma CopiedAreLive(g: Space, t: Trace)
    requires Layout(g, t)
    ensures Elems(t.order) <= Live(g) <= g.objs && |t.order| <= |g.objs|
    ensures t.place[|t.order|] == g.lo + Total(g, Elems(t.order))
  {
    forall a | a in t.order ensures a in Live(g) {
      var i :| 0 <= i < |t.order| && t.order[i] == a;
      assert Entry(g, t, i);
    }
    assert t.order[..|t.order|] == t.order;
    TopIsTotal(g, t, |t.order|);
    SubsetSize(Elems(t.order), g.objs);
  }

  lemma {:induction false} SubsetSize(A: set<nat>, B: set<nat>)
    requires A <= B
    ensures |A| <= |B|
    decreases |A|
  {
    if A != {} {
      var a :| a in A;
      SubsetSize(A - {a}, B - {a});
    }
  }

  /** A collection only gives up when the live objects really do not fit. */
  lemma GivesUpRightly(g: Space, t: Trace, a: nat)
    requires Layout(g, t) && NoRoom(g, t, a)
    ensures g.lo + Total(g, Live(g)) > g.hi
  {
    CopiedAreLive(g, t);
    assert Elems(t.order) + {a} - {a} == Elems(t.order);
    TotalRemove(g, Elems(t.order) + {a}, a);
    TotalSubset(g, Elems(t.order) + {a}, Live(g));
  }

  /** The result of a collection: the live objects, each copied once and redirected. */
  ghost predicate Evacuated(g: Space, m: seq<Word>, t: Trace, roots: seq<Word>)
  {
    && |t.place| == |t.order| + 1
    && Inv(g, m, t, t.place[|t.order|])
    && Elems(t.order) == Live(g)
    && |roots| == |g.roots|
    && forall i :: 0 <= i < |roots| ==> Forwarded(t, g.roots[i], roots[i])
  }

  /** Once roots and copies are all redirected, everything live has been copied. */
  lemma {:induction false} PathCopied(g: Space, m: seq<Word>, t: Trace, roots: seq<Word>, p: seq<nat>)
    requires |t.place| == |t.order| + 1 && Inv(g, m, t, t.place[|t.order|]) && |roots| == |g.roots| && Path(g, p)
    requires forall i :: 0 <= i < |roots| ==> Forwarded(t, g.roots[i], roots[i])
    ensures p[|p| - 1] in t.order
    decreases |p|
  {
    hide Reachable, Inv;
    if |p| == 1 {
      var i :| 0 <= i < |g.roots| && g.roots[i] == 8 * p[0];
      assert Forwarded(t, g.roots[i], roots[i]);
    } else {
      var q := p[..|p| - 1];
      PathCopied(g, m, t, roots, q);
      assert Edge(g, p[|p| - 2], p[|p| - 1]);
      EdgeCopied(g, m, t, p[|p| - 2], p[|p| - 1]);
    }
  }

  lemma EdgeCopied(g: Space, m: seq<Word>, t: Trace, a: nat, b: nat)
    requires |t.place| == |t.order| + 1 && Inv(g, m, t, t.place[|t.order|]) && a in t.order && Edge(g, a, b)
    ensures b in t.order
  {
    hide Reachable, Headers, WellFormed;
    var i :| 0 <= i < |t.order| && t.order[i] == a;
    var k :| a + FirstSlot(g.mem[a]) <= k < a + Size(g.mem[a]) && g.mem[k] == 8 * b;
    assert Entry(g, t, i) && InCopy(t, i, k - a);
    assert Cell(g, m, t, t.place[|t.order|], i, k - a);
  }

  lemma AllCopied(g: Space, m: seq<Word>, t: Trace, roots: seq<Word>)
    requires |t.place| == |t.order| + 1 && Inv(g, m, t, t.place[|t.order|]) && |roots| == |g.roots|
    requires forall i :: 0 <= i < |roots| ==> Forwarded(t, g.roots[i], roots[i])
    ensures Elems(t.order) == Live(g) && t.place[|t.order|] == g.lo + Total(g, Live(g))
  {
    hide Forwarded, Headers, Copies;
    CopiedAreLive(g, t);
    forall a | a in Live(g) ensures a in t.order {
      var p :| Path(g, p) && p[|p| - 1] == a;
      PathCopied(g, m, t, roots, p);
    }
  }

  lemma StartInv(g: Space, t: Trace)
    requires WellFormed(g) && t == Trace([], [g.lo])
    ensures Inv(g, g.mem, t, g.lo)
  {
    forall k | 0 <= k < |g.mem| && !(g.lo <= k < g.hi) ensures Kept(g, g.mem, t, k) {}
  }

  lemma InvWellFormed(g: Space, m: seq<Word>, t: Trace, scan: nat)
    requires Inv(g, m, t, scan)
    ensures WellFormed(g) && Layout(g, t)
  {
  }

  lemma KeepForwarded(t: Trace, t': Trace, ws: seq<Word>, ws': seq<Word>, n: nat)
    requires Extends(t, t') && |t'.order| < |t'.place| && n <= |ws| && n <= |ws'|
    requires forall k :: 0 <= k < n ==> Forwarded(t, ws[k], ws'[k])
    ensures forall k :: 0 <= k < n ==> Forwarded(t', ws[k], ws'[k])
  {
    hide Forwarded, Extends;
    forall k | 0 <= k < n ensures Forwarded(t', ws[k], ws'[k]) {
      ForwardedExtends(t, t', ws[k], ws'[k]);
    }
  }

  /** Breadth-first scan: redirect the slots of each copy in turn until the scan meets the
      bump pointer. Each pass finishes one copy, and no object is copied twice. */
  method ScanAll(to: Heap, start: nat, ghost g: Space, ghost t0: Trace) returns (ok: bool, ghost t: Trace)
    requires Ready(g, to, t0, g.lo) && to.base + start == g.lo
    modifies to`top, to.mem
    ensures to.Valid() && Layout(g, t) && Extends(t0, t)
    ensures ok ==> Ready(g, to, t, to.base + to.top)
    ensures !ok ==> g.lo + Total(g, Live(g)) > g.hi
  {
    hide Inv, Reachable, WellFormed, Live, Total, Object, Extends, NoRoom;
    var scan: nat := start;
    t := t0;
    ExtendsSelf(t0);
    ghost var s, miss := 0, 0;
    InvWellFormed(g, to.mem[..], t, g.lo);
    while scan < to.top
      invariant Ready(g, to, t, to.base + scan) && Extends(t0, t) && Layout(g, t)
      invariant 0 <= s <= |t.order| && to.base + scan == t.place[s]
      decreases |g.objs| - s
    {
      ghost var t1 := t;
      CopiedAreLive(g, t);
      ScanHeader(g, to.mem[..], t, s);
      SkipKeepsInv(g, to.mem[..], t, s);
      var header := to.mem[to.base + scan];
      var first, n := 1, 0;
      if header % 8 == KIND_TUPLE {
        n := header / 8;
      } else if header % 8 == KIND_CONS {
        n := 2;
      } else if header % 8 == KIND_BINARY {
        first := 1 + DivCeil(header / 8, 8);
      } else {
        first, n := 1 + header / 8, header / 8;
      }
      ok, t, miss := ScanSlots(to, to.base + scan + first, n, g, t, s);
      ExtendsTrans(t0, t1, t);
      if !ok {
        ghost var q :| Ready(g, to, t, q);
        InvWellFormed(g, to.mem[..], t, q);
        GivesUpRightly(g, t, miss);
        return;
      }
      scan := scan + first + n;
      InvWellFormed(g, to.mem[..], t, to.base + scan);
      EntryStable(g, t1, t, to.mem[..], to.base + scan, s);
      s := s + 1;
    }
    ok := true;
    LayoutFacts(g, to.mem[..], t, to.base + scan);
  }

  lemma ExtendsTrans(t: Trace, t': Trace, t'': Trace)
    requires Extends(t, t') && Extends(t', t'')
    ensures Extends(t, t'')
  {
  }

  /** The scan pointer below the bump pointer is at the header of a copy. */
  lemma ScanHeader(g: Space, m: seq<Word>, t: Trace, s: nat)
    requires s <= |t.order| < |t.place| && Inv(g, m, t, t.place[s]) && t.place[s] < t.place[|t.order|]
    ensures s < |t.order| && Entry(g, t, s) && t.place[s] < |m| && m[t.place[s]] == g.mem[t.order[s]]
    ensures ValidKind(m[t.place[s]]) && t.place[s + 1] == t.place[s] + Size(m[t.place[s]])
  {
    hide Reachable, Headers, WellFormed;
    assert Entry(g, t, s);
    assert InCopy(t, s, 0) && Cell(g, m, t, t.place[s], s, 0);
  }

  /** Everything reachable from `roots` is copied into `to` once, in exactly the words the
      live objects occupy, and it fails only when those words are not free. */
  method Evacuate(roots: array<Word>, to: Heap, ghost g: Space) returns (ok: bool, ghost t: Trace)
    requires roots != to.mem && to.Valid()
    requires g.mem == to.mem[..] && g.roots == roots[..] && g.lo == to.base + to.top && g.hi == to.base + to.cap
    requires WellFormed(g)
    modifies roots, to`top, to.mem
    ensures to.Valid()
    ensures ok <==> old(to.top) + Total(g, Live(g)) <= to.cap
    ensures ok ==> to.top == old(to.top) + Total(g, Live(g)) && Evacuated(g, to.mem[..], t, roots[..])
  {
    hide Inv, Forwarded, Reachable, WellFormed, Live, Total, Object, Extends, NoRoom;
    var start := to.top;
    t := Trace([], [g.lo]);
    StartInv(g, t);
    ghost var miss := 0;
    var i := 0;
    while i < roots.Length
      invariant 0 <= i <= roots.Length && Ready(g, to, t, g.lo)
      invariant roots[i..] == g.roots[i..]
      invariant forall k :: 0 <= k < i ==> Forwarded(t, g.roots[k], roots[k])
    {
      assert roots[i] == roots[i..][0] == g.roots[i..][0] == g.roots[i];
      if IsBoxed(roots[i]) { ReachRoot(g, i); }
      ghost var t1 := t;
      var r;
      r, t, miss := EvacOne(roots[i], to, g, t, g.lo);
      InvWellFormed(g, to.mem[..], t, g.lo);
      if r.None? {
        GivesUpRightly(g, t, miss);
        return false, t;
      }
      KeepForwarded(t1, t, g.roots, roots[..], i);
      roots[i] := r.value;
      assert roots[i + 1..] == g.roots[i..][1..] == g.roots[i + 1..];
      i := i + 1;
    }
    ghost var t2 := t;
    ok, t := ScanAll(to, start, g, t);
    KeepForwarded(t2, t, g.roots, roots[..], |g.roots|);
    if ok {
      AllCopied(g, to.mem[..], t, roots[..]);
    }
  }

  /** No term slot of the new region, and no root, points anywhere but at a copy. */
  lemma NoPointerBack(g: Space, m: seq<Word>, t: Trace, roots: seq<Word>, i: nat, j: nat)
    requires Evacuated(g, m, t, roots) && i < |t.order| && InCopy(t, i, j) && FirstSlot(g.mem[t.order[i]]) <= j
    ensures t.place[i] + j < |m|
    ensures var w := m[t.place[i] + j]; IsBoxed(w) ==> w / 8 in t.place && g.lo <= w / 8 < t.place[|t.order|]
  {
    hide Reachable, Headers, WellFormed, Live;
    assert Cell(g, m, t, t.place[|t.order|], i, j) && Entry(g, t, i);
    ForwardedInside(g, m, t, g.mem[t.order[i] + j], m[t.place[i] + j]);
  }

  lemma ForwardedInside(g: Space, m: seq<Word>, t: Trace, w: Word, w': Word)
    requires |t.order| < |t.place| && Inv(g, m, t, t.place[|t.order|]) && Forwarded(t, w, w')
    ensures IsBoxed(w') ==> w' / 8 in t.place && g.lo <= w' / 8 < t.place[|t.order|]
    ensures IsBoxed(w) <==> IsBoxed(w')
  {
    hide Reachable, Headers, WellFormed, Copies;
    if IsBoxed(w) {
      var i :| 0 <= i < |t.order| && t.order[i] == w / 8 && w' == 8 * t.place[i];
      assert Entry(g, t, i);
      SizePositive(g, t.order[i]);
    }
  }

  /** A finished copy reads as its original: same header and raw part, redirected slots. */
  lemma CopyReads(g: Space, m: seq<Word>, t: Trace, i: nat)
    requires i < |t.order| < |t.place| && Inv(g, m, t, t.place[|t.order|])
    ensures Entry(g, t, i) && t.place[i] + Size(g.mem[t.order[i]]) <= |m| && m[t.place[i]] == g.mem[t.order[i]]
    ensures Raw(m, t.place[i]) == Raw(g.mem, t.order[i])
    ensures forall j :: FirstSlot(g.mem[t.order[i]]) <= j < Size(g.mem[t.order[i]]) ==> SlotForwarded(g, m, t, i, j)
  {
    hide Reachable, Headers, WellFormed, ByteOf;
    assert Entry(g, t, i);
    var a, p := t.order[i], t.place[i];
    assert p + Size(g.mem[a]) <= |m| by { LayoutFacts(g, m, t, t.place[|t.order|]); }
    forall j | 0 <= j < FirstSlot(g.mem[a]) ensures Moved(g.mem, m, a, p, j) {
      assert InCopy(t, i, j) && Cell(g, m, t, t.place[|t.order|], i, j);
    }
    RawSame(g.mem, m, a, p);
    forall j | FirstSlot(g.mem[a]) <= j < Size(g.mem[a]) ensures SlotForwarded(g, m, t, i, j) {
      assert InCopy(t, i, j) && Cell(g, m, t, t.place[|t.order|], i, j);
    }
  }

  ghost predicate SlotForwarded(g: Space, m: seq<Word>, t: Trace, i: nat, j: nat)
    requires i < |t.order| < |t.place|
  {
    t.order[i] + j < |g.mem| && t.place[i] + j < |m| && Forwarded(t, g.mem[t.order[i] + j], m[t.place[i] + j])
  }

  lemma RawSame(m: seq<Word>, m': seq<Word>, a: nat, p: nat)
    requires a < |m| && a + Size(m[a]) <= |m| && p + Size(m[a]) <= |m'| && ValidKind(m[a])
    requires forall j :: 0 <= j < FirstSlot(m[a]) ==> Moved(m, m', a, p, j)
    ensures p < |m'| && m'[p] == m[a] && Raw(m', p) == Raw(m, a)
  {
    hide ByteOf;
    assert Moved(m, m', a, p, 0);
    forall i | 0 <= i < |Raw(m, a)| ensures Raw(m', p)[i] == Raw(m, a)[i] {
      assert Moved(m, m', a, p, if m[a] % 8 == KIND_BINARY then 1 + i / 8 else 1 + i);
    }
  }

  /** Evacuation preserves meaning: a redirected word means what the old one meant. */
  lemma {:induction false} EvacuationKeepsValue(g: Space, m: seq<Word>, t: Trace, w: Word, w': Word, v: Value)
    requires |t.order| < |t.place| && Inv(g, m, t, t.place[|t.order|]) && Forwarded(t, w, w')
    requires Rep(g.mem, Outside(g.lo, g.hi), w, v)
    ensures Rep(m, Inside(g.lo, t.place[|t.order|]), w', v)
    decreases v
  {
    hide Inv, Reachable, Raw, Object;
    if v.Box? {
      var i :| 0 <= i < |t.order| && t.order[i] == w / 8 && w' == 8 * t.place[i];
      CopyReads(g, m, t, i);
      var f, a, p := FirstSlot(v.header), t.order[i], t.place[i];
      forall k | 0 <= k < |v.kids| ensures Rep(m, Inside(g.lo, t.place[|t.order|]), m[p + f + k], v.kids[k]) {
        assert SlotForwarded(g, m, t, i, f + k);
        assert Rep(g.mem, Outside(g.lo, g.hi), g.mem[a + f + k], v.kids[k]);
        EvacuationKeepsValue(g, m, t, g.mem[a + f + k], m[p + f + k], v.kids[k]);
      }
    }
  }

  /** And adds none: what a redirected word means, the old one meant. */
  lemma {:induction false} EvacuationAddsNoValue(g: Space, m: seq<Word>, t: Trace, w: Word, w': Word, v: Value)
    requires |t.order| < |t.place| && Inv(g, m, t, t.place[|t.order|]) && Forwarded(t, w, w')
    requires Rep(m, Inside(g.lo, t.place[|t.order|]), w', v)
    ensures Rep(g.mem, Outside(g.lo, g.hi), w, v)
    decreases v
  {
    hide Inv, Reachable, Raw;
    if v.Box? {
      var i :| 0 <= i < |t.order| && t.order[i] == w / 8 && w' == 8 * t.place[i];
      CopyReads(g, m, t, i);
      var f, a, p := FirstSlot(v.header), t.order[i], t.place[i];
      forall k | 0 <= k < |v.kids| ensures Rep(g.mem, Outside(g.lo, g.hi), g.mem[a + f + k], v.kids[k]) {
        assert SlotForwarded(g, m, t, i, f + k);
        assert Rep(m, Inside(g.lo, t.place[|t.order|]), m[p + f + k], v.kids[k]);
        EvacuationAddsNoValue(g, m, t, g.mem[a + f + k], m[p + f + k], v.kids[k]);
      }
    }
  }

  /** Every root means after a collection exactly what it meant before. */
  lemma RootsKeepMeaning(g: Space, m: seq<Word>, t: Trace, roots: seq<Word>, i: nat, v: Value)
    requires Evacuated(g, m, t, roots) && i < |roots|
    ensures Rep(g.mem, Outside(g.lo, g.hi), g.roots[i], v) <==> Rep(m, Inside(g.lo, t.place[|t.order|]), roots[i], v)
  {
    hide Rep, Inv, Live, Forwarded;
    assert Forwarded(t, g.roots[i], roots[i]);
    if Rep(g.mem, Outside(g.lo, g.hi), g.roots[i], v) {
      EvacuationKeepsValue(g, m, t, g.roots[i], roots[i], v);
    }
    if Rep(m, Inside(g.lo, t.place[|t.order|]), roots[i], v) {
      EvacuationAddsNoValue(g, m, t, g.roots[i], roots[i], v);
    }
  }

  /** Sharing is preserved exactly: live words are redirected to equal words only if they
      were equal, so two slots share a copy afterwards exactly when they shared before. */
  lemma SharingKept(g: Space, m: seq<Word>, t: Trace, w1: Word, w2: Word, w1': Word, w2': Word)
    requires |t.order| < |t.place| && Inv(g, m, t, t.place[|t.order|])
    requires Forwarded(t, w1, w1') && Forwarded(t, w2, w2')
    ensures w1' == w2' <==> w1 == w2
  {
    hide Reachable, Headers, WellFormed, Copies;
    if IsBoxed(w1) && IsBoxed(w2) {
      var i :| 0 <= i < |t.order| && t.order[i] == w1 / 8 && w1' == 8 * t.place[i];
      var j :| 0 <= j < |t.order| && t.order[j] == w2 / 8 && w2' == 8 * t.place[j];
      assert Entry(g, t, i) && Entry(g, t, j);
      if i < j { assert Before(t, i, j); }
      if j < i { assert Before(t, j, i); }
    }
  }
}
