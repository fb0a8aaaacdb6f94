/** Bump heaps over one word memory, deep copy, exact sizes and structural equality. */
module Heaps {
  import opened Basics
  import opened Terms

  class Heap {
    const mem: array<Word>
    const base: nat
    const cap: nat
    var top: nat

    ghost predicate Valid()
      reads this
    {
      top <= cap && base + cap <= mem.Length
    }

    /** Cells this heap will not hand out. */
    ghost function NotFree(): Region
      reads this
    {
      Outside(base + top, base + cap)
    }

    constructor (mem: array<Word>, base: nat, cap: nat)
      requires base + cap <= mem.Length
      ensures Valid() && top == 0
      ensures this.mem == mem && this.base == base && this.cap == cap
    {
      this.mem, this.base, this.cap, this.top := mem, base, cap, 0;
    }

    method Alloc(words: nat) returns (p: Option<nat>)
      requires Valid()
      modifies this`top
      ensures Valid()
      ensures p.Some? <==> old(top) + words <= cap
      ensures p.Some? ==> p.value == base + old(top) && top == old(top) + words
      ensures p.None? ==> top == old(top)
    {
      if top + words > cap {
        return None;
      }
      p := Some(base + top);
      top := top + words;
    }

    /** Roll the bump pointer back to an earlier watermark. */
    method TruncateTo(words: nat)
      requires Valid() && words <= top
      modifies this`top
      ensures Valid() && top == words
    {
      top := words;
    }
  }

  /** The outcome of copying a term meaning `v` into `dst`: it succeeds exactly when
      `DeepSize(v)` words are free, uses exactly that many, builds the copy in those words
      alone, and changes no cell that was not free. */
  twostate predicate Copied(dst: Heap, new r: Option<Word>, v: Value)
    reads dst, dst.mem
  {
    && dst.Valid()
    && old(dst.top) <= dst.top
    && Agree(old(dst.mem[..]), dst.mem[..], old(dst.NotFree()))
    && (r.Some? <==> old(dst.top) + DeepSize(v) <= dst.cap)
    && (r.Some? ==>
          && dst.top == old(dst.top) + DeepSize(v)
          && Rep(dst.mem[..], Inside(dst.base + old(dst.top), dst.base + dst.top), r.value, v))
  }

  /** The word left after the low `k` bytes of `old` are overwritten with those of `w`. */
  function Splice(old_: Word, w: Word, k: nat): Word
  {
    if k == 0 then old_ else w % 256 + 256 * Splice(old_ / 256, w / 256, k - 1)
  }

  lemma {:induction false} SpliceByte(old_: Word, w: Word, k: nat, j: nat)
    requires j < k
    ensures ByteOf(Splice(old_, w, k), j) == ByteOf(w, j)
  {
    if j > 0 {
      SpliceByte(old_ / 256, w / 256, k - 1, j - 1);
    }
  }

  /** An object just built at `p` means `v` once its parts do. */
  lemma BoxRep(m: seq<Word>, hi: nat, p: nat, v: Value)
    requires v.Box? && Shape(v.header, v.raw, v.kids)
    requires p + Size(v.header) <= hi <= |m| && m[p] == v.header && Raw(m, p) == v.raw
    requires RepAll(m, Inside(p + Size(v.header), hi), p + FirstSlot(v.header), v.kids)
    ensures Rep(m, Inside(p, hi), 8 * p, v)
  {
    RepAllFrame(m, m, Inside(p + Size(v.header), hi), Inside(p, hi), p + FirstSlot(v.header), v.kids);
  }

  function ConsValue(head: Value, tail: Value): Value { Box(KIND_CONS, [], [head, tail]) }

  lemma ConsSize(head: Value, tail: Value)
    ensures DeepSize(ConsValue(head, tail)) == 3 + DeepSize(head) + DeepSize(tail)
  {
    assert [head, tail][..1] == [head] && [head][..0] == [];
    DeepSizesPrefix([head, tail], 0);
  }

  /** The list whose cells hold `heads` and whose last tail is `tail`. */
  function Spine(heads: seq<Value>, tail: Value): Value
  {
    if heads == [] then tail else ConsValue(heads[0], Spine(heads[1..], tail))
  }

  lemma {:induction false} SpineAppend(heads: seq<Value>, h: Value, tail: Value)
    ensures Spine(heads + [h], tail) == Spine(heads, ConsValue(h, tail))
  {
    if heads == [] {
      assert Spine([h], tail) == ConsValue(h, Spine([h][1..], tail));
    } else {
      assert (heads + [h])[1..] == heads[1..] + [h];
      SpineAppend(heads[1..], h, tail);
    }
  }

  lemma {:induction false} SpineSuffixSize(heads: seq<Value>, tail: Value, i: nat)
    requires i <= |heads|
    ensures DeepSize(Spine(heads[i..], tail)) <= DeepSize(Spine(heads, tail))
    ensures i < |heads| ==>
      DeepSize(Spine(heads[i..], tail)) == 3 + DeepSize(heads[i]) + DeepSize(Spine(heads[i + 1..], tail))
  {
    if heads == [] {
    } else {
      ConsSize(heads[0], Spine(heads[1..], tail));
      if i == 0 {
        assert heads[0..] == heads;
      } else {
        assert heads[i..] == heads[1..][i - 1..];
        if i < |heads| { assert heads[i + 1..] == heads[1..][i..]; }
        SpineSuffixSize(heads[1..], tail, i - 1);
      }
    }
  }

  /** What a boxed word's meaning says about its object. */
  lemma RepBox(m: seq<Word>, R: Region, w: Word, v: Value)
    requires Rep(m, R, w, v) && IsBoxed(w)
    ensures v.Box? && Shape(v.header, v.raw, v.kids)
    ensures ObjectAt(m, R, w) && m[w / 8] == v.header && Raw(m, w / 8) == v.raw
    ensures RepAll(m, R, w / 8 + FirstSlot(v.header), v.kids)
    ensures DeepSize(v) == Size(v.header) + DeepSizes(v.kids)
    ensures v.kids == [] ==> DeepSizes(v.kids) == 0
  {
  }

  lemma RepAllStart(m: seq<Word>, R: Region, at: nat, vs: seq<Value>)
    requires at <= |m|
    ensures RepAll(m, R, at, vs[..0]) && DeepSizes(vs[..0]) == 0
  {
  }

  lemma RepAllAt(m: seq<Word>, R: Region, at: nat, vs: seq<Value>, i: nat)
    requires RepAll(m, R, at, vs) && i < |vs|
    ensures at + i < |m| && Rep(m, R, m[at + i], vs[i])
  {
  }

  lemma RepAllSnoc(m: seq<Word>, R: Region, at: nat, vs: seq<Value>, i: nat)
    requires i < |vs| && at + i < |m| && RepAll(m, R, at, vs[..i]) && Rep(m, R, m[at + i], vs[i])
    ensures RepAll(m, R, at, vs[..i + 1])
  {
    assert forall k :: 0 <= k < i ==> vs[..i + 1][k] == vs[..i][k];
  }

  /** Deep copy of `src`, whose objects lie in `R`, into `dst`. */
  method CopyTerm(src: Word, dst: Heap, ghost R: Region, ghost v: Value) returns (r: Option<Word>)
    requires dst.Valid() && Rep(dst.mem[..], R, src, v) && R.Within(dst.NotFree())
    modifies dst`top, dst.mem
    ensures Copied(dst, r, v)
    decreases v, 1
  {
    if !IsBoxed(src) {
      return Some(src);
    }
    hide Rep, RepAll, DeepSize, DeepSizes;
    RepBox(dst.mem[..], R, src, v);
    var header := dst.mem[src / 8];
    if header % 8 == KIND_TUPLE {
      r := CopyRecord(src, dst, 0, header / 8, R, v);
    } else if header % 8 == KIND_BINARY {
      r := CopyBinary(src, dst, R, v);
    } else if header % 8 == KIND_MAP {
      r := CopyRecord(src, dst, header / 8, header / 8, R, v);
    } else {
      r := CopyList(src, dst, R, v);
    }
  }

  predicate IsRecord(header: Word) { header % 8 == KIND_TUPLE || header % 8 == KIND_MAP }

  /** Tuples and maps: the header and `raw` key words verbatim, then `slots` copied terms. */
  method CopyRecord(src: Word, dst: Heap, raw: nat, slots: nat, ghost R: Region, ghost v: Value)
      returns (r: Option<Word>)
    requires dst.Valid() && Rep(dst.mem[..], R, src, v) && R.Within(dst.NotFree())
    requires IsBoxed(src) && v.Box? && IsRecord(v.header) && 1 + raw == FirstSlot(v.header)
      && slots == |v.kids| == Size(v.header) - FirstSlot(v.header)
    modifies dst`top, dst.mem
    ensures Copied(dst, r, v)
    decreases v, 0
  {
    hide Rep, RepAll, DeepSize, DeepSizes, Agree, Raw, ByteOf, Shape, Size, FirstSlot, IsRecord;
    var mem, a := dst.mem, src / 8;
    ghost var m0, end := mem[..], dst.base + dst.cap;
    RepBox(m0, R, src, v);
    assert 1 + raw + slots == Size(v.header);
    AgreeSame(m0, dst.NotFree());
    var p := StartRecord(dst, a, 1 + raw, slots, R);
    if p.None? { return None; }
    ghost var m1 := mem[..];
    var mid := p.value + 1 + raw;
    RepAllKeep(m0, m1, R, a + 1 + raw, v.kids);
    var ok := CopySlots(dst, a + 1 + raw, mid, slots, R, v.kids);
    AgreeJoin(m0, m1, mem[..], Outside(p.value, mid), Outside(mid, end), p.value, end);
    if !ok { return None; }
    r := Some(8 * p.value);
    AgreeWithin(m1, mem[..], Outside(mid, end), Inside(p.value, mid));
    RecordBuilt(m0, m1, mem[..], R, a, p.value, dst.base + dst.top, v);
  }

  /** Takes `fixed + slots` words and copies the first `fixed` verbatim from `a`. */
  method StartRecord(dst: Heap, a: nat, fixed: nat, slots: nat, ghost R: Region) returns (p: Option<nat>)
    requires dst.Valid() && R.Within(dst.NotFree()) && fixed > 0 && a + fixed <= dst.mem.Length
      && R.Fits(a, fixed + slots)
    modifies dst`top, dst.mem
    ensures dst.Valid() && (p.Some? <==> old(dst.top) + fixed + slots <= dst.cap)
    ensures p.None? ==> dst.top == old(dst.top) && dst.mem[..] == old(dst.mem[..])
    ensures p.Some? ==>
      && p.value == dst.base + old(dst.top) && dst.top == old(dst.top) + fixed + slots
      && dst.mem[p.value..p.value + fixed] == old(dst.mem[a..a + fixed])
      && Agree(old(dst.mem[..]), dst.mem[..], Outside(p.value, p.value + fixed))
      && Agree(old(dst.mem[..]), dst.mem[..], R)
  {
    hide Agree;
    p := dst.Alloc(fixed + slots);
    if p.None? { return; }
    CopyWords(dst.mem, a, p.value, fixed);
    AgreeWithin(old(dst.mem[..]), dst.mem[..], Outside(p.value, p.value + fixed), R);
  }

  lemma RecordBuilt(m0: seq<Word>, m1: seq<Word>, m2: seq<Word>, R: Region, a: nat, p: nat, hi: nat, v: Value)
    requires Rep(m0, R, 8 * a, v) && v.Box? && IsRecord(v.header)
    requires p + Size(v.header) <= hi <= |m2| == |m1| && a + Size(v.header) <= |m0|
    requires Agree(m1, m2, Inside(p, p + FirstSlot(v.header)))
    requires m1[p..p + FirstSlot(v.header)] == m0[a..a + FirstSlot(v.header)]
    requires RepAll(m2, Inside(p + Size(v.header), hi), p + FirstSlot(v.header), v.kids)
    ensures Rep(m2, Inside(p, hi), 8 * p, v)
  {
    hide Rep, RepAll, Agree, Raw;
    RepBox(m0, R, 8 * a, v);
    ghost var f := FirstSlot(v.header);
    AgreeSlice(m1, m2, p, p + f);
    assert m2[p] == m2[p..p + f][0] == m0[a..a + f][0];
    RawPrefix(m0, a);
    RawPrefix(m2, p);
    assert m2[p + 1..p + f] == m2[p..p + f][1..] && m0[a + 1..a + f] == m0[a..a + f][1..];
    BoxRep(m2, hi, p, v);
  }

  lemma RawPrefix(m: seq<Word>, a: nat)
    requires a < |m| && a + Size(m[a]) <= |m| && IsRecord(m[a])
    ensures Raw(m, a) == m[a + 1..a + FirstSlot(m[a])]
  {
  }

  method CopyBinary(src: Word, dst: Heap, ghost R: Region, ghost v: Value) returns (r: Option<Word>)
    requires dst.Valid() && Rep(dst.mem[..], R, src, v) && R.Within(dst.NotFree())
    requires IsBoxed(src) && v.Box? && v.header % 8 == KIND_BINARY
    modifies dst`top, dst.mem
    ensures Copied(dst, r, v)
  {
    hide Rep, RepAll, DeepSize, DeepSizes, Agree, ByteOf;
    var mem, a := dst.mem, src / 8;
    ghost var m0, end := mem[..], dst.base + dst.cap;
    RepBox(m0, R, src, v);
    AgreeWrite(m0, m0, dst.base + dst.top, end);
    var len := mem[a] / 8;
    var words := DivCeil(len, 8);
    var p := dst.Alloc(1 + words);
    if p.None? { return None; }
    mem[p.value] := 8 * len + KIND_BINARY;
    ghost var m1, data := mem[..], Outside(p.value + 1, p.value + 1 + words);
    AgreeWrite(m0, m1, p.value, end);
    CopyBytes(mem, a + 1, p.value + 1, len);
    AgreeJoin(m0, m1, mem[..], Outside(p.value, end), data, p.value, end);
    AgreeAt(m1, mem[..], data, p.value);
    AgreeWithin(m0, m1, Outside(p.value, end), R);
    BinaryBuilt(m0, m1, mem[..], R, a, p.value, v);
    r := Some(8 * p.value);
  }

  lemma BinaryBuilt(m0: seq<Word>, m1: seq<Word>, m2: seq<Word>, R: Region, a: nat, p: nat, v: Value)
    requires Rep(m0, R, 8 * a, v) && v.Box? && v.header % 8 == KIND_BINARY
    requires p + Size(v.header) <= |m2| && a + Size(v.header) <= |m0| == |m1| && m2[p] == v.header && Agree(m0, m1, R)
    requires SameBytes(m2, p + 1, m1, a + 1, v.header / 8)
    ensures Rep(m2, Inside(p, p + Size(v.header)), 8 * p, v)
  {
    hide Rep, RepAll, Raw, SameBytes;
    RepBox(m0, R, 8 * a, v);
    RawBytes(m0, m1, m2, R, a, p);
    RepAllStart(m2, Inside(p + Size(v.header), p + Size(v.header)), p + FirstSlot(v.header), v.kids);
    assert v.kids[..0] == v.kids;
    BoxRep(m2, p + Size(v.header), p, v);
  }

  lemma RawBytes(m0: seq<Word>, m1: seq<Word>, m2: seq<Word>, R: Region, a: nat, p: nat)
    requires a < |m0| && a + Size(m0[a]) <= |m0| && R.Fits(a, Size(m0[a])) && Agree(m0, m1, R)
    requires m0[a] % 8 == KIND_BINARY && p < |m2| && p + Size(m0[a]) <= |m2| && m2[p] == m0[a]
    requires SameBytes(m2, p + 1, m1, a + 1, m0[a] / 8)
    ensures Raw(m2, p) == Raw(m0, a)
  {
    hide ByteOf;
  }

  method CopyWords(mem: array<Word>, from: nat, to: nat, n: nat)
    requires from + n <= mem.Length && to + n <= mem.Length && (from + n <= to || to + n <= from)
    modifies mem
    ensures mem[to..to + n] == old(mem[from..from + n])
    ensures Agree(old(mem[..]), mem[..], Outside(to, to + n))
  {
    var i := 0;
    while i < n
      invariant 0 <= i <= n
      invariant forall k :: to <= k < to + i ==> mem[k] == old(mem[k - to + from])
      invariant Agree(old(mem[..]), mem[..], Outside(to, to + i))
    {
      mem[to + i] := mem[from + i];
      i := i + 1;
    }
  }

  /** Copies `len` packed bytes; bytes past the end of the last word stay as they were. */
  method CopyBytes(mem: array<Word>, from: nat, to: nat, len: nat)
    requires from + DivCeil(len, 8) <= mem.Length && to + DivCeil(len, 8) <= mem.Length
    requires from + DivCeil(len, 8) <= to || to + DivCeil(len, 8) <= from
    modifies mem
    ensures SameBytes(mem[..], to, old(mem[..]), from, len)
    ensures Agree(old(mem[..]), mem[..], Outside(to, to + DivCeil(len, 8)))
  {
    hide ByteOf;
    var i := 0;
    while i < DivCeil(len, 8)
      invariant 0 <= i <= DivCeil(len, 8)
      invariant forall k :: 0 <= k < len && k / 8 < i ==> ByteAt(mem[..], to, k) == ByteAt(old(mem[..]), from, k)
      invariant Agree(old(mem[..]), mem[..], Outside(to, to + i))
    {
      var k := if len - 8 * i < 8 then len - 8 * i else 8;
      var spliced := Splice(mem[to + i], mem[from + i], k);
      forall j | 0 <= j < k ensures ByteOf(spliced, j) == ByteOf(mem[from + i], j) {
        SpliceByte(mem[to + i], mem[from + i], k, j);
      }
      mem[to + i] := spliced;
      i := i + 1;
    }
  }

  /** Cell words of a spine: each names a cons whose head means the matching value. */
  ghost predicate SpineCells(m: seq<Word>, R: Region, cells: seq<Word>, heads: seq<Value>)
  {
    && |cells| == |heads|
    && forall i :: 0 <= i < |cells| ==>
         cells[i] / 8 + 1 < |m| && R.Fits(cells[i] / 8 + 1, 1) && Rep(m, R, m[cells[i] / 8 + 1], heads[i])
  }

  lemma SpineCellsStart(m: seq<Word>, R: Region, v: Value)
    ensures SpineCells(m, R, [], []) && Spine([], v) == v
  {
  }

  lemma SpineCellsSnoc(m: seq<Word>, R: Region, cells: seq<Word>, heads: seq<Value>, c: Word, h: Value)
    requires SpineCells(m, R, cells, heads)
    requires c / 8 + 1 < |m| && R.Fits(c / 8 + 1, 1) && Rep(m, R, m[c / 8 + 1], h)
    ensures SpineCells(m, R, cells + [c], heads + [h])
  {
    hide Rep;
  }

  /** Collects the cells of a list in order; `last` is what follows the final cell. */
  method WalkSpine(mem: array<Word>, src: Word, ghost R: Region, ghost v: Value)
    returns (cells: seq<Word>, last: Word, ghost heads: seq<Value>, ghost tail: Value)
    requires Rep(mem[..], R, src, v) && IsBoxed(src) && mem[src / 8] % 8 == KIND_CONS
    ensures v == Spine(heads, tail) && Rep(mem[..], R, last, tail) && SpineCells(mem[..], R, cells, heads)
    ensures tail < v && forall i :: 0 <= i < |heads| ==> heads[i] < v
  {
    hide Rep, RepAll, Spine, SpineCells;
    ghost var m := mem[..];
    SpineCellsStart(m, R, v);
    RepBox(m, R, src, v);
    cells, last, heads, tail := [], src, [], v;
    while IsBoxed(last) && mem[last / 8] % 8 == KIND_CONS
      invariant Rep(m, R, last, tail) && v == Spine(heads, tail) && SpineCells(m, R, cells, heads)
      invariant IsBoxed(last) ==> last / 8 < mem.Length
      invariant (tail == v && last == src) || tail < v
      invariant forall i :: 0 <= i < |heads| ==> heads[i] < v
      decreases tail
    {
      RepBox(m, R, last, tail);
      SpineAppend(heads, tail.kids[0], tail.kids[1]);
      assert tail.kids == [tail.kids[0], tail.kids[1]];
      RepAllAt(m, R, last / 8 + 1, tail.kids, 0);
      RepAllAt(m, R, last / 8 + 1, tail.kids, 1);
      SpineCellsSnoc(m, R, cells, heads, last, tail.kids[0]);
      cells, heads := cells + [last], heads + [tail.kids[0]];
      last, tail := mem[last / 8 + 2], tail.kids[1];
      if IsBoxed(last) { RepBox(m, R, last, tail); }
    }
  }

  /** Walks the spine first, then rebuilds the cells from the last one back. */
  method CopyList(src: Word, dst: Heap, ghost R: Region, ghost v: Value) returns (r: Option<Word>)
    requires dst.Valid() && Rep(dst.mem[..], R, src, v) && R.Within(dst.NotFree())
    requires IsBoxed(src) && dst.mem[src / 8] % 8 == KIND_CONS
    modifies dst`top, dst.mem
    ensures Copied(dst, r, v)
    decreases v, 0
  {
    hide Rep, RepAll, DeepSize, Agree;
    var cells, cur, heads, cv := WalkSpine(dst.mem, src, R, v);
    ghost var m0, lo := dst.mem[..], dst.base + dst.top;
    SpineSuffixSize(heads, cv, |heads|);
    r := CopyTerm(cur, dst, R, cv);
    if r.None? { return; }
    var i := |cells|;
    while i > 0
      invariant 0 <= i <= |cells| && dst.Valid() && r.Some?
      invariant dst.top == old(dst.top) + DeepSize(Spine(heads[i..], cv))
      invariant Agree(m0, dst.mem[..], old(dst.NotFree()))
      invariant Rep(dst.mem[..], Inside(lo, dst.base + dst.top), r.value, Spine(heads[i..], cv))
    {
      i := i - 1;
      SpineSuffixSize(heads, cv, i);
      r := CopyCell(cells[i], r.value, dst, R, m0, lo, heads[i], Spine(heads[i + 1..], cv));
      if r.None? { return; }
      assert heads[i..][1..] == heads[i + 1..];
    }
    assert heads[0..] == heads;
  }

  /** Copies one cell's head and puts it before the already copied `tail`. */
  method CopyCell(cell: Word, tail: Word, dst: Heap, ghost R: Region, ghost m0: seq<Word>, ghost lo: nat,
      ghost hv: Value, ghost tv: Value)
    returns (r: Option<Word>)
    requires dst.Valid() && dst.base <= lo <= dst.base + dst.top && R.Within(Outside(lo, dst.base + dst.cap))
    requires Agree(m0, dst.mem[..], Outside(lo, dst.base + dst.cap))
    requires cell / 8 + 1 < |m0| && R.Fits(cell / 8 + 1, 1) && Rep(m0, R, m0[cell / 8 + 1], hv)
    requires Rep(dst.mem[..], Inside(lo, dst.base + dst.top), tail, tv)
    modifies dst`top, dst.mem
    ensures dst.Valid() && old(dst.top) <= dst.top && Agree(m0, dst.mem[..], Outside(lo, dst.base + dst.cap))
    ensures r.Some? <==> old(dst.top) + 3 + DeepSize(hv) <= dst.cap
    ensures r.Some? ==> dst.top == old(dst.top) + 3 + DeepSize(hv)
    ensures r.Some? ==> Rep(dst.mem[..], Inside(lo, dst.base + dst.top), r.value, ConsValue(hv, tv))
    decreases hv, 2
  {
    hide Rep, RepAll, DeepSize, Agree;
    var mem := dst.mem;
    ghost var m1, top1, free := mem[..], dst.base + dst.top, Outside(lo, dst.base + dst.cap);
    AgreeWithin(m0, m1, free, R);
    AgreeAt(m0, m1, R, cell / 8 + 1);
    RepFrame(m0, m1, R, R, m0[cell / 8 + 1], hv);
    var h := CopyTerm(mem[cell / 8 + 1], dst, R, hv);
    ghost var m2, top2 := mem[..], dst.base + dst.top;
    AgreeJoin(m0, m1, m2, free, Outside(top1, dst.base + dst.cap), lo, dst.base + dst.cap);
    if h.None? { return None; }
    r := PutCell(dst, h.value, tail);
    if r.None? { return; }
    AgreeJoin(m0, m2, mem[..], free, Outside(top2, top2 + 3), lo, dst.base + dst.cap);
    AgreeWithin(m1, m2, Outside(top1, dst.base + dst.cap), Inside(lo, top1));
    AgreeWithin(m2, mem[..], Outside(top2, top2 + 3), Inside(lo, top2));
    CellBuilt(m1, m2, mem[..], lo, top1, top2, hv, tv);
  }

  /** Allocates a cons cell of two words. */
  method PutCell(dst: Heap, head: Word, tail: Word) returns (r: Option<Word>)
    requires dst.Valid()
    modifies dst`top, dst.mem
    ensures dst.Valid() && (r.Some? <==> old(dst.top) + 3 <= dst.cap)
      && (r.None? ==> dst.top == old(dst.top) && dst.mem[..] == old(dst.mem[..]))
    ensures var p := old(dst.base + dst.top);
      r.Some? ==>
        && dst.top == old(dst.top) + 3 && r.value == 8 * p && p + 3 <= |dst.mem[..]|
        && dst.mem[p] == KIND_CONS && dst.mem[p + 1] == head && dst.mem[p + 2] == tail
        && Agree(old(dst.mem[..]), dst.mem[..], Outside(p, p + 3))
  {
    hide Agree;
    ghost var was := dst.mem[..];
    var p := dst.Alloc(3);
    if p.None? { return None; }
    dst.mem[p.value], dst.mem[p.value + 1], dst.mem[p.value + 2] := KIND_CONS, head, tail;
    AgreeWrite(was, dst.mem[..], p.value, p.value + 3);
    r := Some(8 * p.value);
  }

  lemma CellBuilt(m1: seq<Word>, m2: seq<Word>, m3: seq<Word>, lo: nat, top1: nat, top2: nat, hv: Value, tv: Value)
    requires lo <= top1 <= top2 && top2 + 3 <= |m3| && m3[top2] == KIND_CONS
    requires Agree(m1, m2, Inside(lo, top1)) && Agree(m2, m3, Inside(lo, top2))
    requires Rep(m1, Inside(lo, top1), m3[top2 + 2], tv) && Rep(m2, Inside(top1, top2), m3[top2 + 1], hv)
    ensures Rep(m3, Inside(lo, top2 + 3), 8 * top2, ConsValue(hv, tv))
  {
    hide Rep, RepAll;
    RepFrame(m1, m2, Inside(lo, top1), Inside(lo, top2), m3[top2 + 2], tv);
    RepFrame(m2, m3, Inside(lo, top2), Inside(lo, top2 + 3), m3[top2 + 2], tv);
    RepFrame(m2, m3, Inside(top1, top2), Inside(lo, top2 + 3), m3[top2 + 1], hv);
    ConsRep(m3, Inside(lo, top2 + 3), top2, hv, tv);
  }

  lemma ConsRep(m: seq<Word>, R: Region, p: nat, hv: Value, tv: Value)
    requires p + 3 <= |m| && R.Fits(p, 3) && m[p] == KIND_CONS && Rep(m, R, m[p + 1], hv) && Rep(m, R, m[p + 2], tv)
    ensures Rep(m, R, 8 * p, ConsValue(hv, tv))
  {
    hide Rep, RepAll, ByteOf;
    PairRep(m, R, p + 1, hv, tv);
    assert ObjectAt(m, R, 8 * p) && Shape(KIND_CONS, [], [hv, tv]) && Raw(m, p) == [] && FirstSlot(KIND_CONS) == 1;
    BoxMeans(m, R, 8 * p, ConsValue(hv, tv));
  }

  lemma PairRep(m: seq<Word>, R: Region, at: nat, hv: Value, tv: Value)
    requires at + 2 <= |m| && Rep(m, R, m[at], hv) && Rep(m, R, m[at + 1], tv)
    ensures RepAll(m, R, at, [hv, tv])
  {
    hide Rep;
  }

  /** Copies the terms in `n` consecutive slots into the last `n` words handed out. */
  method CopySlots(dst: Heap, from: nat, to: nat, n: nat, ghost R: Region, ghost kids: seq<Value>) returns (ok: bool)
    requires dst.Valid() && |kids| == n && from + n <= dst.mem.Length && to + n == dst.base + dst.top
    requires R.Within(Outside(to, dst.base + dst.cap)) && (n > 0 ==> R.Fits(from, n))
    requires RepAll(dst.mem[..], R, from, kids)
    modifies dst`top, dst.mem
    ensures dst.Valid() && old(dst.top) <= dst.top
    ensures Agree(old(dst.mem[..]), dst.mem[..], Outside(to, dst.base + dst.cap))
    ensures ok <==> old(dst.top) + DeepSizes(kids) <= dst.cap
    ensures ok ==> dst.top == old(dst.top) + DeepSizes(kids)
    ensures ok ==> RepAll(dst.mem[..], Inside(dst.base + old(dst.top), dst.base + dst.top), to, kids)
    decreases kids, 0
  {
    hide Rep, RepAll, DeepSize, DeepSizes, Agree;
    ghost var m0, lo, free := dst.mem[..], to + n, Outside(to, dst.base + dst.cap);
    RepAllStart(m0, Inside(lo, lo), to, kids);
    AgreeWrite(m0, m0, to, dst.base + dst.cap);
    var i := 0;
    while i < n
      invariant 0 <= i <= n && dst.Valid()
      invariant dst.top == old(dst.top) + DeepSizes(kids[..i])
      invariant Agree(m0, dst.mem[..], free)
      invariant RepAll(dst.mem[..], Inside(lo, dst.base + dst.top), to, kids[..i])
    {
      DeepSizesPrefix(kids, i);
      ok := CopySlot(dst, from, to, i, R, kids, m0, lo);
      if !ok { return; }
      i := i + 1;
    }
    assert kids[..n] == kids;
    return true;
  }

  method CopySlot(dst: Heap, from: nat, to: nat, i: nat, ghost R: Region, ghost kids: seq<Value>, ghost m0: seq<Word>,
      ghost lo: nat)
    returns (ok: bool)
    requires dst.Valid() && i < |kids| && from + |kids| <= dst.mem.Length && to + |kids| == lo
    requires dst.base <= lo <= dst.base + dst.top
    requires R.Within(Outside(to, dst.base + dst.cap)) && R.Fits(from, |kids|) && RepAll(m0, R, from, kids)
    requires Agree(m0, dst.mem[..], Outside(to, dst.base + dst.cap))
    requires RepAll(dst.mem[..], Inside(lo, dst.base + dst.top), to, kids[..i])
    modifies dst`top, dst.mem
    ensures dst.Valid() && old(dst.top) <= dst.top && Agree(m0, dst.mem[..], Outside(to, dst.base + dst.cap))
    ensures ok <==> old(dst.top) + DeepSize(kids[i]) <= dst.cap
    ensures ok ==> dst.top == old(dst.top) + DeepSize(kids[i])
    ensures ok ==> RepAll(dst.mem[..], Inside(lo, dst.base + dst.top), to, kids[..i + 1])
    decreases kids, 0, 0
  {
    hide Rep, RepAll, DeepSize, Agree;
    ghost var m1, top1, end := dst.mem[..], dst.base + dst.top, dst.base + dst.cap;
    AgreeWithin(m0, m1, Outside(to, end), R);
    AgreeAt(m0, m1, R, from + i);
    RepAllAt(m0, R, from, kids, i);
    RepFrame(m0, m1, R, R, m0[from + i], kids[i]);
    var c := CopyTerm(dst.mem[from + i], dst, R, kids[i]);
    ghost var m2, top2 := dst.mem[..], dst.base + dst.top;
    AgreeJoin(m0, m1, m2, Outside(to, end), Outside(top1, end), to, end);
    if c.None? { return false; }
    dst.mem[to + i] := c.value;
    AgreeWrite(m2, dst.mem[..], to + i, to + i + 1);
    AgreeJoin(m0, m2, dst.mem[..], Outside(to, end), Outside(to + i, to + i + 1), to, end);
    AgreeWithin(m1, m2, Outside(top1, end), Inside(to, top1));
    AgreeWithin(m2, dst.mem[..], Outside(to + i, to + i + 1), Inside(lo, top2));
    SlotBuilt(m1, m2, dst.mem[..], to, lo, top1, top2, kids, i);
    return true;
  }

  lemma SlotBuilt(m1: seq<Word>, m2: seq<Word>, m3: seq<Word>, to: nat, lo: nat, top1: nat, top2: nat,
      kids: seq<Value>, i: nat)
    requires i < |kids| && to + |kids| == lo <= top1 <= top2 <= |m3|
    requires Agree(m1, m2, Inside(to, top1)) && Agree(m2, m3, Inside(lo, top2))
    requires forall k :: to <= k < to + i ==> m3[k] == m2[k]
    requires RepAll(m1, Inside(lo, top1), to, kids[..i]) && Rep(m2, Inside(top1, top2), m3[to + i], kids[i])
    ensures RepAll(m3, Inside(lo, top2), to, kids[..i + 1])
  {
    hide Rep, RepAll;
    RepAllFrame(m1, m2, Inside(lo, top1), Inside(lo, top2), to, kids[..i]);
    RepAllFrame(m2, m3, Inside(lo, top2), Inside(lo, top2), to, kids[..i]);
    RepFrame(m2, m3, Inside(top1, top2), Inside(lo, top2), m3[to + i], kids[i]);
    RepAllSnoc(m3, Inside(lo, top2), to, kids, i);
  }
}
