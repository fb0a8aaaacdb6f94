/** A process heap: a chain of spans under a page quota, grown without moving anything and
    compacted at trampoline points. */
module ProcHeaps {
  import opened Basics
  import opened Terms
  import opened Heaps
  import opened Evacuation
  import opened CompactionBounds
  import opened TermOps

  const PAGE_WORDS: nat := 512
  const PAGE_BYTES: nat := 4096

  datatype Span = Span(base: nat, pages: nat)
  {
    function Words(): nat { pages * PAGE_WORDS }
  }

  ghost function Pages(spans: seq<Span>): nat
  {
    if spans == [] then 0 else Pages(spans[..|spans| - 1]) + spans[|spans| - 1].pages
  }

  ghost function SpanCells(spans: seq<Span>): set<nat>
  {
    if spans == [] then {} else
      var last := spans[|spans| - 1];
      SpanCells(spans[..|spans| - 1]) + Cells(last.base, last.Words())
  }

  ghost predicate InSpan(spans: seq<Span>, a: nat, n: nat)
  {
    exists s :: s in spans && s.base <= a && a + n <= s.base + s.Words()
  }

  /** All objects lie in the given spans, each in one. */
  ghost predicate OwnObjects(g: Space, spans: seq<Span>)
  {
    WellFormed(g) && forall a :: a in g.objs ==> InSpan(spans, a, SizeAt(g, a))
  }

  lemma {:induction false} SpanCellsSize(spans: seq<Span>)
    ensures |SpanCells(spans)| <= Pages(spans) * PAGE_WORDS
  {
    if spans != [] {
      var init, last := spans[..|spans| - 1], spans[|spans| - 1];
      SpanCellsSize(init);
      assert |SpanCells(init) + Cells(last.base, last.Words())| <= |SpanCells(init)| + |Cells(last.base, last.Words())|;
    }
  }

  lemma {:induction false} SpanCellsHas(spans: seq<Span>, s: Span, k: nat)
    requires s in spans && s.base <= k < s.base + s.Words()
    ensures k in SpanCells(spans)
  {
    if s != spans[|spans| - 1] {
      SpanCellsHas(spans[..|spans| - 1], s, k);
    }
  }

  /** What is live takes no more words than the spans it lives in. */
  lemma LiveWithinSpans(g: Space, spans: seq<Span>)
    requires OwnObjects(g, spans)
    ensures Total(g, Live(g)) <= Pages(spans) * PAGE_WORDS
  {
    hide Total, SpanCells, Pages, Reachable, Object;
    forall a | a in Live(g) ensures Cells(a, SizeAt(g, a)) <= SpanCells(spans) {
      var s :| s in spans && s.base <= a && a + SizeAt(g, a) <= s.base + s.Words();
      forall k | k in Cells(a, SizeAt(g, a)) ensures k in SpanCells(spans) {
        SpanCellsHas(spans, s, k);
      }
    }
    TotalWithinCells(g, Live(g), SpanCells(spans));
    SpanCellsSize(spans);
  }

  function Clamp(x: nat, lo: nat, hi: nat): nat
    requires lo <= hi
  {
    if x < lo then lo else if x > hi then hi else x
  }

  /** Pages of the compaction target for a live estimate. */
  function TargetPages(live: nat, maxPages: nat): nat
    requires 4 <= maxPages
  {
    Clamp(DivCeil(live * 8, PAGE_BYTES), 4, maxPages)
  }

  /** The fewest pages that hold `words`, but at least four, or else the whole quota. */
  ghost predicate Sufficient(words: nat, maxPages: nat, pages: nat)
  {
    && 4 <= pages <= maxPages
    && (pages * 512 >= words || pages == maxPages)
    && (pages == 4 || (pages - 1) * 512 < words)
  }

  /** That is one number, and it is the target's. */
  lemma TargetSufficient(words: nat, maxPages: nat, pages: nat)
    requires 4 <= maxPages
    ensures Sufficient(words, maxPages, pages) <==> pages == TargetPages(words, maxPages)
    ensures 4 <= TargetPages(words, maxPages) <= maxPages
  {
    var exact := DivCeil(words * 8, PAGE_BYTES);
    assert exact * 512 >= words && (exact > 0 ==> (exact - 1) * 512 < words);
  }

  /** The target holds the estimate, unless the quota clamped it; then it is at least as
      large as everything the process owned. Either way it holds what is live. */
  lemma TargetFits(live: nat, maxPages: nat, oldPages: nat, total: nat)
    requires 4 <= maxPages && oldPages <= maxPages
    requires total <= live && total <= oldPages * PAGE_WORDS
    ensures total <= TargetPages(live, maxPages) * PAGE_WORDS
  {
    var exact := DivCeil(live * 8, PAGE_BYTES);
    assert exact * PAGE_WORDS >= live;
  }

  /** The frames a grower or compactor is given are not part of any span it has. */
  ghost predicate FreshSpan(spans: seq<Span>, s: Span)
  {
    forall s' :: s' in spans ==> s.base + s.Words() <= s'.base || s'.base + s'.Words() <= s.base
  }

  /** `frames(n)` is where `n` contiguous pages would be handed out, if they can be. */
  ghost predicate GoodFrames(frames: nat -> Option<nat>, spans: seq<Span>, memWords: nat)
  {
    forall n: nat :: frames(n).Some? ==>
      FreshSpan(spans, Span(frames(n).value, n)) && frames(n).value + n * PAGE_WORDS <= memWords
  }

  /** Objects in known spans stay well formed when the collector aims at a fresh one. */
  lemma Retarget(g: Space, spans: seq<Span>, lo: nat, hi: nat)
    requires OwnObjects(g, spans) && lo <= hi <= |g.mem|
    requires forall s :: s in spans ==> hi <= s.base || s.base + s.Words() <= lo
    ensures OwnObjects(g.(lo := lo, hi := hi), spans)
  {
    var g' := g.(lo := lo, hi := hi);
    forall a | a in g.objs ensures Object(g', a) && InSpan(spans, a, SizeAt(g', a)) {
      assert Object(g, a) && InSpan(spans, a, SizeAt(g, a));
      var s :| s in spans && s.base <= a && a + SizeAt(g, a) <= s.base + s.Words();
    }
    forall a, b | a in g.objs && b in g.objs ensures Apart(g', a, b) {
      assert Object(g, a) && Apart(g, a, b);
    }
  }

  /** The objects a word's meaning uses are the collector's objects, so the meaning holds
      outside the collector's target. */
  lemma {:induction false} RepOutside(g: Space, R: Region, w: Word, v: Value)
    requires WellFormed(g) && Rep(g.mem, R, w, v) && (IsBoxed(w) ==> w / 8 in g.objs)
    ensures Rep(g.mem, Outside(g.lo, g.hi), w, v)
    decreases v
  {
    hide Raw, Apart;
    if v.Box? {
      var at := w / 8 + FirstSlot(v.header);
      assert Object(g, w / 8);
      forall i | 0 <= i < |v.kids| ensures Rep(g.mem, Outside(g.lo, g.hi), g.mem[at + i], v.kids[i]) {
        assert Rep(g.mem, R, g.mem[at + i], v.kids[i]);
        RepOutside(g, R, g.mem[at + i], v.kids[i]);
      }
    }
  }

  lemma RootsOutside(g: Space, R: Region, vs: seq<Value>)
    requires WellFormed(g) && RepSeq(g.mem, R, g.roots, vs)
    ensures RepSeq(g.mem, Outside(g.lo, g.hi), g.roots, vs)
  {
    hide Rep, Object, Apart;
    forall i | 0 <= i < |vs| ensures Rep(g.mem, Outside(g.lo, g.hi), g.roots[i], vs[i]) {
      RepOutside(g, R, g.roots[i], vs[i]);
    }
  }

  /** The copies a collection made are the objects of the new space, in its one span and clear
      of the words left there. */
  lemma CopiesOwn(g: Space, m: seq<Word>, t: Trace, roots: seq<Word>, pages: nat)
    requires Evacuated(g, m, t, roots) && g.hi == g.lo + pages * PAGE_WORDS
    ensures var g' := Space(m, Elems(t.place[..|t.order|]), t.place[|t.order|], g.hi, roots);
      OwnObjects(g', [Span(g.lo, pages)])
  {
    hide Inv, Live, Forwarded, Object, Reachable;
    var top := t.place[|t.order|];
    var g' := Space(m, Elems(t.place[..|t.order|]), top, g.hi, roots);
    LayoutFacts(g, m, t, top);
    forall a | a in g'.objs ensures Object(g', a) && InSpan([Span(g.lo, pages)], a, SizeAt(g', a)) {
      var i :| 0 <= i < |t.order| && t.place[i] == a;
      CopyObject(g, m, t, roots, i);
      assert Span(g.lo, pages) in [Span(g.lo, pages)];
    }
    forall a, b | a in g'.objs && b in g'.objs ensures a < |m| && Apart(g', a, b) {
      var i, j :| 0 <= i < |t.order| && t.place[i] == a && 0 <= j < |t.order| && t.place[j] == b;
      CopyReads(g, m, t, i);
      CopiesApart(g, m, t, i, j);
    }
    forall i | 0 <= i < |roots| && IsBoxed(roots[i]) ensures roots[i] / 8 in g'.objs {
      ForwardedToCopy(g, m, t, g.roots[i], roots[i]);
    }
  }

  lemma ForwardedToCopy(g: Space, m: seq<Word>, t: Trace, w: Word, w': Word)
    requires |t.order| < |t.place| && Inv(g, m, t, t.place[|t.order|]) && Forwarded(t, w, w') && IsBoxed(w')
    ensures w' / 8 in Elems(t.place[..|t.order|])
  {
    hide Inv;
    ForwardedInside(g, m, t, w, w');
    var i :| 0 <= i < |t.order| && t.order[i] == w / 8 && w' == 8 * t.place[i];
    assert t.place[..|t.order|][i] == t.place[i];
  }

  lemma CopiesApart(g: Space, m: seq<Word>, t: Trace, i: nat, j: nat)
    requires i < |t.order| < |t.place| && j < |t.order| && Inv(g, m, t, t.place[|t.order|])
    ensures t.order[i] < |g.mem|
    ensures t.place[i] < t.place[j] ==> t.place[i] + Size(g.mem[t.order[i]]) <= t.place[j]
  {
    hide Headers, Copies, WellFormed, Reachable;
    assert Entry(g, t, i) && Entry(g, t, j);
    if i < j { assert Before(t, i, j); }
    if j < i { assert Before(t, j, i); }
  }

  lemma CopyObject(g: Space, m: seq<Word>, t: Trace, roots: seq<Word>, i: nat)
    requires Evacuated(g, m, t, roots) && i < |t.order|
    ensures var g' := Space(m, Elems(t.place[..|t.order|]), t.place[|t.order|], g.hi, roots); var a := t.place[i];
      && Object(g', a) && g.lo <= a && a + Size(m[a]) <= t.place[|t.order|]
  {
    hide Inv, Live, Forwarded, Reachable, Raw;
    CopyReads(g, m, t, i);
    LayoutFacts(g, m, t, t.place[|t.order|]);
    var a, old_ := t.place[i], t.order[i];
    assert Object(g, old_) && m[a] == g.mem[old_];
    var first, size := FirstSlot(m[a]), Size(m[a]);
    forall k | a + first <= k < a + size && IsBoxed(m[k]) ensures m[k] / 8 in Elems(t.place[..|t.order|]) {
      assert SlotForwarded(g, m, t, i, k - a);
      ForwardedToCopy(g, m, t, g.mem[old_ + (k - a)], m[k]);
    }
    forall k | a < k < a + first ensures m[k] == g.mem[old_ + (k - a)] {
      CopyCell(g, m, t, i, k - a);
    }
  }

  lemma CopyCell(g: Space, m: seq<Word>, t: Trace, i: nat, j: nat)
    requires i < |t.order| < |t.place| && Inv(g, m, t, t.place[|t.order|]) && Entry(g, t, i)
    requires j < FirstSlot(g.mem[t.order[i]]) <= Size(g.mem[t.order[i]])
    ensures t.place[i] + j < |m| && t.order[i] + j < |g.mem| && m[t.place[i] + j] == g.mem[t.order[i] + j]
  {
    hide Headers, WellFormed, Reachable;
    assert InCopy(t, i, j) && Cell(g, m, t, t.place[|t.order|], i, j);
  }

  /** Objects do not depend on which of them are roots. */
  lemma Reroot(g: Space, spans: seq<Span>, roots: seq<Word>)
    requires OwnObjects(g, spans) && forall i :: 0 <= i < |roots| && IsBoxed(roots[i]) ==> roots[i] / 8 in g.objs
    ensures OwnObjects(g.(roots := roots), spans)
  {
    hide InSpan;
    var g' := g.(roots := roots);
    forall a | a in g'.objs ensures Object(g', a) && InSpan(spans, a, SizeAt(g', a)) {
      assert Object(g, a) && InSpan(spans, a, SizeAt(g, a));
    }
    forall a, b | a in g.objs && b in g.objs ensures Apart(g', a, b) { assert Object(g, a) && Apart(g, a, b); }
  }

  lemma MoreSpans(g: Space, spans: seq<Span>, s: Span)
    requires OwnObjects(g, spans)
    ensures OwnObjects(g, spans + [s])
  {
    hide Object, Apart;
    forall a | a in g.objs ensures InSpan(spans + [s], a, SizeAt(g, a)) {
      var s' :| s' in spans && s'.base <= a && a + SizeAt(g, a) <= s'.base + s'.Words();
      assert s' in spans + [s];
    }
  }

  /** Words that make one whole object over the given ones. */
  ghost predicate Whole(words: seq<Word>, objs: set<nat>)
  {
    && |words| > 0 && ValidKind(words[0]) && |words| == Size(words[0])
    && (forall k :: FirstSlot(words[0]) <= k < |words| && IsBoxed(words[k]) ==> words[k] / 8 in objs)
    && (words[0] % 8 == KIND_MAP ==> forall k :: 0 < k < FirstSlot(words[0]) ==> IsImmediate(words[k]))
  }

  lemma WrittenObject(g: Space, m: seq<Word>, a: nat, words: seq<Word>, objs: set<nat>)
    requires Whole(words, objs) && a + |words| <= |m| && m[a..a + |words|] == words
    requires g.mem == m && objs <= g.objs && g.lo == a + |words|
    ensures Object(g, a) && Size(m[a]) == |words|
  {
    assert m[a] == m[a..a + |words|][0];
    forall k | a < k < a + |words| ensures m[k] == words[k - a] { assert m[k] == m[a..a + |words|][k - a]; }
  }

  /** A whole object written at the start of the free words joins the others. */
  lemma BuiltOwn(g: Space, spans: seq<Span>, m: seq<Word>, words: seq<Word>)
    requires OwnObjects(g, spans) && Whole(words, g.objs) && g.lo + |words| <= g.hi && InSpan(spans, g.lo, |words|)
    requires |m| == |g.mem| && m[g.lo..g.lo + |words|] == words
    requires forall k :: 0 <= k < |m| && !(g.lo <= k < g.lo + |words|) ==> m[k] == g.mem[k]
    ensures OwnObjects(Space(m, g.objs + {g.lo}, g.lo + |words|, g.hi, g.roots + [8 * g.lo]), spans)
  {
    hide InSpan;
    var a, g' := g.lo, Space(m, g.objs + {g.lo}, g.lo + |words|, g.hi, g.roots + [8 * g.lo]);
    WrittenObject(g', m, a, words, g.objs);
    forall b | b in g.objs ensures Object(g', b) && InSpan(spans, b, SizeAt(g', b)) && SizeAt(g', b) == SizeAt(g, b) {
      assert Object(g, b) && InSpan(spans, b, SizeAt(g, b));
      SizePositive(g, b);
    }
    forall b, c | b in g'.objs && c in g'.objs ensures Apart(g', b, c) {
      if b in g.objs && c in g.objs { assert Apart(g, b, c); }
      if b in g.objs { assert Object(g, b); }
      if c in g.objs { assert Object(g, c); }
    }
  }

  datatype Outcome = NotPressured | NoFrames | QuotaPanic | Compacted

  class ProcHeap {
    const mem: array<Word>
    const maxPages: nat
    var cur: Heap
    var spans: seq<Span>
    var totalPages: nat

    /** The newest span is the bump target, and the page count obeys the quota. */
    ghost predicate Valid()
      reads this, cur
    {
      && cur.Valid() && cur.mem == mem
      && |spans| > 0
      && spans[|spans| - 1] == Span(cur.base, spans[|spans| - 1].pages)
      && cur.cap == spans[|spans| - 1].Words()
      && totalPages == Pages(spans)
      && totalPages <= (if maxPages == 0 then 1 else maxPages)
    }

    constructor (mem: array<Word>, initialPages: nat, maxPages: nat, frames: nat -> Option<nat>)
      requires GoodFrames(frames, [], mem.Length)
      requires frames(Max(Min(initialPages, maxPages), 1)).Some?
      ensures Valid() && fresh(cur) && this.mem == mem && this.maxPages == maxPages
      ensures |spans| == 1 && totalPages == Max(Min(initialPages, maxPages), 1) && cur.top == 0
      ensures Tidy({}, [])
    {
      var pages := Max(Min(initialPages, maxPages), 1);
      var base := frames(pages).value;
      this.mem, this.maxPages := mem, maxPages;
      this.cur := new Heap(mem, base, pages * PAGE_WORDS);
      this.spans, this.totalPages := [Span(base, pages)], pages;
      new;
      PagesSnoc([], Span(base, pages));
      assert [] + [Span(base, pages)] == spans;
    }

    /** The objects lie whole in the spans, clear of the words still to be handed out, and
        they and the roots refer to no others. */
    ghost predicate Tidy(objs: set<nat>, roots: seq<Word>)
      reads this, cur, mem
    {
      Valid() && OwnObjects(Space(mem[..], objs, cur.base + cur.top, cur.base + cur.cap, roots), spans)
    }

    /** Adds a span (doubling, clamped to the quota); nothing already built moves. */
    method Grow(frames: nat -> Option<nat>, ghost objs: set<nat>, ghost roots: seq<Word>) returns (ok: bool)
      requires Valid() && GoodFrames(frames, spans, mem.Length)
      modifies this
      ensures Valid()
      ensures ok <==> old(totalPages) < maxPages && frames(Min(old(totalPages), maxPages - old(totalPages))).Some?
      ensures !ok ==> spans == old(spans) && cur == old(cur) && totalPages == old(totalPages)
      ensures ok ==> fresh(cur) && cur.top == 0 && |spans| == |old(spans)| + 1 && spans[..|spans| - 1] == old(spans)
      ensures ok ==> FreshSpan(old(spans), spans[|spans| - 1])
      ensures ok ==> totalPages == Min(2 * old(totalPages), maxPages)
      ensures old(Tidy(objs, roots)) ==> Tidy(objs, roots)
    {
      hide OwnObjects;
      ghost var g := Space(mem[..], objs, cur.base + cur.top, cur.base + cur.cap, roots);
      if totalPages >= maxPages { return false; }
      var next := Min(totalPages, maxPages - totalPages);
      var phys := frames(next);
      if phys.None? { return false; }
      PagesSnoc(spans, Span(phys.value, next));
      if OwnObjects(g, spans) {
        AimAt(g, spans, phys.value, next);
        MoreSpans(g.(lo := phys.value, hi := phys.value + next * PAGE_WORDS), spans, Span(phys.value, next));
      }
      spans := spans + [Span(phys.value, next)];
      totalPages := totalPages + next;
      cur := new Heap(mem, phys.value, next * PAGE_WORDS);
      return true;
    }

    /** Builds one object of the words given, as `tuple`, `cons` and `binary` do; what was
        built before keeps its meaning. */
    method Build(words: seq<Word>, ghost objs: set<nat>, ghost roots: seq<Word>) returns (r: Option<Word>)
      requires Tidy(objs, roots) && Whole(words, objs)
      modifies cur`top, mem
      ensures r.Some? <==> old(cur.top) + |words| <= cur.cap
      ensures r.None? ==> Tidy(objs, roots) && mem[..] == old(mem[..]) && cur.top == old(cur.top)
      ensures r.Some? ==> r.value == 8 * (cur.base + old(cur.top)) && cur.top == old(cur.top) + |words|
      ensures r.Some? ==> Tidy(objs + {r.value / 8}, roots + [r.value])
      ensures r.Some? ==> mem[r.value / 8..r.value / 8 + |words|] == words
      ensures forall w: Word, v: Value :: (IsBoxed(w) ==> w / 8 in objs) && Rep(old(mem[..]), Outside(0, 0), w, v) ==>
        Rep(mem[..], Outside(0, 0), w, v)
    {
      hide OwnObjects, Rep, Whole, Pages, InSpan;
      ghost var g := Space(mem[..], objs, cur.base + cur.top, cur.base + cur.cap, roots);
      var p := cur.Alloc(|words|);
      if p.None? { return None; }
      WriteWords(mem, p.value, words);
      InCurrent(spans, p.value, |words|, cur.base, cur.cap);
      BuiltOwn(g, spans, mem[..], words);
      ghost var g' := Space(mem[..], objs + {g.lo}, g.lo + |words|, g.hi, roots + [8 * g.lo]);
      ValuesKept(g, g', spans, mem[..], |words|);
      r := Some(8 * p.value);
    }

    predicate Pressured()
      reads this, cur
    {
      |spans| > 1 || cur.top * 8 * 2 > cur.cap * 8
    }

    /** Words the roots would take copied apart, plus the estimate's slack. */
    method LiveEstimate(roots: array<Word>, ghost R: Region, ghost vs: seq<Value>) returns (live: nat)
      requires RepSeq(mem[..], R, roots[..], vs)
      ensures live == DeepSizes(vs) + |vs| + 32
    {
      hide Rep, DeepSize, DeepSizes;
      live := 0;
      RepAllStart([], R, 0, vs);
      for i := 0 to roots.Length
        invariant live == DeepSizes(vs[..i])
      {
        assert roots[..][i] == roots[i];
        var words := TermSizeWords(mem, roots[i], R, vs[i]);
        DeepSizesPrefix(vs, i);
        live := live + words;
      }
      assert vs[..roots.Length] == vs;
      live := live + roots.Length + 32;
    }

    /** Trampoline-point collection. It panics exactly when there is pressure and the quota
        is under four pages; evacuation itself never runs out of room. Afterwards one span
        within the quota holds exactly the live objects, every root means what it meant, and
        the heap is as ready for the next hop as it was for this. */
    method MaybeCompact(roots: array<Word>, frames: nat -> Option<nat>, ghost objs: set<nat>, ghost vs: seq<Value>)
      returns (outcome: Outcome, oldSpans: seq<Span>, ghost kept: set<nat>)
      requires Tidy(objs, roots[..]) && roots != mem && GoodFrames(frames, spans, mem.Length)
      requires RepSeq(mem[..], Outside(0, 0), roots[..], vs)
      modifies this, roots, mem
      ensures outcome.NotPressured? <==> |old(spans)| == 1 && 2 * old(cur.top) <= old(cur.cap)
      ensures outcome.QuotaPanic? <==> !outcome.NotPressured? && maxPages < 4
      ensures outcome.NoFrames? ==> exists n :: Sufficient(DeepSizes(vs) + |vs| + 32, maxPages, n) && frames(n).None?
      ensures !outcome.Compacted? ==> mem[..] == old(mem[..]) && roots[..] == old(roots[..])
      ensures !outcome.Compacted? ==> spans == old(spans) && cur == old(cur) && totalPages == old(totalPages)
      ensures Tidy(kept, roots[..]) && RepSeq(mem[..], Outside(0, 0), roots[..], vs)
      ensures outcome.Compacted? ==>
        var g := Space(old(mem[..]), objs, cur.base, cur.base + cur.cap, old(roots[..]));
        && oldSpans == old(spans)
        && Sufficient(DeepSizes(vs) + |vs| + 32, maxPages, totalPages) && frames(totalPages) == Some(cur.base)
        && fresh(cur) && |spans| == 1 && FreshSpan(old(spans), spans[0])
        && cur.top == Total(g, Live(g))
        && RepSeq(mem[..], Inside(cur.base, cur.base + cur.top), roots[..], vs)
    {
      hide Rep, RepSeq, OwnObjects, WellFormed, Live, Total, DeepSizes, Pages, Evacuated, FreshSpan, Sufficient,
        TargetPages;
      oldSpans, kept := [], objs;
      if !Pressured() { return NotPressured, oldSpans, kept; }
      var live := LiveEstimate(roots, Outside(0, 0), vs);
      if maxPages < 4 { return QuotaPanic, oldSpans, kept; }
      var pages := TargetPages(live, maxPages);
      TargetSufficient(live, maxPages, pages);
      var phys := frames(pages);
      if phys.None? { return NoFrames, oldSpans, kept; }
      var lo, hi := phys.value, phys.value + pages * PAGE_WORDS;
      ghost var g0, g := Space(mem[..], objs, 0, 0, roots[..]), Space(mem[..], objs, lo, hi, roots[..]);
      assert FreshSpan(spans, Span(lo, pages));
      AimNowhere(Space(mem[..], objs, cur.base + cur.top, cur.base + cur.cap, roots[..]), spans);
      AimAt(g0, spans, lo, pages);
      OwnedWellFormed(g, spans);
      RootsOutside(g, Outside(0, 0), vs);
      LiveWithinSpans(g, spans);
      LiveWithinEstimate(g, Outside(lo, hi), vs);
      TargetFits(live, maxPages, totalPages, Total(g, Live(g)));
      oldSpans, spans, totalPages := spans, [Span(lo, pages)], pages;
      PagesOne(Span(lo, pages));
      cur := new Heap(mem, lo, pages * PAGE_WORDS);
      ghost var t;
      var ok;
      ok, t := Evacuate(roots, cur, g);
      assert ok;
      MeaningKept(g, mem[..], t, roots[..], vs);
      EvacuatedTop(g, mem[..], t, roots[..]);
      kept := Elems(t.place[..|t.order|]);
      CopiesOwn(g, mem[..], t, roots[..], pages);
      MeaningAnywhere(mem[..], Inside(lo, t.place[|t.order|]), roots[..], vs);
      outcome := Compacted;
    }
  }

  method WriteWords(mem: array<Word>, at: nat, words: seq<Word>)
    requires at + |words| <= mem.Length
    modifies mem
    ensures mem[at..at + |words|] == words
    ensures forall k :: 0 <= k < mem.Length && !(at <= k < at + |words|) ==> mem[k] == old(mem[k])
  {
    for i := 0 to |words|
      invariant mem[at..at + i] == words[..i]
      invariant forall k :: 0 <= k < mem.Length && !(at <= k < at + i) ==> mem[k] == old(mem[k])
    {
      mem[at + i] := words[i];
      assert mem[at..at + i + 1] == mem[at..at + i] + [words[i]];
    }
  }

  /** Writing to free words changes no meaning. */
  lemma ValuesKept(g: Space, g': Space, spans: seq<Span>, m: seq<Word>, n: nat)
    requires OwnObjects(g, spans) && |m| == |g.mem| && g.lo + n <= g.hi
    requires OwnObjects(g', spans) && g'.mem == m && g.objs <= g'.objs
    requires forall k :: 0 <= k < |m| && !(g.lo <= k < g.lo + n) ==> m[k] == g.mem[k]
    ensures forall w: Word, v: Value :: (IsBoxed(w) ==> w / 8 in g.objs) && Rep(g.mem, Outside(0, 0), w, v) ==>
      Rep(m, Outside(0, 0), w, v)
  {
    hide OwnObjects, Rep, WellFormed;
    AimNowhere(g', spans);
    OwnedWellFormed(g'.(lo := 0, hi := 0), spans);
    OwnedWellFormed(g, spans);
    forall w: Word, v: Value | (IsBoxed(w) ==> w / 8 in g.objs) && Rep(g.mem, Outside(0, 0), w, v)
      ensures Rep(m, Outside(0, 0), w, v)
    {
      RepOutside(g, Outside(0, 0), w, v);
      RepFrame(g.mem, m, Outside(g.lo, g.hi), Outside(g.lo, g.hi), w, v);
      RepOutside(g'.(lo := 0, hi := 0), Outside(g.lo, g.hi), w, v);
    }
  }

  function Min(a: nat, b: nat): nat { if a < b then a else b }
  function Max(a: nat, b: nat): nat { if a > b then a else b }

  lemma PagesSnoc(spans: seq<Span>, s: Span)
    ensures Pages(spans + [s]) == Pages(spans) + s.pages
  {
    assert (spans + [s])[..|spans|] == spans;
  }

  lemma PagesOne(s: Span)
    ensures Pages([s]) == s.pages
  {
    PagesSnoc([], s);
    assert [] + [s] == [s];
  }

  lemma OwnedWellFormed(g: Space, spans: seq<Span>)
    requires OwnObjects(g, spans)
    ensures WellFormed(g)
  {
  }

  lemma AimAt(g: Space, spans: seq<Span>, lo: nat, pages: nat)
    requires OwnObjects(g, spans) && FreshSpan(spans, Span(lo, pages)) && lo + pages * PAGE_WORDS <= |g.mem|
    ensures OwnObjects(g.(lo := lo, hi := lo + pages * PAGE_WORDS), spans)
  {
    hide OwnObjects;
    Retarget(g, spans, lo, lo + pages * PAGE_WORDS);
  }

  lemma AimNowhere(g: Space, spans: seq<Span>)
    requires OwnObjects(g, spans)
    ensures OwnObjects(g.(lo := 0, hi := 0), spans)
  {
    hide OwnObjects;
    Retarget(g, spans, 0, 0);
  }

  lemma InCurrent(spans: seq<Span>, a: nat, n: nat, base: nat, cap: nat)
    requires |spans| > 0 && spans[|spans| - 1].base == base && spans[|spans| - 1].Words() == cap
    requires base <= a && a + n <= base + cap
    ensures InSpan(spans, a, n)
  {
    assert spans[|spans| - 1] in spans;
  }

  lemma MeaningAnywhere(m: seq<Word>, R: Region, ws: seq<Word>, vs: seq<Value>)
    requires RepSeq(m, R, ws, vs) && R.Inside?
    ensures RepSeq(m, Outside(0, 0), ws, vs)
  {
    hide Rep;
    AgreeSame(m, R);
    forall i | 0 <= i < |vs| ensures Rep(m, Outside(0, 0), ws[i], vs[i]) {
      RepFrame(m, m, R, Outside(0, 0), ws[i], vs[i]);
    }
  }

  lemma EvacuatedTop(g: Space, m: seq<Word>, t: Trace, roots: seq<Word>)
    requires Evacuated(g, m, t, roots)
    ensures |t.place| == |t.order| + 1 && t.place[|t.order|] == g.lo + Total(g, Live(g))
  {
    hide Total, Live, Forwarded, Headers, Copies;
    CopiedAreLive(g, t);
  }

  lemma MeaningKept(g: Space, m: seq<Word>, t: Trace, roots: seq<Word>, vs: seq<Value>)
    requires Evacuated(g, m, t, roots) && RepSeq(g.mem, Outside(g.lo, g.hi), g.roots, vs)
    ensures RepSeq(m, Inside(g.lo, t.place[|t.order|]), roots, vs)
  {
    hide Rep, Inv, Live, Forwarded;
    forall i | 0 <= i < |roots| ensures Rep(m, Inside(g.lo, t.place[|t.order|]), roots[i], vs[i]) {
      RootsKeepMeaning(g, m, t, roots, i, vs[i]);
    }
  }
}
