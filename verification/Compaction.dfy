/** Why a compaction target always fits: the live objects take no more words than the
    size estimate of the roots, and no more than the spans they came from. */
module CompactionBounds {
  import opened Terms
  import opened Heaps
  import opened Evacuation

  /** Addresses of the objects a word's meaning is built from. */
  ghost function Below(m: seq<Word>, w: Word, v: Value): set<nat>
    decreases v, 1
  {
    match v
    case Imm(_) => {}
    case Box(h, _, kids) => {w / 8} + BelowAll(m, Slots(m, w, h, kids), kids)
  }

  ghost function Slots(m: seq<Word>, w: Word, h: Word, kids: seq<Value>): seq<Word>
  {
    var at := w / 8 + FirstSlot(h);
    if at + |kids| <= |m| then m[at..at + |kids|] else []
  }

  ghost function BelowAll(m: seq<Word>, ws: seq<Word>, vs: seq<Value>): set<nat>
    decreases vs, 0
  {
    if vs == [] || |ws| != |vs| then {}
    else BelowAll(m, ws[..|ws| - 1], vs[..|vs| - 1]) + Below(m, ws[|ws| - 1], vs[|vs| - 1])
  }

  ghost predicate RepSeq(m: seq<Word>, R: Region, ws: seq<Word>, vs: seq<Value>)
  {
    |ws| == |vs| && forall i :: 0 <= i < |ws| ==> Rep(m, R, ws[i], vs[i])
  }

  lemma RepKids(m: seq<Word>, R: Region, w: Word, v: Value)
    requires Rep(m, R, w, v) && v.Box?
    ensures IsBoxed(w) && w / 8 < |m| && m[w / 8] == v.header && w / 8 + Size(v.header) <= |m|
    ensures |v.kids| == Size(v.header) - FirstSlot(v.header)
    ensures |Slots(m, w, v.header, v.kids)| == |v.kids| && RepSeq(m, R, Slots(m, w, v.header, v.kids), v.kids)
    ensures w / 8 + FirstSlot(v.header) + |v.kids| <= |m|
    ensures Slots(m, w, v.header, v.kids) == m[w / 8 + FirstSlot(v.header)..w / 8 + Size(v.header)]
  {
    hide Rep, RepAll, Raw, RepSeq;
    BoxedIffBox(m, R, w, v);
    RepBox(m, R, w, v);
    SlotsRep(m, R, w / 8 + FirstSlot(v.header), v.kids);
  }

  lemma SlotsRep(m: seq<Word>, R: Region, at: nat, vs: seq<Value>)
    requires RepAll(m, R, at, vs)
    ensures at + |vs| <= |m| && RepSeq(m, R, m[at..at + |vs|], vs)
  {
    hide Rep;
  }

  lemma TotalUnion(g: Space, A: set<nat>, B: set<nat>)
    ensures Total(g, A + B) <= Total(g, A) + Total(g, B)
    decreases |A|
  {
    hide Total;
    if A == {} {
      assert A + B == B;
    } else {
      var a :| a in A;
      TotalRemove(g, A, a);
      TotalRemove(g, A + B, a);
      TotalUnion(g, A - {a}, B - {a});
      assert A - {a} + (B - {a}) == A + B - {a};
      TotalSubset(g, B - {a}, B);
    }
  }

  lemma TotalEmpty(g: Space, S: set<nat>)
    requires S == {}
    ensures Total(g, S) == 0
  {
  }

  /** A value's objects together take at most the words of its deep copy. */
  lemma {:induction false} BelowTotal(g: Space, R: Region, w: Word, v: Value)
    requires Rep(g.mem, R, w, v)
    ensures Total(g, Below(g.mem, w, v)) <= DeepSize(v)
    decreases v, 1
  {
    hide Rep, RepSeq, DeepSizes, Total, Slots;
    if v.Box? {
      RepKids(g.mem, R, w, v);
      var kids := BelowAll(g.mem, Slots(g.mem, w, v.header, v.kids), v.kids);
      BelowAllTotal(g, R, Slots(g.mem, w, v.header, v.kids), v.kids);
      TotalUnion(g, {w / 8}, kids);
      TotalRemove(g, {w / 8}, w / 8);
      TotalEmpty(g, {w / 8} - {w / 8});
    } else {
      TotalEmpty(g, {});
    }
  }

  lemma {:induction false} BelowAllTotal(g: Space, R: Region, ws: seq<Word>, vs: seq<Value>)
    requires RepSeq(g.mem, R, ws, vs)
    ensures Total(g, BelowAll(g.mem, ws, vs)) <= DeepSizes(vs)
    decreases vs, 0
  {
    hide Rep, Total, DeepSize, Below;
    if vs == [] {
      TotalEmpty(g, BelowAll(g.mem, ws, vs));
    } else {
      var n := |vs| - 1;
      BelowAllTotal(g, R, ws[..n], vs[..n]);
      BelowTotal(g, R, ws[n], vs[n]);
      TotalUnion(g, BelowAll(g.mem, ws[..n], vs[..n]), Below(g.mem, ws[n], vs[n]));
    }
  }

  /** A boxed word's own object is among those below it. */
  lemma {:induction false} BelowHas(m: seq<Word>, R: Region, ws: seq<Word>, vs: seq<Value>, i: nat)
    requires RepSeq(m, R, ws, vs) && i < |ws| && IsBoxed(ws[i])
    ensures ws[i] / 8 in BelowAll(m, ws, vs)
    decreases |ws|
  {
    hide Rep;
    if i == |ws| - 1 {
      BoxedIffBox(m, R, ws[i], vs[i]);
    } else {
      BelowHas(m, R, ws[..|ws| - 1], vs[..|vs| - 1], i);
    }
  }

  /** The objects below a word are closed under reference. */
  lemma {:induction false} BelowClosed(g: Space, R: Region, w: Word, v: Value, a: nat, b: nat)
    requires Rep(g.mem, R, w, v) && a in Below(g.mem, w, v) && Edge(g, a, b)
    ensures b in Below(g.mem, w, v)
    decreases v, 1
  {
    hide Rep, RepSeq, Edge;
    RepKids(g.mem, R, w, v);
    var ws := Slots(g.mem, w, v.header, v.kids);
    if a == w / 8 {
      EdgeBelow(g, R, w, v, b);
    } else {
      BelowAllClosed(g, R, ws, v.kids, a, b);
    }
  }

  lemma EdgeBelow(g: Space, R: Region, w: Word, v: Value, b: nat)
    requires Rep(g.mem, R, w, v) && v.Box? && Edge(g, w / 8, b)
    ensures b in Below(g.mem, w, v)
  {
    hide Rep, RepSeq;
    RepKids(g.mem, R, w, v);
    var a, ws := w / 8, Slots(g.mem, w, v.header, v.kids);
    var k :| a + FirstSlot(g.mem[a]) <= k < a + Size(g.mem[a]) && g.mem[k] == 8 * b;
    assert ws[k - a - FirstSlot(g.mem[a])] == 8 * b;
    BelowHas(g.mem, R, ws, v.kids, k - a - FirstSlot(g.mem[a]));
  }

  lemma {:induction false} BelowAllClosed(g: Space, R: Region, ws: seq<Word>, vs: seq<Value>, a: nat, b: nat)
    requires RepSeq(g.mem, R, ws, vs) && a in BelowAll(g.mem, ws, vs) && Edge(g, a, b)
    ensures b in BelowAll(g.mem, ws, vs)
    decreases vs, 0
  {
    hide Rep, Edge, Below;
    var n := |vs| - 1;
    if a in Below(g.mem, ws[n], vs[n]) {
      BelowClosed(g, R, ws[n], vs[n], a, b);
    } else {
      BelowAllClosed(g, R, ws[..n], vs[..n], a, b);
    }
  }

  lemma {:induction false} PathBelow(g: Space, R: Region, vs: seq<Value>, p: seq<nat>)
    requires RepSeq(g.mem, R, g.roots, vs) && Path(g, p)
    ensures p[|p| - 1] in BelowAll(g.mem, g.roots, vs)
    decreases |p|
  {
    hide Rep, RepSeq, BelowAll, Edge;
    if |p| == 1 {
      var i :| 0 <= i < |g.roots| && g.roots[i] == 8 * p[0];
      BelowHas(g.mem, R, g.roots, vs, i);
    } else {
      PathBelow(g, R, vs, p[..|p| - 1]);
      assert Edge(g, p[|p| - 2], p[|p| - 1]);
      BelowAllClosed(g, R, g.roots, vs, p[|p| - 2], p[|p| - 1]);
    }
  }

  /** The size estimate of the roots, which counts shared parts again and again, is an
      upper bound on what a sharing collection copies. */
  lemma LiveWithinEstimate(g: Space, R: Region, vs: seq<Value>)
    requires RepSeq(g.mem, R, g.roots, vs)
    ensures Total(g, Live(g)) <= DeepSizes(vs)
  {
    hide Rep, RepSeq, BelowAll, Total, Edge;
    forall a | a in Live(g) ensures a in BelowAll(g.mem, g.roots, vs) {
      var p :| Path(g, p) && p[|p| - 1] == a;
      PathBelow(g, R, vs, p);
    }
    TotalSubset(g, Live(g), BelowAll(g.mem, g.roots, vs));
    BelowAllTotal(g, R, g.roots, vs);
  }

  ghost function Cells(lo: nat, n: nat): (r: set<nat>)
    ensures forall k :: k in r <==> lo <= k < lo + n
    ensures |r| == n
  {
    if n == 0 then {} else Cells(lo, n - 1) + {lo + n - 1}
  }

  /** Objects that do not overlap take no more words than the cells they lie in. */
  lemma {:induction false} TotalWithinCells(g: Space, S: set<nat>, U: set<nat>)
    requires WellFormed(g) && S <= g.objs
    requires forall a :: a in S ==> Cells(a, SizeAt(g, a)) <= U
    ensures Total(g, S) <= |U|
    decreases |S|
  {
    hide Total, WellFormed;
    if S == {} {
      TotalEmpty(g, S);
    } else {
      var a :| a in S;
      var c := Cells(a, SizeAt(g, a));
      TotalRemove(g, S, a);
      forall b | b in S - {a} ensures Cells(b, SizeAt(g, b)) <= U - c { CellsApart(g, a, b); }
      TotalWithinCells(g, S - {a}, U - c);
      assert |U - c| == |U| - |c|;
    }
  }

  lemma CellsApart(g: Space, a: nat, b: nat)
    requires WellFormed(g) && a in g.objs && b in g.objs && a != b
    ensures Cells(a, SizeAt(g, a)) !! Cells(b, SizeAt(g, b))
  {
    hide Cells;
    assert Object(g, a) && Object(g, b) && Apart(g, a, b) && Apart(g, b, a);
  }
}
