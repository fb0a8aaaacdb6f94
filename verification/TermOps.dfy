/** Exact sizes, structural equality and message fragments. */
module TermOps {
  import opened Terms
  import opened Heaps

  /** Heap words a deep copy of `t` takes. Lists are walked along their spine. */
  method TermSizeWords(mem: array<Word>, t: Word, ghost R: Region, ghost v: Value) returns (n: nat)
    requires Rep(mem[..], R, t, v)
    ensures n == DeepSize(v)
    decreases v
  {
    hide Rep, RepAll, Raw, ByteOf, DeepSizes;
    if !IsBoxed(t) {
      ImmediateRep(mem[..], R, t, v);
      return 0;
    }
    RepBox(mem[..], R, t, v);
    var header := mem[t / 8];
    if header % 8 == KIND_BINARY {
      n := 1 + DivCeil(header / 8, 8);
    } else if header % 8 == KIND_CONS {
      n := 0;
      var cur: Word := t;
      ghost var cv := v;
      while IsBoxed(cur) && mem[cur / 8] % 8 == KIND_CONS
        invariant Rep(mem[..], R, cur, cv) && n + DeepSize(cv) == DeepSize(v)
        invariant IsBoxed(cur) ==> cur / 8 < mem.Length
        invariant (cv == v && cur == t) || cv < v
        decreases cv
      {
        RepCons(mem[..], R, cur, cv);
        var words := TermSizeWords(mem, mem[cur / 8 + 1], R, cv.kids[0]);
        n := n + 3 + words;
        cur, cv := mem[cur / 8 + 2], cv.kids[1];
        if IsBoxed(cur) { RepBox(mem[..], R, cur, cv); }
      }
      var words := TermSizeWords(mem, cur, R, cv);
      n := n + words;
    } else {
      var first := if header % 8 == KIND_TUPLE then 1 else 1 + header / 8;
      n := first + header / 8;
      RepAllStart(mem[..], R, t / 8 + first, v.kids);
      for i := 0 to header / 8
        invariant n == first + header / 8 + DeepSizes(v.kids[..i])
      {
        RepAllAt(mem[..], R, t / 8 + first, v.kids, i);
        DeepSizesPrefix(v.kids, i);
        var words := TermSizeWords(mem, mem[t / 8 + first + i], R, v.kids[i]);
        n := n + words;
      }
      assert v.kids[..header / 8] == v.kids;
    }
  }

  /** Structural equality decides equality of meanings. */
  method Eq(mem: array<Word>, a: Word, b: Word, ghost R: Region, ghost va: Value, ghost vb: Value) returns (same: bool)
    requires Rep(mem[..], R, a, va) && Rep(mem[..], R, b, vb)
    ensures same <==> va == vb
    decreases va, 1
  {
    hide Rep, RepAll, Raw, ByteOf;
    if a == b {
      RepUnique(mem[..], R, a, va, vb);
      return true;
    }
    if !IsBoxed(a) || !IsBoxed(b) {
      BoxedIffBox(mem[..], R, a, va);
      BoxedIffBox(mem[..], R, b, vb);
      return false;
    }
    RepBox(mem[..], R, a, va);
    RepBox(mem[..], R, b, vb);
    var ha, hb := mem[a / 8], mem[b / 8];
    if ha % 8 != hb % 8 {
      return false;
    }
    if ha % 8 == KIND_TUPLE {
      if ha / 8 != hb / 8 { return false; }
      same := EqSlots(mem, a / 8 + 1, b / 8 + 1, ha / 8, R, va.kids, vb.kids);
      RawPrefix(mem[..], a / 8);
      RawPrefix(mem[..], b / 8);
    } else if ha % 8 == KIND_BINARY {
      same := EqBytes(mem, a, b, R, va, vb);
    } else if ha % 8 == KIND_MAP {
      same := EqMaps(mem, a, b, R, va, vb);
    } else {
      same := EqLists(mem, a, b, R, va, vb);
    }
  }

  method EqSlots(mem: array<Word>, x: nat, y: nat, n: nat, ghost R: Region, ghost vs: seq<Value>,
      ghost ws: seq<Value>) returns (same: bool)
    requires |vs| == n == |ws| && RepAll(mem[..], R, x, vs) && RepAll(mem[..], R, y, ws)
    ensures same <==> vs == ws
    decreases vs
  {
    hide Rep;
    for i := 0 to n
      invariant vs[..i] == ws[..i]
    {
      same := Eq(mem, mem[x + i], mem[y + i], R, vs[i], ws[i]);
      if !same { return; }
    }
    return true;
  }

  method EqBytes(mem: array<Word>, a: Word, b: Word, ghost R: Region, ghost va: Value, ghost vb: Value)
      returns (same: bool)
    requires Rep(mem[..], R, a, va) && Rep(mem[..], R, b, vb) && va.Box? && vb.Box?
    requires IsBoxed(a) && IsBoxed(b) && va.header % 8 == KIND_BINARY == vb.header % 8
    ensures same <==> va == vb
  {
    hide Rep, RepAll, ByteOf;
    RepBox(mem[..], R, a, va);
    RepBox(mem[..], R, b, vb);
    var len := mem[a / 8] / 8;
    if len != mem[b / 8] / 8 { return false; }
    for i := 0 to len
      invariant va.raw[..i] == vb.raw[..i]
    {
      if ByteAt(mem[..], a / 8 + 1, i) != ByteAt(mem[..], b / 8 + 1, i) {
        assert va.raw[i] != vb.raw[i];
        return false;
      }
    }
    return true;
  }

  lemma MapParts(m: seq<Word>, R: Region, w: Word, v: Value)
    requires Rep(m, R, w, v) && v.Box? && IsBoxed(w) && v.header % 8 == KIND_MAP
    ensures w / 8 < |m| && m[w / 8] == v.header && |v.kids| == v.header / 8 && w / 8 + 1 + 2 * |v.kids| <= |m|
    ensures v.raw == m[w / 8 + 1..w / 8 + 1 + |v.kids|] && RepAll(m, R, w / 8 + 1 + |v.kids|, v.kids)
  {
    hide RepAll;
  }

  method EqMaps(mem: array<Word>, a: Word, b: Word, ghost R: Region, ghost va: Value, ghost vb: Value)
      returns (same: bool)
    requires Rep(mem[..], R, a, va) && Rep(mem[..], R, b, vb) && va.Box? && vb.Box?
    requires IsBoxed(a) && IsBoxed(b) && va.header % 8 == KIND_MAP == vb.header % 8
    ensures same <==> va == vb
    decreases va, 0
  {
    hide Rep, RepAll;
    MapParts(mem[..], R, a, va);
    MapParts(mem[..], R, b, vb);
    var n := mem[a / 8] / 8;
    if n != mem[b / 8] / 8 { return false; }
    same := EqPairs(mem, a / 8 + 1, b / 8 + 1, n, R, va.kids, vb.kids);
  }

  /** Keys compare by raw word, values by meaning. */
  method EqPairs(mem: array<Word>, x: nat, y: nat, n: nat, ghost R: Region, ghost vs: seq<Value>,
      ghost ws: seq<Value>) returns (same: bool)
    requires x + n <= mem.Length && y + n <= mem.Length
    requires |vs| == n == |ws| && RepAll(mem[..], R, x + n, vs) && RepAll(mem[..], R, y + n, ws)
    ensures same <==> mem[x..x + n] == mem[y..y + n] && vs == ws
    decreases vs
  {
    hide Rep, RepAll;
    ghost var m := mem[..];
    for i := 0 to n
      invariant vs[..i] == ws[..i]
      invariant forall k :: x <= k < x + i ==> mem[k] == mem[k - x + y]
    {
      if mem[x + i] != mem[y + i] {
        assert mem[x..x + n][i] != mem[y..y + n][i];
        return false;
      }
      RepAllAt(m, R, x + n, vs, i);
      RepAllAt(m, R, y + n, ws, i);
      same := Eq(mem, mem[x + n + i], mem[y + n + i], R, vs[i], ws[i]);
      if !same { return; }
    }
    return true;
  }

  /** Two spines in step: equal heads and equal tails, and both end together. */
  method EqLists(mem: array<Word>, a: Word, b: Word, ghost R: Region, ghost va: Value, ghost vb: Value)
      returns (same: bool)
    requires Rep(mem[..], R, a, va) && Rep(mem[..], R, b, vb)
    requires IsBoxed(a) && IsBoxed(b) && va.Box? && vb.Box? && va.header % 8 == KIND_CONS == vb.header % 8
    ensures same <==> va == vb
    decreases va, 0
  {
    hide Rep, RepAll, Raw, ByteOf;
    var x: Word, y: Word := a, b;
    ghost var vx, vy := va, vb;
    while true
      invariant Rep(mem[..], R, x, vx) && Rep(mem[..], R, y, vy) && IsBoxed(x) && IsBoxed(y)
      invariant vx.Box? && vy.Box? && vx.header % 8 == KIND_CONS == vy.header % 8
      invariant (va == vb <==> vx == vy) && (vx == va || vx < va)
      decreases vx
    {
      ConsKind(mem[..], R, x, vx);
      ConsKind(mem[..], R, y, vy);
      RepCons(mem[..], R, x, vx);
      RepCons(mem[..], R, y, vy);
      same := Eq(mem, mem[x / 8 + 1], mem[y / 8 + 1], R, vx.kids[0], vy.kids[0]);
      if !same { return; }
      x, y, vx, vy := mem[x / 8 + 2], mem[y / 8 + 2], vx.kids[1], vy.kids[1];
      ConsKind(mem[..], R, x, vx);
      ConsKind(mem[..], R, y, vy);
      var xCons := IsBoxed(x) && mem[x / 8] % 8 == KIND_CONS;
      var yCons := IsBoxed(y) && mem[y / 8] % 8 == KIND_CONS;
      if xCons != yCons {
        return false;
      }
      if !xCons {
        same := Eq(mem, x, y, R, vx, vy);
        return;
      }
    }
  }

  lemma ImmediateRep(m: seq<Word>, R: Region, w: Word, v: Value)
    requires Rep(m, R, w, v) && !IsBoxed(w)
    ensures v == Imm(w)
  {
  }

  lemma ConsKind(m: seq<Word>, R: Region, w: Word, v: Value)
    requires Rep(m, R, w, v)
    ensures IsBoxed(w) ==> w / 8 < |m|
    ensures (IsBoxed(w) && m[w / 8] % 8 == KIND_CONS) <==> (v.Box? && v.header % 8 == KIND_CONS)
    ensures (IsBoxed(w) && m[w / 8] % 8 == KIND_CONS) ==> IsBoxed(w)
  {
  }

  /** A cons word and the values of its head and tail. */
  lemma RepCons(m: seq<Word>, R: Region, w: Word, v: Value)
    requires Rep(m, R, w, v) && IsBoxed(w) && w / 8 < |m| && m[w / 8] % 8 == KIND_CONS
    ensures w / 8 + 2 < |m| && v.Box? && |v.kids| == 2 && v == ConsValue(v.kids[0], v.kids[1])
    ensures Rep(m, R, m[w / 8 + 1], v.kids[0]) && Rep(m, R, m[w / 8 + 2], v.kids[1])
    ensures DeepSize(v) == 3 + DeepSize(v.kids[0]) + DeepSize(v.kids[1])
  {
    hide Rep, RepAll;
    RepBox(m, R, w, v);
    RepAllAt(m, R, w / 8 + 1, v.kids, 0);
    RepAllAt(m, R, w / 8 + 1, v.kids, 1);
    assert v.kids == [v.kids[0], v.kids[1]];
    ConsSize(v.kids[0], v.kids[1]);
  }

  /** A message fragment: backing sized from the term itself, so the copy cannot fail.
      The backing is any span the term does not live in. */
  method FragmentCopyFrom(mem: array<Word>, t: Word, base: nat, cap: nat, ghost v: Value)
      returns (root: Word, words: nat)
    requires base + cap <= mem.Length && DeepSize(v) <= cap && 1 <= cap
    requires Rep(mem[..], Outside(base, base + cap), t, v)
    modifies mem
    ensures words == (if DeepSize(v) > 1 then DeepSize(v) else 1)
    ensures Rep(mem[..], Inside(base, base + DeepSize(v)), root, v)
    ensures Agree(old(mem[..]), mem[..], Outside(base, base + words))
  {
    hide Rep, RepAll, DeepSize, Agree;
    words := TermSizeWords(mem, t, Outside(base, base + cap), v);
    words := if words > 1 then words else 1;
    var heap := new Heap(mem, base, words);
    AgreeSame(mem[..], Outside(base, base + cap));
    RepFrame(mem[..], mem[..], Outside(base, base + cap), Outside(base, base + words), t, v);
    var copied := CopyTerm(t, heap, Outside(base, base + words), v);
    root := copied.value;
  }
}
