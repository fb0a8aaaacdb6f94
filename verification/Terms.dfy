/** Tagged words, boxed objects, and what a word means.

    A term is one word whose low three bits are its tag. A boxed term (tag 0) is the
    byte address of an object, so a word-addressed memory is indexed by `w / 8`. Each
    object starts with a header word: low three bits are the kind, the rest its arity.

    `Rep` gives a word its meaning as a finite tree. It recurses over the tree, not over
    memory, so it says by itself that the structure below the word has no cycle. */
module Terms {

  type Word = nat

  const KIND_TUPLE: nat := 0
  const KIND_CONS: nat := 1
  const KIND_BINARY: nat := 2
  const KIND_MAP: nat := 3
  const KIND_FWD: nat := 7

  predicate IsBoxed(w: Word) { w % 8 == 0 }

  /** Integers, atoms, pids, refs, nil and ports. Tag 7 is never a term. */
  predicate IsImmediate(w: Word) { 1 <= w % 8 <= 6 }

  predicate ValidKind(header: Word) { header % 8 <= KIND_MAP }

  function DivCeil(a: nat, b: nat): nat
    requires b > 0
  {
    (a + b - 1) / b
  }

  /** Words an object with this header occupies, the header included. */
  function Size(header: Word): nat
  {
    var n := header / 8;
    if header % 8 == KIND_TUPLE then 1 + n
    else if header % 8 == KIND_CONS then 3
    else if header % 8 == KIND_BINARY then 1 + DivCeil(n, 8)
    else 1 + 2 * n
  }

  /** Slots holding terms run from here to the end of the object. */
  function FirstSlot(header: Word): nat
  {
    if header % 8 == KIND_BINARY then Size(header)
    else if header % 8 == KIND_MAP then 1 + header / 8
    else 1
  }

  /** Byte `j` of a little-endian word. */
  function ByteOf(w: Word, j: nat): nat
  {
    if j == 0 then w % 256 else ByteOf(w / 256, j - 1)
  }

  /** The number little-endian bytes spell. */
  ghost function Spelled(bytes: seq<nat>): nat { if bytes == [] then 0 else bytes[0] + 256 * Spelled(bytes[1..]) }

  ghost function Bound(n: nat): nat { if n == 0 then 1 else 256 * Bound(n - 1) }

  /** The low `n` bytes of a word of `n` bytes spell it, and are bytes. */
  lemma {:induction false} BytesSpell(w: Word, n: nat)
    requires w < Bound(n)
    ensures Spelled(seq(n, j requires 0 <= j < n => ByteOf(w, j))) == w
    ensures forall j :: 0 <= j < n ==> ByteOf(w, j) < 256
    decreases n
  {
    if n > 0 {
      BytesSpell(w / 256, n - 1);
      var all := seq(n, j requires 0 <= j < n => ByteOf(w, j));
      assert all[1..] == seq(n - 1, j requires 0 <= j < n - 1 => ByteOf(w / 256, j));
      forall j | 0 <= j < n ensures ByteOf(w, j) < 256 {
        if j > 0 { assert ByteOf(w / 256, j - 1) < 256; }
      }
    }
  }

  /** Byte `i` of the packed bytes starting at word `a`. */
  function ByteAt(m: seq<Word>, a: nat, i: nat): nat
    requires a + i / 8 < |m|
  {
    ByteOf(m[a + i / 8], i % 8)
  }

  ghost predicate SameBytes(m: seq<Word>, a: nat, m': seq<Word>, a': nat, len: nat)
    requires a + DivCeil(len, 8) <= |m| && a' + DivCeil(len, 8) <= |m'|
  {
    forall k :: 0 <= k < len ==> ByteAt(m, a, k) == ByteAt(m', a', k)
  }

  /** The part of an object that holds no terms: a binary's bytes or a map's keys. */
  ghost function Raw(m: seq<Word>, a: nat): seq<nat>
    requires a < |m| && a + Size(m[a]) <= |m|
  {
    if m[a] % 8 == KIND_BINARY then seq(m[a] / 8, i requires 0 <= i < m[a] / 8 => ByteAt(m, a + 1, i))
    else if m[a] % 8 == KIND_MAP then m[a + 1..a + 1 + m[a] / 8]
    else []
  }

  /** A term's meaning: an immediate word, or a box with its header (kind and arity),
      its raw part, and the meanings of its term slots. */
  datatype Value = Imm(word: Word) | Box(header: Word, raw: seq<nat>, kids: seq<Value>)

  /** The cells inside, or outside, an interval of memory. */
  datatype Region = Inside(lo: nat, hi: nat) | Outside(lo: nat, hi: nat)
  {
    /** The `n > 0` cells from `a` on all lie in this region. */
    predicate Fits(a: nat, n: nat)
    {
      if Inside? then lo <= a && a + n <= hi else a + n <= lo || hi <= a
    }

    predicate Within(r: Region)
    {
      match (this, r)
      case (Inside(l, h), Inside(l', h')) => l' <= l && h <= h'
      case (Inside(l, h), Outside(l', h')) => h <= l' || h' <= l
      case (Outside(l, h), Outside(l', h')) => l <= l' && h' <= h
      case (Outside(_, _), Inside(_, _)) => false
    }
  }

  /** Two memories hold the same words throughout a region. */
  ghost predicate Agree(m: seq<Word>, m': seq<Word>, r: Region)
  {
    |m| == |m'| && forall k :: 0 <= k < |m| && r.Fits(k, 1) ==> m[k] == m'[k]
  }

  lemma AgreeSame(m: seq<Word>, r: Region)
    ensures Agree(m, m, r)
  {
  }

  lemma AgreeWithin(m: seq<Word>, m': seq<Word>, r: Region, r': Region)
    requires Agree(m, m', r) && r'.Within(r)
    ensures Agree(m, m', r')
  {
  }

  /** Two rounds of changes, each inside `[lo, hi)`. */
  lemma AgreeJoin(m: seq<Word>, m': seq<Word>, m'': seq<Word>, r: Region, r': Region, lo: nat, hi: nat)
    requires Agree(m, m', r) && Agree(m', m'', r') && Outside(lo, hi).Within(r) && Outside(lo, hi).Within(r')
    ensures Agree(m, m'', Outside(lo, hi))
  {
  }

  lemma AgreeAt(m: seq<Word>, m': seq<Word>, r: Region, k: nat)
    requires Agree(m, m', r) && r.Fits(k, 1) && k < |m|
    ensures |m| == |m'| && m[k] == m'[k]
  {
  }

  lemma AgreeSlice(m: seq<Word>, m': seq<Word>, lo: nat, hi: nat)
    requires Agree(m, m', Inside(lo, hi)) && lo <= hi <= |m|
    ensures m[lo..hi] == m'[lo..hi]
  {
  }

  lemma AgreeWrite(m: seq<Word>, m': seq<Word>, lo: nat, hi: nat)
    requires |m| == |m'| && forall k :: 0 <= k < |m| && !(lo <= k < hi) ==> m[k] == m'[k]
    ensures Agree(m, m', Outside(lo, hi))
  {
  }

  /** Parts that fit their header: a known kind, the right number of term slots, and for
      a map only immediate keys. */
  ghost predicate Shape(header: Word, raw: seq<nat>, kids: seq<Value>)
  {
    && ValidKind(header)
    && (header % 8 == KIND_CONS ==> header == KIND_CONS)
    && |kids| == Size(header) - FirstSlot(header)
    && (header % 8 == KIND_MAP ==> forall i :: 0 <= i < |raw| ==> IsImmediate(raw[i]))
  }

  /** A boxed word naming a whole object inside the region `R`. */
  ghost predicate ObjectAt(m: seq<Word>, R: Region, w: Word)
  {
    && IsBoxed(w)
    && w / 8 < |m|
    && w / 8 + Size(m[w / 8]) <= |m|
    && R.Fits(w / 8, Size(m[w / 8]))
  }

  /** Word `w` of memory `m` means `v`, using objects inside `R` only. */
  ghost predicate Rep(m: seq<Word>, R: Region, w: Word, v: Value)
    decreases v
  {
    match v
    case Imm(x) => w == x && IsImmediate(w)
    case Box(h, raw, kids) =>
      && Shape(h, raw, kids)
      && ObjectAt(m, R, w)
      && m[w / 8] == h
      && Raw(m, w / 8) == raw
      && RepAll(m, R, w / 8 + FirstSlot(h), kids)
  }

  /** The consecutive words from `at` on mean `vs`. */
  ghost predicate RepAll(m: seq<Word>, R: Region, at: nat, vs: seq<Value>)
    decreases vs
  {
    at + |vs| <= |m| && forall i :: 0 <= i < |vs| ==> Rep(m, R, m[at + i], vs[i])
  }

  lemma BoxedIffBox(m: seq<Word>, R: Region, w: Word, v: Value)
    requires Rep(m, R, w, v)
    ensures v.Box? <==> IsBoxed(w)
    ensures v.Imm? ==> v.word == w
  {
  }

  /** The reserved tag is no term's. */
  lemma ReservedIsNoTerm(m: seq<Word>, R: Region, w: Word, v: Value)
    requires w % 8 == 7
    ensures !Rep(m, R, w, v)
  {
  }

  /** A word means at most one value. */
  lemma {:induction false} RepUnique(m: seq<Word>, R: Region, w: Word, v1: Value, v2: Value)
    requires Rep(m, R, w, v1) && Rep(m, R, w, v2)
    ensures v1 == v2
    decreases v1
  {
    if v1.Box? && v2.Box? {
      forall i | 0 <= i < |v1.kids| ensures v1.kids[i] == v2.kids[i] {
        RepUnique(m, R, m[w / 8 + FirstSlot(v1.header) + i], v1.kids[i], v2.kids[i]);
      }
    }
  }

  /** Meaning depends only on the cells it uses. */
  lemma {:induction false} RepFrame(m: seq<Word>, m': seq<Word>, R: Region, R': Region, w: Word, v: Value)
    requires Rep(m, R, w, v) && R.Within(R') && Agree(m, m', R)
    ensures Rep(m', R', w, v)
    decreases v
  {
    if v.Box? {
      hide Rep, RepAll, Raw, Shape, Agree, Size, FirstSlot, ObjectAt;
      BoxParts(m, R, w, v);
      SameObject(m, m', R, R', w);
      SlotsInside(v.header, v.raw, v.kids);
      RepAllFrame(m, m', R, R', w / 8 + FirstSlot(v.header), v.kids);
      BoxMeans(m', R', w, v);
    }
  }

  lemma BoxParts(m: seq<Word>, R: Region, w: Word, v: Value)
    requires Rep(m, R, w, v) && v.Box?
    ensures Shape(v.header, v.raw, v.kids) && ObjectAt(m, R, w) && w / 8 < |m| && w / 8 + Size(m[w / 8]) <= |m|
    ensures m[w / 8] == v.header && Raw(m, w / 8) == v.raw && RepAll(m, R, w / 8 + FirstSlot(v.header), v.kids)
  {
    hide RepAll, Raw, Shape;
  }

  lemma BoxMeans(m: seq<Word>, R: Region, w: Word, v: Value)
    requires v.Box? && Shape(v.header, v.raw, v.kids) && ObjectAt(m, R, w) && w / 8 < |m|
      && w / 8 + Size(m[w / 8]) <= |m|
    requires m[w / 8] == v.header && Raw(m, w / 8) == v.raw && RepAll(m, R, w / 8 + FirstSlot(v.header), v.kids)
    ensures Rep(m, R, w, v)
  {
    hide RepAll, Raw, Shape, ObjectAt;
  }

  lemma SlotsInside(header: Word, raw: seq<nat>, kids: seq<Value>)
    requires Shape(header, raw, kids)
    ensures FirstSlot(header) + |kids| == Size(header)
  {
  }

  lemma SameObject(m: seq<Word>, m': seq<Word>, R: Region, R': Region, w: Word)
    requires ObjectAt(m, R, w) && R.Within(R') && Agree(m, m', R)
    ensures ObjectAt(m', R', w) && |m'| == |m| && w / 8 + Size(m[w / 8]) <= |m|
    ensures forall k :: w / 8 <= k < w / 8 + Size(m[w / 8]) ==> m[k] == m'[k]
    ensures m[w / 8] == m'[w / 8] && Raw(m', w / 8) == Raw(m, w / 8)
  {
    hide ByteOf;
    assert Size(m[w / 8]) > 0;
    assert forall k :: w / 8 <= k < w / 8 + Size(m[w / 8]) ==> m[k] == m'[k];
  }

  lemma {:induction false} RepAllFrame(m: seq<Word>, m': seq<Word>, R: Region, R': Region, at: nat, vs: seq<Value>)
    requires RepAll(m, R, at, vs) && R.Within(R') && Agree(m, m', R)
    requires forall k :: at <= k < at + |vs| ==> m[k] == m'[k]
    ensures RepAll(m', R', at, vs)
    decreases vs
  {
    forall i | 0 <= i < |vs| ensures Rep(m', R', m'[at + i], vs[i]) {
      RepFrame(m, m', R, R', m[at + i], vs[i]);
    }
  }

  lemma RepAllKeep(m: seq<Word>, m': seq<Word>, R: Region, at: nat, vs: seq<Value>)
    requires RepAll(m, R, at, vs) && Agree(m, m', R) && (|vs| > 0 ==> R.Fits(at, |vs|))
    ensures RepAll(m', R, at, vs)
  {
    hide Rep;
    RepAllFrame(m, m', R, R, at, vs);
  }

  /** Words a copy that does not share needs for this value. */
  function DeepSize(v: Value): nat
    decreases v, 1
  {
    match v
    case Imm(_) => 0
    case Box(h, _, kids) => Size(h) + DeepSizes(kids)
  }

  function DeepSizes(vs: seq<Value>): nat
    decreases vs, 0
  {
    if vs == [] then 0 else DeepSizes(vs[..|vs| - 1]) + DeepSize(vs[|vs| - 1])
  }

  lemma {:induction false} DeepSizesPrefix(vs: seq<Value>, i: nat)
    requires i < |vs|
    ensures DeepSizes(vs[..i + 1]) == DeepSizes(vs[..i]) + DeepSize(vs[i])
    ensures DeepSizes(vs[..i + 1]) <= DeepSizes(vs)
    decreases |vs|
  {
    assert vs[..i + 1][..i] == vs[..i];
    if i + 1 < |vs| {
      assert vs[..|vs| - 1][..i + 1] == vs[..i + 1];
      assert vs[..|vs| - 1][..i] == vs[..i];
      DeepSizesPrefix(vs[..|vs| - 1], i);
    } else {
      assert vs[..i + 1] == vs;
    }
  }
}
