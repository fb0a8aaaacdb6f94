/** Flat maps: sorted immediate keys, then the values in the same order. */
module FlatMaps {
  import opened Basics
  import opened Terms
  import opened Heaps

  type Pair = (Word, Word)

  datatype MapResult = Ok(term: Word) | HeapFull | NonImmediateKey

  /** The finite map a sequence of pairs denotes; a later pair overrides an earlier one. */
  ghost function ToMap(s: seq<Pair>): map<Word, Word>
  {
    if s == [] then map[] else ToMap(s[..|s| - 1])[s[|s| - 1].0 := s[|s| - 1].1]
  }

  /** The pairs with key `k`, in order. */
  ghost function WithKey(s: seq<Pair>, k: Word): seq<Pair>
  {
    if s == [] then [] else
      WithKey(s[..|s| - 1], k) + (if s[|s| - 1].0 == k then [s[|s| - 1]] else [])
  }

  ghost predicate Sorted(s: seq<Pair>) { forall i, j :: 0 <= i < j < |s| ==> s[i].0 <= s[j].0 }

  ghost predicate StrictlySorted(s: seq<Pair>) { forall i, j :: 0 <= i < j < |s| ==> s[i].0 < s[j].0 }

  ghost predicate SameFilters(s: seq<Pair>, s': seq<Pair>) { forall k :: WithKey(s', k) == WithKey(s, k) }

  /** `s'` is `s` sorted by key with equal keys kept in their order. */
  ghost predicate StableSortOf(s: seq<Pair>, s': seq<Pair>)
  {
    Sorted(s') && |s| == |s'| && SameFilters(s, s')
  }

  lemma {:induction false} WithKeyConcat(s: seq<Pair>, u: seq<Pair>, k: Word)
    ensures WithKey(s + u, k) == WithKey(s, k) + WithKey(u, k)
    decreases |u|
  {
    if u == [] {
      assert s + u == s;
    } else {
      assert (s + u)[..|s + u| - 1] == s + u[..|u| - 1];
      WithKeyConcat(s, u[..|u| - 1], k);
    }
  }

  lemma {:induction false} ToMapConcat(s: seq<Pair>, u: seq<Pair>)
    ensures ToMap(s + u) == ToMap(s) + ToMap(u)
    decreases |u|
  {
    if u == [] {
      assert s + u == s;
    } else {
      assert (s + u)[..|s + u| - 1] == s + u[..|u| - 1];
      ToMapConcat(s, u[..|u| - 1]);
    }
  }

  /** A key's value is that of the last pair carrying it. */
  lemma {:induction false} LastWins(s: seq<Pair>, k: Word)
    ensures k in ToMap(s) <==> WithKey(s, k) != []
    ensures k in ToMap(s) ==> ToMap(s)[k] == WithKey(s, k)[|WithKey(s, k)| - 1].1
  {
    if s != [] { LastWins(s[..|s| - 1], k); }
  }

  /** Stable sorting does not change the map a literal denotes. */
  lemma StableSortKeepsMap(s: seq<Pair>, s': seq<Pair>)
    requires SameFilters(s, s')
    ensures ToMap(s') == ToMap(s)
  {
    hide ToMap, WithKey;
    forall k ensures k in ToMap(s') <==> k in ToMap(s) {
      LastWins(s, k);
      LastWins(s', k);
    }
    forall k | k in ToMap(s) ensures ToMap(s')[k] == ToMap(s)[k] {
      LastWins(s, k);
      LastWins(s', k);
    }
  }

  lemma {:induction false} WithKeyHas(s: seq<Pair>, i: nat)
    requires i < |s|
    ensures s[i] in WithKey(s, s[i].0)
  {
    if i < |s| - 1 { WithKeyHas(s[..|s| - 1], i); }
  }

  lemma {:induction false} WithKeyFrom(s: seq<Pair>, k: Word, p: Pair)
    requires p in WithKey(s, k)
    ensures p in s && p.0 == k
  {
    if s[|s| - 1] != p || s[|s| - 1].0 != k { WithKeyFrom(s[..|s| - 1], k, p); }
  }

  /** Stable sorting is unique, so any implementation of it gives the same slice. */
  lemma {:induction false} StableSortUnique(s: seq<Pair>, s1: seq<Pair>, s2: seq<Pair>)
    requires StableSortOf(s, s1) && StableSortOf(s, s2)
    ensures s1 == s2
    decreases |s1|
  {
    SortedByFilters(s1, s2);
  }

  lemma {:induction false} SortedByFilters(s1: seq<Pair>, s2: seq<Pair>)
    requires Sorted(s1) && Sorted(s2) && |s1| == |s2| && SameFilters(s1, s2)
    ensures s1 == s2
    decreases |s1|
  {
    hide WithKey;
    if s1 != [] {
      var n := |s1| - 1;
      LastPairSame(s1, s2);
      forall k ensures WithKey(s1[..n], k) == WithKey(s2[..n], k) {
        assert WithKey(s1, k) == WithKey(s2, k);
        DropLast(s1, k);
        DropLast(s2, k);
      }
      SortedByFilters(s1[..n], s2[..n]);
      assert s1 == s1[..n] + [s1[n]] && s2 == s2[..n] + [s2[n]];
    }
  }

  lemma DropLast(s: seq<Pair>, k: Word)
    requires s != []
    ensures s[|s| - 1].0 != k ==> WithKey(s[..|s| - 1], k) == WithKey(s, k)
    ensures s[|s| - 1].0 == k
      ==> WithKey(s, k) != [] && WithKey(s[..|s| - 1], k) == WithKey(s, k)[..|WithKey(s, k)| - 1]
    ensures s[|s| - 1].0 == k ==> WithKey(s, k)[|WithKey(s, k)| - 1] == s[|s| - 1]
  {
  }

  lemma LastPairSame(s1: seq<Pair>, s2: seq<Pair>)
    requires Sorted(s1) && Sorted(s2) && |s1| == |s2| > 0 && SameFilters(s1, s2)
    ensures s1[|s1| - 1] == s2[|s2| - 1]
  {
    hide WithKey;
    var n := |s1| - 1;
    var k1, k2 := s1[n].0, s2[n].0;
    WithKeyHas(s1, n);
    WithKeyHas(s2, n);
    assert WithKey(s1, k1) == WithKey(s2, k1) && WithKey(s1, k2) == WithKey(s2, k2);
    WithKeyFrom(s2, k1, s1[n]);
    WithKeyFrom(s1, k2, s2[n]);
    assert k1 == k2;
    DropLast(s1, k1);
    DropLast(s2, k1);
  }

  lemma FiltersTrans(s: seq<Pair>, s': seq<Pair>, s'': seq<Pair>)
    ensures SameFilters(s, s)
    ensures SameFilters(s, s') && SameFilters(s', s'') ==> SameFilters(s, s'')
  {
    hide WithKey;
  }

  /** The slice's stable sort by raw key word, as an insertion sort in place. */
  method SortByKey(a: array<Pair>)
    modifies a
    ensures StableSortOf(old(a[..]), a[..])
  {
    hide WithKey, SameFilters;
    FiltersTrans(a[..], a[..], a[..]);
    var i := 0;
    while i < a.Length
      invariant 0 <= i <= a.Length
      invariant Sorted(a[..i])
      invariant SameFilters(old(a[..]), a[..])
    {
      ghost var s := a[..];
      SinkInto(a, i);
      FiltersTrans(old(a[..]), s, a[..]);
      i := i + 1;
    }
    assert a[..] == a[..a.Length];
  }

  /** Moves the pair at `i` down past the larger keys before it. */
  method SinkInto(a: array<Pair>, i: nat)
    requires i < a.Length && Sorted(a[..i])
    modifies a
    ensures Sorted(a[..i + 1])
    ensures SameFilters(old(a[..]), a[..])
  {
    hide WithKey, SameFilters;
    FiltersTrans(a[..], a[..], a[..]);
    var j := i;
    while j > 0 && a[j - 1].0 > a[j].0
      invariant 0 <= j <= i
      invariant forall x, y :: 0 <= x < y <= i && x != j && y != j ==> a[x].0 <= a[y].0
      invariant forall y :: j < y <= i ==> a[j].0 < a[y].0
      invariant SameFilters(old(a[..]), a[..])
    {
      SwapDown(a, j, old(a[..]));
      j := j - 1;
    }
  }

  method SwapDown(a: array<Pair>, j: nat, ghost start: seq<Pair>)
    requires 0 < j < a.Length && a[j - 1].0 != a[j].0 && SameFilters(start, a[..])
    modifies a
    ensures SameFilters(start, a[..])
    ensures a[j - 1] == old(a[j]) && a[j] == old(a[j - 1])
    ensures forall k :: 0 <= k < a.Length && k != j && k != j - 1 ==> a[k] == old(a[k])
  {
    hide WithKey, SameFilters;
    ghost var s := a[..];
    a[j - 1], a[j] := a[j], a[j - 1];
    assert a[..] == s[..j - 1] + [s[j], s[j - 1]] + s[j + 1..];
    SwapKeepsFilters(s, j);
    FiltersTrans(start, s, a[..]);
  }

  lemma SwapKeepsFilters(s: seq<Pair>, j: nat)
    requires 0 < j < |s| && s[j - 1].0 != s[j].0
    ensures SameFilters(s, s[..j - 1] + [s[j], s[j - 1]] + s[j + 1..])
  {
    hide WithKey;
    var x, p, q, y := s[..j - 1], s[j - 1], s[j], s[j + 1..];
    assert s == x + [p, q] + y;
    forall k ensures WithKey(x + [q, p] + y, k) == WithKey(s, k) {
      WithKeyConcat(x + [p, q], y, k);
      WithKeyConcat(x + [q, p], y, k);
      WithKeyConcat(x, [p, q], k);
      WithKeyConcat(x, [q, p], k);
      WithKeyTwo(p, q, k);
      WithKeyTwo(q, p, k);
    }
  }

  lemma WithKeyTwo(p: Pair, q: Pair, k: Word)
    ensures WithKey([p, q], k) == (if p.0 == k then [p] else []) + (if q.0 == k then [q] else [])
  {
    assert [p, q][..1] == [p] && [p][..0] == [];
    assert WithKey([p], k) == WithKey([], k) + (if p.0 == k then [p] else []);
  }

  /** Compacts a sorted slice in place, the last of each run of equal keys surviving. The
      slots from `n` on are left as they were. */
  method DedupSorted(a: array<Pair>) returns (n: nat)
    requires Sorted(a[..])
    modifies a
    ensures n <= a.Length && StrictlySorted(a[..n])
    ensures ToMap(a[..n]) == ToMap(old(a[..]))
    ensures a[n..] == old(a[n..])
  {
    hide ToMap, StrictlySorted;
    n := 0;
    ghost var s := a[..];
    var i := 0;
    ToMapNone(a[..0], s[..0]);
    StrictNone(a[..0]);
    while i < a.Length
      invariant 0 <= n <= i <= a.Length
      invariant StrictlySorted(a[..n])
      invariant i > 0 ==> n > 0 && a[n - 1].0 == s[i - 1].0
      invariant ToMap(a[..n]) == ToMap(s[..i])
      invariant forall k :: n <= k < a.Length ==> a[k] == s[k]
    {
      ghost var m := n;
      ghost var before := a[..n];
      ToMapSnoc(s, i);
      if n > 0 && a[n - 1].0 == a[i].0 {
        assert a[i] == s[i];
        a[n - 1] := a[i];
        assert a[..n] == before[..n - 1] + [s[i]];
        assert before == before[..n - 1] + [before[n - 1]];
        ToMapReplaceLast(before[..n - 1], before[n - 1], s[i]);
        StrictReplace(before, s[i]);
      } else {
        a[n] := a[i];
        n := n + 1;
        assert a[..n] == before + [s[i]];
        ToMapAppend(before, s[i]);
        if i > 0 { assert s[i - 1].0 <= s[i].0; }
        StrictAppend(before, s[i]);
      }
      i := i + 1;
    }
    assert s[..a.Length] == s;
  }

  lemma StrictNone(s: seq<Pair>)
    requires s == []
    ensures StrictlySorted(s)
  {
  }

  lemma StrictReplace(s: seq<Pair>, p: Pair)
    requires s != [] && StrictlySorted(s) && s[|s| - 1].0 == p.0
    ensures StrictlySorted(s[..|s| - 1] + [p])
  {
  }

  lemma StrictAppend(s: seq<Pair>, p: Pair)
    requires StrictlySorted(s) && (s != [] ==> s[|s| - 1].0 < p.0)
    ensures StrictlySorted(s + [p])
  {
  }

  lemma ToMapNone(s: seq<Pair>, u: seq<Pair>)
    requires s == [] && u == []
    ensures ToMap(s) == ToMap(u)
  {
  }

  lemma ToMapAppend(s: seq<Pair>, p: Pair)
    ensures ToMap(s + [p]) == ToMap(s)[p.0 := p.1]
  {
    assert (s + [p])[..|s|] == s;
  }

  lemma ToMapSnoc(s: seq<Pair>, i: nat)
    requires i < |s|
    ensures ToMap(s[..i + 1]) == ToMap(s[..i])[s[i].0 := s[i].1]
  {
    assert s[..i + 1] == s[..i] + [s[i]];
    ToMapAppend(s[..i], s[i]);
  }

  lemma ToMapReplaceLast(s: seq<Pair>, q: Pair, p: Pair)
    requires q.0 == p.0
    ensures ToMap(s + [p]) == ToMap(s + [q])[p.0 := p.1]
  {
    hide ToMap;
    ToMapAppend(s, p);
    ToMapAppend(s, q);
  }

  /** The slice left behind still denotes the same map, so building from it again is safe. */
  lemma LeftoverKeepsMap(s: seq<Pair>, d: seq<Pair>)
    requires |d| <= |s| && ToMap(d) == ToMap(s)
    ensures ToMap(d + s[|d|..]) == ToMap(s)
  {
    hide ToMap;
    ToMapConcat(d, s[|d|..]);
    ToMapConcat(s[..|d|], s[|d|..]);
    assert s[..|d|] + s[|d|..] == s;
  }

  /** Distinct keys: as many pairs as the map has keys. */
  lemma {:induction false} StrictSize(s: seq<Pair>)
    requires StrictlySorted(s)
    ensures |ToMap(s)| == |s|
    ensures forall k :: k in ToMap(s) ==> exists i :: 0 <= i < |s| && s[i].0 == k
  {
    if s != [] {
      var n := |s| - 1;
      StrictSize(s[..n]);
      var m := ToMap(s[..n]);
      forall k | k in m ensures k < s[n].0 {
        var i :| 0 <= i < |s[..n]| && s[..n][i].0 == k;
        assert s[i].0 < s[n].0;
      }
      assert m[s[n].0 := s[n].1].Keys == m.Keys + {s[n].0};
      forall k | k in ToMap(s) ensures exists i :: 0 <= i < |s| && s[i].0 == k {
        if k == s[n].0 {
          assert s[n].0 == k;
        } else {
          assert k in m;
          var i :| 0 <= i < |s[..n]| && s[..n][i].0 == k;
          assert s[i].0 == k;
        }
      }
    }
  }

  /** The pairs a map object holds. */
  ghost function PairsAt(m: seq<Word>, a: nat): seq<Pair>
    requires a < |m| && a + 1 + 2 * (m[a] / 8) <= |m|
  {
    var n := m[a] / 8;
    seq(n, i requires 0 <= i < n => (m[a + 1 + i], m[a + 1 + n + i]))
  }

  ghost predicate MapObject(m: seq<Word>, w: Word)
  {
    && IsBoxed(w) && w / 8 < |m| && m[w / 8] % 8 == KIND_MAP
    && w / 8 + Size(m[w / 8]) <= |m|
    && StrictlySorted(PairsAt(m, w / 8))
    && forall i :: 0 <= i < m[w / 8] / 8 ==> !IsBoxed(PairsAt(m, w / 8)[i].0)
  }

  ghost predicate NoBoxedKey(s: seq<Pair>) { forall i :: 0 <= i < |s| ==> !IsBoxed(s[i].0) }

  /** Sorting and compacting introduce no key that was not there. */
  lemma {:induction false} KeysFrom(s: seq<Pair>, k: Word)
    ensures k in ToMap(s) <==> exists i :: 0 <= i < |s| && s[i].0 == k
  {
    if s != [] {
      var n := |s| - 1;
      KeysFrom(s[..n], k);
      if k in ToMap(s) && k != s[n].0 {
        var i :| 0 <= i < |s[..n]| && s[..n][i].0 == k;
        assert s[i].0 == k;
      }
      if i :| 0 <= i < |s| && s[i].0 == k && i != n {
        assert s[..n][i].0 == k;
      }
    }
  }

  lemma SameMapSameKeys(s: seq<Pair>, s': seq<Pair>)
    requires ToMap(s) == ToMap(s') && NoBoxedKey(s)
    ensures NoBoxedKey(s')
  {
    hide ToMap;
    forall i | 0 <= i < |s'| ensures !IsBoxed(s'[i].0) {
      KeysFrom(s', s'[i].0);
      KeysFrom(s, s'[i].0);
    }
  }

  /** Sorts and compacts the slice; what is left behind denotes the same map. */
  method Canonicalize(a: array<Pair>) returns (n: nat)
    modifies a
    ensures n <= a.Length && StrictlySorted(a[..n])
    ensures ToMap(a[..n]) == ToMap(old(a[..])) == ToMap(a[..])
    ensures n == |ToMap(old(a[..]))|
  {
    hide ToMap;
    SortByKey(a);
    ghost var s := a[..];
    StableSortKeepsMap(old(a[..]), s);
    n := DedupSorted(a);
    assert a[..] == a[..n] + s[n..];
    LeftoverKeepsMap(s, a[..n]);
    StrictSize(a[..n]);
  }

  /** Builds a map object from key and value pairs. It refuses boxed keys, touching
      nothing; a full heap leaves a slice that denotes the same map. */
  method MapFromPairs(heap: Heap, pairs: array<Pair>) returns (r: MapResult)
    requires heap.Valid()
    modifies pairs, heap`top, heap.mem
    ensures heap.Valid()
    ensures Agree(old(heap.mem[..]), heap.mem[..], old(heap.NotFree()))
    ensures ToMap(pairs[..]) == ToMap(old(pairs[..]))
    ensures r.NonImmediateKey? <==> !NoBoxedKey(old(pairs[..]))
    ensures r.NonImmediateKey?
      ==> pairs[..] == old(pairs[..]) && heap.top == old(heap.top) && heap.mem[..] == old(heap.mem[..])
    ensures r.HeapFull? <==> NoBoxedKey(old(pairs[..])) && old(heap.top) + 1 + 2 * |ToMap(old(pairs[..]))| > heap.cap
    ensures r.HeapFull? ==> heap.top == old(heap.top) && NoBoxedKey(pairs[..])
    ensures r.Ok? ==>
      heap.top == old(heap.top) + 1 + 2 * |ToMap(old(pairs[..]))| && r.term == 8 * (heap.base + old(heap.top))
    ensures r.Ok? ==>
      MapObject(heap.mem[..], r.term) && ToMap(PairsAt(heap.mem[..], r.term / 8)) == ToMap(old(pairs[..]))
  {
    hide ToMap;
    for i := 0 to pairs.Length
      invariant NoBoxedKey(pairs[..i])
      invariant pairs[..] == old(pairs[..]) && heap.mem[..] == old(heap.mem[..]) && heap.top == old(heap.top)
    {
      if IsBoxed(pairs[i].0) {
        assert pairs[..][i] == pairs[i];
        return NonImmediateKey;
      }
    }
    assert pairs[..pairs.Length] == pairs[..];
    ghost var m0 := heap.mem[..];
    AgreeWrite(m0, m0, heap.base + heap.top, heap.base + heap.cap);
    var n := Canonicalize(pairs);
    SameMapSameKeys(old(pairs[..]), pairs[..]);
    SameMapSameKeys(old(pairs[..]), pairs[..n]);
    var p := heap.Alloc(1 + 2 * n);
    if p.None? { return HeapFull; }
    WriteMap(heap.mem, p.value, pairs, n);
    AgreeWithin(m0, heap.mem[..], Outside(p.value, p.value + 1 + 2 * n), old(heap.NotFree()));
    r := Ok(8 * p.value);
  }

  method WriteMap(mem: array<Word>, p: nat, pairs: array<Pair>, n: nat)
    requires p + 1 + 2 * n <= mem.Length && n <= pairs.Length
    modifies mem
    ensures pairs[..] == old(pairs[..])
    ensures mem[p] == 8 * n + KIND_MAP && PairsAt(mem[..], p) == pairs[..n]
    ensures Agree(old(mem[..]), mem[..], Outside(p, p + 1 + 2 * n))
  {
    mem[p] := 8 * n + KIND_MAP;
    for i := 0 to n
      invariant mem[p] == 8 * n + KIND_MAP
      invariant forall k :: p + 1 <= k < p + 1 + i ==> mem[k] == pairs[k - p - 1].0
      invariant forall k :: p + 1 + n <= k < p + 1 + n + i ==> mem[k] == pairs[k - p - 1 - n].1
      invariant Agree(old(mem[..]), mem[..], Outside(p, p + 1 + 2 * n))
    {
      mem[p + 1 + i], mem[p + 1 + n + i] := pairs[i].0, pairs[i].1;
    }
  }

  /** Binary search by raw key word decides membership and finds the value. */
  method MapGet(mem: array<Word>, w: Word, key: Word) returns (r: Option<Word>)
    requires MapObject(mem[..], w)
    ensures r.Some? <==> key in ToMap(PairsAt(mem[..], w / 8))
    ensures r.Some? ==> r.value == ToMap(PairsAt(mem[..], w / 8))[key]
  {
    hide ToMap;
    var a := w / 8;
    var n := mem[a] / 8;
    ghost var ps := PairsAt(mem[..], a);
    var lo, hi := 0, n;
    while lo < hi
      invariant 0 <= lo <= hi <= n
      invariant forall i :: 0 <= i < lo ==> ps[i].0 < key
      invariant forall i :: hi <= i < n ==> ps[i].0 > key
    {
      var mid := (lo + hi) / 2;
      var k := mem[a + 1 + mid];
      assert ps[mid] == (mem[a + 1 + mid], mem[a + 1 + n + mid]);
      if k == key {
        StrictLookup(ps, mid);
        return Some(mem[a + 1 + n + mid]);
      } else if k < key {
        lo := mid + 1;
      } else {
        hi := mid;
      }
    }
    KeysFrom(ps, key);
    return None;
  }

  lemma {:induction false} StrictLookup(s: seq<Pair>, i: nat)
    requires StrictlySorted(s) && i < |s|
    ensures s[i].0 in ToMap(s) && ToMap(s)[s[i].0] == s[i].1
  {
    if i < |s| - 1 {
      StrictLookup(s[..|s| - 1], i);
      assert s[i].0 < s[|s| - 1].0;
    }
  }

  /** A new map object: the old map with `key` set to `val`. The old object is untouched. */
  method MapPut(heap: Heap, w: Word, key: Word, val: Word) returns (r: MapResult)
    requires heap.Valid() && MapObject(heap.mem[..], w)
    modifies heap`top, heap.mem
    ensures heap.Valid() && Agree(old(heap.mem[..]), heap.mem[..], old(heap.NotFree()))
    ensures r.NonImmediateKey? <==> IsBoxed(key)
    ensures !r.Ok? ==> heap.top == old(heap.top)
    ensures r.Ok? ==> MapObject(heap.mem[..], r.term)
    ensures r.Ok? ==> ToMap(PairsAt(heap.mem[..], r.term / 8)) == ToMap(old(PairsAt(heap.mem[..], w / 8)))[key := val]
    ensures !IsBoxed(key) ==>
      (r.HeapFull? <==> old(heap.top) + 1 + 2 * |ToMap(old(PairsAt(heap.mem[..], w / 8)))[key := val]| > heap.cap)
  {
    hide ToMap;
    ghost var m0 := heap.mem[..];
    AgreeWrite(m0, m0, heap.base + heap.top, heap.base + heap.cap);
    if IsBoxed(key) { return NonImmediateKey; }
    var a := w / 8;
    var n := heap.mem[a] / 8;
    ghost var ps := PairsAt(heap.mem[..], a);
    var pairs := new Pair[n + 1](i => (key, val));
    for i := 0 to n
      invariant pairs[..i] == ps[..i] && pairs[n] == (key, val)
      invariant heap.mem[..] == m0 && heap.top == old(heap.top)
    {
      pairs[i] := (heap.mem[a + 1 + i], heap.mem[a + 1 + n + i]);
    }
    assert pairs[..] == ps + [(key, val)];
    ToMapAppend(ps, (key, val));
    r := MapFromPairs(heap, pairs);
  }

  /** Building a map with grow-on-full retries: `heaps` are the bump targets tried in turn.
      Each retry runs on the slice the failed try already sorted and compacted, and still
      builds the map the original pairs denote. */
  method MapNew(heaps: seq<Heap>, pairs: array<Pair>) returns (r: MapResult, at: nat)
    requires |heaps| > 0 && forall i :: 0 <= i < |heaps| ==> heaps[i].Valid()
    requires forall i, j :: 0 <= i < j < |heaps| ==> heaps[i] != heaps[j]
    modifies pairs, heaps, set h | h in heaps :: h.mem
    ensures at < |heaps| && ToMap(pairs[..]) == ToMap(old(pairs[..]))
    ensures r.NonImmediateKey? <==> !NoBoxedKey(old(pairs[..]))
    ensures r.Ok? ==> MapObject(heaps[at].mem[..], r.term)
    ensures r.Ok? ==> ToMap(PairsAt(heaps[at].mem[..], r.term / 8)) == ToMap(old(pairs[..]))
    ensures r.HeapFull? ==> forall i :: 0 <= i < |heaps| ==>
      old(heaps[i].top) + 1 + 2 * |ToMap(old(pairs[..]))| > heaps[i].cap
  {
    hide ToMap, MapObject, NoBoxedKey;
    at := 0;
    while true
      invariant at < |heaps| && ToMap(pairs[..]) == ToMap(old(pairs[..]))
      invariant NoBoxedKey(pairs[..]) <==> NoBoxedKey(old(pairs[..]))
      invariant forall i :: 0 <= i < |heaps| ==> heaps[i].Valid()
      invariant forall i :: at <= i < |heaps| ==> heaps[i].top == old(heaps[i].top)
      invariant forall i :: 0 <= i < at ==> old(heaps[i].top) + 1 + 2 * |ToMap(old(pairs[..]))| > heaps[i].cap
      decreases |heaps| - at
    {
      r := MapFromPairs(heaps[at], pairs);
      if !r.HeapFull? { return; }
      if at + 1 == |heaps| { return; }
      at := at + 1;
    }
  }
}
