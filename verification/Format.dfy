/** The module file byte by byte: where each field lies, and which atoms are text. */
module Format {
  import opened Bytecode
  import opened Codec

  /** `v` in four bytes at `at`, least significant first. */
  ghost predicate U32At(b: seq<Byte>, at: nat, v: nat)
  {
    && at + 4 <= |b|
    && b[at] == v % 0x100 && b[at + 1] == v / 0x100 % 0x100
    && b[at + 2] == v / 0x1_0000 % 0x100 && b[at + 3] == v / 0x100_0000 % 0x100
  }

  ghost predicate U16At(b: seq<Byte>, at: nat, v: nat)
  {
    at + 2 <= |b| && b[at] == v % 0x100 && b[at + 1] == v / 0x100 % 0x100
  }

  /** Offset of atom `k`: a ten-byte header, then each atom's two length bytes and text. */
  ghost function AtomAt(m: Module, k: nat): nat
    requires k <= |m.atoms|
  {
    if k == 0 then 10 else AtomAt(m, k - 1) + 2 + |m.atoms[k - 1]|
  }

  /** Offset of function `k`: after the four-byte count, ten bytes and its code each. */
  ghost function FunctionAt(m: Module, k: nat): nat
    requires k <= |m.functions|
  {
    if k == 0 then AtomAt(m, |m.atoms|) + 4 else FunctionAt(m, k - 1) + 10 + |m.functions[k - 1].code|
  }

  /** Name, arity, registers, code length, code. */
  ghost predicate HasFunction(b: seq<Byte>, at: nat, f: Function)
  {
    && at + 10 + |f.code| <= |b|
    && U32At(b, at, f.nameAtom) && b[at + 4] == f.arity && b[at + 5] == f.nregs
    && U32At(b, at + 6, |f.code|) && b[at + 10..at + 10 + |f.code|] == f.code
  }

  ghost predicate HasAtom(b: seq<Byte>, at: nat, a: seq<Byte>)
  {
    at + 2 + |a| <= |b| && U16At(b, at, |a|) && b[at + 2..at + 2 + |a|] == a
  }

  lemma FourBytes(v: nat)
    ensures Bytes(v, 4) == [v % 0x100, v / 0x100 % 0x100, v / 0x1_0000 % 0x100, v / 0x100_0000 % 0x100]
  {
    assert Bytes(v / 0x100_0000, 1) == [v / 0x100_0000 % 0x100];
    assert v / 0x1_0000 / 0x100 == v / 0x100_0000 && v / 0x100 / 0x100 == v / 0x1_0000;
    assert Bytes(v / 0x1_0000, 2) == [v / 0x1_0000 % 0x100] + Bytes(v / 0x100_0000, 1);
    assert Bytes(v / 0x100, 3) == [v / 0x100 % 0x100] + Bytes(v / 0x1_0000, 2);
  }

  lemma TwoBytes(v: nat)
    ensures Bytes(v, 2) == [v % 0x100, v / 0x100 % 0x100]
  {
    assert Bytes(v / 0x100, 1) == [v / 0x100 % 0x100];
  }

  /** What a piece holds, the whole holds there. */
  lemma U32Within(a: seq<Byte>, v: nat, c: seq<Byte>)
    ensures U32At(a + (Bytes(v, 4) + c), |a|, v)
  {
    hide Bytes;
    FourBytes(v);
  }

  lemma FunctionWithin(a: seq<Byte>, f: Function, c: seq<Byte>)
    ensures HasFunction(a + (EncodeFunction(f) + c), |a|, f) && |EncodeFunction(f)| == 10 + |f.code|
  {
    hide Bytes;
    FourBytes(f.nameAtom);
    FourBytes(|f.code|);
    var b := a + (EncodeFunction(f) + c);
    assert EncodeFunction(f)[10..] == f.code;
    assert b[|a| + 10..|a| + 10 + |f.code|] == EncodeFunction(f)[10..];
  }

  lemma U16Within(a: seq<Byte>, v: nat, c: seq<Byte>)
    ensures U16At(a + (Bytes(v, 2) + c), |a|, v)
  {
    hide Bytes;
    TwoBytes(v);
  }

  lemma AtomWithin(a: seq<Byte>, s: seq<Byte>, c: seq<Byte>)
    ensures HasAtom(a + (Bytes(|s|, 2) + (s + c)), |a|, s)
  {
    U16Within(a, |s|, s + c);
    TextWithin(a, Bytes(|s|, 2), s, c);
  }

  lemma TextWithin(a: seq<Byte>, n: seq<Byte>, s: seq<Byte>, c: seq<Byte>)
    requires |n| == 2
    ensures var b := a + (n + (s + c)); |a| + 2 + |s| <= |b| && b[|a| + 2..|a| + 2 + |s|] == s
  {
    var b := a + (n + (s + c));
    forall k | 0 <= k < |s| ensures b[|a| + 2 + k] == s[k] { assert (n + (s + c))[2 + k] == (s + c)[k]; }
  }

  lemma {:induction false} AtomsSplit(atoms: seq<seq<Byte>>, k: nat)
    requires k < |atoms|
    ensures EncodeAtoms(atoms)
      == EncodeAtoms(atoms[..k]) + (Bytes(|atoms[k]|, 2) + (atoms[k] + EncodeAtoms(atoms[k + 1..])))
    decreases k
  {
    hide Bytes;
    if k == 0 {
      assert atoms[..0] == [];
    } else {
      AtomsSplit(atoms[1..], k - 1);
      assert atoms[1..][..k - 1] == atoms[..k][1..] && atoms[1..][k..] == atoms[k + 1..];
    }
  }

  lemma {:induction false} AtomsLength(m: Module, k: nat)
    requires k <= |m.atoms|
    ensures 10 + |EncodeAtoms(m.atoms[..k])| == AtomAt(m, k)
    decreases k
  {
    hide Bytes;
    if k > 0 {
      AtomsLength(m, k - 1);
      AtomsSplit(m.atoms[..k], k - 1);
      assert m.atoms[..k][..k - 1] == m.atoms[..k - 1] && m.atoms[..k][k..] == [];
    }
  }

  lemma {:induction false} FunctionsSplit(fs: seq<Function>, k: nat)
    requires k < |fs|
    ensures EncodeFunctions(fs) == EncodeFunctions(fs[..k]) + (EncodeFunction(fs[k]) + EncodeFunctions(fs[k + 1..]))
    decreases k
  {
    hide EncodeFunction;
    if k == 0 {
      assert fs[..0] == [];
    } else {
      FunctionsSplit(fs[1..], k - 1);
      assert fs[1..][..k - 1] == fs[..k][1..] && fs[1..][k..] == fs[k + 1..];
    }
  }

  lemma {:induction false} FunctionsLength(m: Module, k: nat)
    requires k <= |m.functions|
    ensures AtomAt(m, |m.atoms|) + 4 + |EncodeFunctions(m.functions[..k])| == FunctionAt(m, k)
    decreases k
  {
    hide EncodeFunction;
    if k > 0 {
      FunctionsLength(m, k - 1);
      FunctionsSplit(m.functions[..k], k - 1);
      assert m.functions[..k][..k - 1] == m.functions[..k - 1] && m.functions[..k][k..] == [];
      FunctionWithin([], m.functions[k - 1], []);
    }
  }

  /** The header: "YGGM1" and a line feed, then the number of atoms. */
  lemma HeaderLies(m: Module)
    ensures Encode(m)[..6] == [89, 71, 71, 77, 49, 10] && U32At(Encode(m), 6, |m.atoms|)
  {
    hide Bytes;
    var rest := EncodeAtoms(m.atoms) + (Bytes(|m.functions|, 4) + EncodeFunctions(m.functions));
    U32Within(MAGIC, |m.atoms|, rest);
  }

  /** Every atom lies at its offset, in order. */
  lemma AtomLies(m: Module, k: nat)
    requires k < |m.atoms|
    ensures HasAtom(Encode(m), AtomAt(m, k), m.atoms[k])
  {
    hide Bytes, HasAtom;
    AtomsSplit(m.atoms, k);
    AtomsLength(m, k);
    var tail := Bytes(|m.functions|, 4) + EncodeFunctions(m.functions);
    var before := MAGIC + Bytes(|m.atoms|, 4) + EncodeAtoms(m.atoms[..k]);
    Regrouped(MAGIC, Bytes(|m.atoms|, 4), EncodeAtoms(m.atoms[..k]), Bytes(|m.atoms[k]|, 2), m.atoms[k],
      EncodeAtoms(m.atoms[k + 1..]), tail);
    AtomWithin(before, m.atoms[k], EncodeAtoms(m.atoms[k + 1..]) + tail);
  }

  lemma Regrouped(a: seq<Byte>, b: seq<Byte>, c: seq<Byte>, d: seq<Byte>, e: seq<Byte>, f: seq<Byte>, g: seq<Byte>)
    ensures a + (b + (c + (d + (e + f)) + g)) == a + b + c + (d + (e + (f + g)))
  {
    assert c + (d + (e + f)) + g == c + (d + (e + (f + g)));
  }

  /** What is written before function `k`. */
  ghost function Before(m: Module, k: nat): seq<Byte>
    requires k <= |m.functions|
  {
    MAGIC + Bytes(|m.atoms|, 4) + EncodeAtoms(m.atoms) + Bytes(|m.functions|, 4) + EncodeFunctions(m.functions[..k])
  }

  lemma BeforeLength(m: Module, k: nat)
    requires k <= |m.functions|
    ensures |Before(m, k)| == FunctionAt(m, k)
  {
    hide Bytes, EncodeFunction;
    AtomsLength(m, |m.atoms|);
    assert m.atoms[..|m.atoms|] == m.atoms;
    FunctionsLength(m, k);
  }

  /** Then the number of functions. */
  lemma CountLies(m: Module)
    ensures U32At(Encode(m), AtomAt(m, |m.atoms|), |m.functions|)
  {
    hide Bytes, U32At;
    AtomsLength(m, |m.atoms|);
    assert m.atoms[..|m.atoms|] == m.atoms;
    var head, fs := MAGIC + Bytes(|m.atoms|, 4) + EncodeAtoms(m.atoms), EncodeFunctions(m.functions);
    assert Encode(m) == head + (Bytes(|m.functions|, 4) + fs);
    U32Within(head, |m.functions|, fs);
  }

  /** Then each function at its offset, and nothing more. */
  lemma FunctionLies(m: Module, k: nat)
    requires k <= |m.functions|
    ensures k < |m.functions| ==> HasFunction(Encode(m), FunctionAt(m, k), m.functions[k])
    ensures k == |m.functions| ==> |Encode(m)| == FunctionAt(m, k)
  {
    hide Bytes, EncodeFunction, HasFunction;
    BeforeLength(m, k);
    if k < |m.functions| {
      FunctionsSplit(m.functions, k);
      var after := EncodeFunctions(m.functions[k + 1..]);
      assert Encode(m) == Before(m, k) + (EncodeFunction(m.functions[k]) + after);
      FunctionWithin(Before(m, k), m.functions[k], after);
    } else {
      assert m.functions[..k] == m.functions;
      assert Encode(m) == Before(m, k);
    }
  }

  /** A Unicode scalar value. */
  ghost predicate Scalar(c: nat) { c < 0xD800 || 0xE000 <= c < 0x11_0000 }

  /** Its UTF-8 bytes, as section 3 of RFC 3629 lays them out. */
  ghost function ScalarBytes(c: nat): seq<Byte>
    requires Scalar(c)
  {
    if c < 0x80 then [c]
    else if c < 0x800 then [0xC0 + c / 64, 0x80 + c % 64]
    else if c < 0x1_0000 then [0xE0 + c / 4096, 0x80 + c / 64 % 64, 0x80 + c % 64]
    else [0xF0 + c / 262144, 0x80 + c / 4096 % 64, 0x80 + c / 64 % 64, 0x80 + c % 64]
  }

  ghost predicate Scalars(cs: seq<nat>) { forall k :: 0 <= k < |cs| ==> Scalar(cs[k]) }

  ghost function TextBytes(cs: seq<nat>): seq<Byte>
    requires Scalars(cs)
  {
    if cs == [] then [] else ScalarBytes(cs[0]) + TextBytes(cs[1..])
  }

  /** A scalar's bytes are recognised, whatever follows. */
  lemma ScalarRead(c: nat, rest: seq<Byte>)
    requires Scalar(c)
    ensures ScalarLength(ScalarBytes(c) + rest) == |ScalarBytes(c)| > 0
  {
  }

  lemma Digits(x: nat, y: nat)
    requires y < 64
    ensures (64 * x + y) / 64 == x && (64 * x + y) % 64 == y
  {
  }

  lemma Deeper(c: nat)
    ensures c / 4096 == c / 64 / 64 && c / 262144 == c / 64 / 64 / 64
  {
  }

  /** And nothing else is. */
  lemma ScalarFound(s: seq<Byte>) returns (c: nat)
    requires ScalarLength(s) > 0
    ensures Scalar(c) && ScalarBytes(c) == s[..ScalarLength(s)]
  {
    var n := ScalarLength(s);
    if n == 1 {
      c := s[0];
    } else if n == 2 {
      c := 64 * (At(s, 0) - 0xC0) + (At(s, 1) - 0x80);
    } else if n == 3 {
      c := ThreeFound(s);
    } else {
      c := FourFound(s);
    }
  }

  lemma ThreeFound(s: seq<Byte>) returns (c: nat)
    requires ScalarLength(s) == 3
    ensures Scalar(c) && ScalarBytes(c) == s[..3]
  {
    var x, y, z := At(s, 0) - 0xE0, At(s, 1) - 0x80, At(s, 2) - 0x80;
    c := 64 * (64 * x + y) + z;
    Digits(64 * x + y, z);
    Digits(x, y);
    Deeper(c);
    assert ScalarBytes(c) == [0xE0 + x, 0x80 + y, 0x80 + z] == s[..3];
  }

  lemma FourFound(s: seq<Byte>) returns (c: nat)
    requires ScalarLength(s) == 4
    ensures Scalar(c) && ScalarBytes(c) == s[..4]
  {
    var w, x, y, z := At(s, 0) - 0xF0, At(s, 1) - 0x80, At(s, 2) - 0x80, At(s, 3) - 0x80;
    c := 64 * (64 * (64 * w + x) + y) + z;
    Digits(64 * (64 * w + x) + y, z);
    Digits(64 * w + x, y);
    Digits(w, x);
    Deeper(c);
    assert ScalarBytes(c) == [0xF0 + w, 0x80 + x, 0x80 + y, 0x80 + z] == s[..4];
  }

  lemma {:induction false} TextFound(s: seq<Byte>) returns (cs: seq<nat>)
    requires Utf8(s)
    ensures Scalars(cs) && TextBytes(cs) == s
    decreases |s|
  {
    hide ScalarLength, ScalarBytes;
    cs := [];
    if s != [] {
      var n := ScalarLength(s);
      var c := ScalarFound(s);
      var rest := TextFound(s[n..]);
      cs := [c] + rest;
      assert s == s[..n] + s[n..] && cs[1..] == rest;
    }
  }

  lemma {:induction false} TextRead(cs: seq<nat>)
    requires Scalars(cs)
    ensures Utf8(TextBytes(cs))
    decreases |cs|
  {
    hide ScalarLength, ScalarBytes;
    if cs != [] {
      TextRead(cs[1..]);
      var a, rest := ScalarBytes(cs[0]), TextBytes(cs[1..]);
      ScalarRead(cs[0], rest);
      assert (a + rest)[|a|..] == rest;
    }
  }

  /** The decoder accepts an atom exactly when it is the UTF-8 of some text. */
  lemma Utf8IsText(s: seq<Byte>)
    ensures Utf8(s) <==> exists cs :: Scalars(cs) && TextBytes(cs) == s
  {
    if Utf8(s) { var cs := TextFound(s); }
    if cs :| Scalars(cs) && TextBytes(cs) == s { TextRead(cs); }
  }
}
