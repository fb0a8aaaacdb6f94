/** The module file format. */
module Codec {
  import opened Basics
  import opened Bytecode

  const MAGIC: seq<Byte> := [0x59, 0x47, 0x47, 0x4D, 0x31, 0x0A]

  datatype DecodeError = BadMagic | ShortInput | BadUtf8

  /** What was read, and the input left. */
  datatype Parse<+T> = Ok(value: T, rest: seq<Byte>) | Err(error: DecodeError)

  function Pow256(n: nat): (p: nat)
    ensures p > 0
  {
    if n == 0 then 1 else 256 * Pow256(n - 1)
  }

  /** The low `n` bytes of `v`, least significant first. */
  function Bytes(v: nat, n: nat): (b: seq<Byte>)
    ensures |b| == n
  {
    if n == 0 then [] else [v % 256] + Bytes(v / 256, n - 1)
  }

  predicate Cont(b: Byte) { 0x80 <= b < 0xC0 }

  /** Length of the well-formed UTF-8 sequence that starts `s`, or 0. */
  function ScalarLength(s: seq<Byte>): (n: nat)
    ensures n <= |s|
  {
    if s == [] then 0
    else if s[0] < 0x80 then 1
    else if |s| >= 2 && 0xC2 <= s[0] <= 0xDF && Cont(s[1]) then 2
    else if |s| >= 3 && 0xE0 <= s[0] <= 0xEF && Cont(s[1]) && Cont(s[2])
            && (s[0] == 0xE0 ==> s[1] >= 0xA0) && (s[0] == 0xED ==> s[1] < 0xA0) then 3
    else if |s| >= 4 && 0xF0 <= s[0] <= 0xF4 && Cont(s[1]) && Cont(s[2]) && Cont(s[3])
            && (s[0] == 0xF0 ==> s[1] >= 0x90) && (s[0] == 0xF4 ==> s[1] < 0x90) then 4
    else 0
  }

  predicate Utf8(s: seq<Byte>)
    decreases |s|
  {
    s == [] || (ScalarLength(s) > 0 && Utf8(s[ScalarLength(s)..]))
  }

  function EncodeAtoms(atoms: seq<seq<Byte>>): seq<Byte>
  {
    if atoms == [] then [] else Bytes(|atoms[0]|, 2) + atoms[0] + EncodeAtoms(atoms[1..])
  }

  function EncodeFunction(f: Function): seq<Byte>
  {
    Bytes(f.nameAtom, 4) + ([f.arity] + ([f.nregs] + (Bytes(|f.code|, 4) + f.code)))
  }

  function EncodeFunctions(fs: seq<Function>): seq<Byte>
  {
    if fs == [] then [] else EncodeFunction(fs[0]) + EncodeFunctions(fs[1..])
  }

  function Encode(m: Module): seq<Byte>
  {
    MAGIC + (Bytes(|m.atoms|, 4) + (EncodeAtoms(m.atoms) + (Bytes(|m.functions|, 4) + EncodeFunctions(m.functions))))
  }

  function Take(b: seq<Byte>, n: nat): (r: Parse<seq<Byte>>)
    ensures r.Ok? ==> b == r.value + r.rest && |r.value| == n
  {
    if n <= |b| then Ok(b[..n], b[n..]) else Err(ShortInput)
  }

  function Number(b: seq<Byte>, n: nat): Parse<nat>
  {
    match Take(b, n)
    case Err(e) => Err(e)
    case Ok(v, rest) => Ok(LE(v, 0, n), rest)
  }

  function DecodeAtom(b: seq<Byte>): Parse<seq<Byte>>
  {
    match Number(b, 2)
    case Err(e) => Err(e)
    case Ok(len, b1) =>
      match Take(b1, len)
      case Err(e) => Err(e)
      case Ok(s, b2) => if Utf8(s) then Ok(s, b2) else Err(BadUtf8)
  }

  function DecodeAtoms(b: seq<Byte>, n: nat): Parse<seq<seq<Byte>>>
  {
    if n == 0 then Ok([], b)
    else
      match DecodeAtom(b)
      case Err(e) => Err(e)
      case Ok(a, b1) =>
        match DecodeAtoms(b1, n - 1)
        case Err(e) => Err(e)
        case Ok(rest, b2) => Ok([a] + rest, b2)
  }

  function DecodeFunction(b: seq<Byte>): Parse<Function>
  {
    match Number(b, 4)
    case Err(e) => Err(e)
    case Ok(name, b1) =>
      match Take(b1, 1)
      case Err(e) => Err(e)
      case Ok(arity, b2) =>
        match Take(b2, 1)
        case Err(e) => Err(e)
        case Ok(nregs, b3) =>
          match Number(b3, 4)
          case Err(e) => Err(e)
          case Ok(len, b4) =>
            match Take(b4, len)
            case Err(e) => Err(e)
            case Ok(code, b5) => Ok(Function(name, arity[0], nregs[0], code), b5)
  }

  function DecodeFunctions(b: seq<Byte>, n: nat): Parse<seq<Function>>
  {
    if n == 0 then Ok([], b)
    else
      match DecodeFunction(b)
      case Err(e) => Err(e)
      case Ok(f, b1) =>
        match DecodeFunctions(b1, n - 1)
        case Err(e) => Err(e)
        case Ok(rest, b2) => Ok([f] + rest, b2)
  }

  /** Reads a module; bytes after it are not looked at. */
  function Decoded(b: seq<Byte>): Parse<Module>
  {
    match Take(b, 6)
    case Err(e) => Err(e)
    case Ok(magic, b1) =>
      if magic != MAGIC then Err(BadMagic)
      else
        match Number(b1, 4)
        case Err(e) => Err(e)
        case Ok(natoms, b2) =>
          match DecodeAtoms(b2, natoms)
          case Err(e) => Err(e)
          case Ok(atoms, b3) =>
            match Number(b3, 4)
            case Err(e) => Err(e)
            case Ok(nfns, b4) =>
              match DecodeFunctions(b4, nfns)
              case Err(e) => Err(e)
              case Ok(fns, b5) => Ok(Module(atoms, fns), b5)
  }

  /** Counts and lengths fit their fields; atoms are strings. */
  ghost predicate AtomFits(a: seq<Byte>) { |a| < Pow256(2) && Utf8(a) }

  ghost predicate FunctionFits(f: Function) { f.nameAtom < Pow256(4) && |f.code| < Pow256(4) }

  ghost predicate Fits(m: Module)
  {
    && |m.atoms| < Pow256(4) && |m.functions| < Pow256(4)
    && (forall k :: 0 <= k < |m.atoms| ==> AtomFits(m.atoms[k]))
    && (forall k :: 0 <= k < |m.functions| ==> FunctionFits(m.functions[k]))
  }

  lemma {:induction false} ReadBack(v: nat, n: nat)
    requires v < Pow256(n)
    ensures LE(Bytes(v, n), 0, n) == v
  {
    if n > 0 {
      ReadBack(v / 256, n - 1);
      ShiftLE([v % 256], Bytes(v / 256, n - 1), 0, n - 1);
    }
  }

  lemma {:induction false} ShiftLE(a: seq<Byte>, b: seq<Byte>, at: nat, n: nat)
    requires at + n <= |b|
    ensures LE(a + b, |a| + at, n) == LE(b, at, n)
    decreases n
  {
    if n > 0 { ShiftLE(a, b, at + 1, n - 1); }
  }

  lemma {:induction false} WriteBack(b: seq<Byte>)
    ensures LE(b, 0, |b|) < Pow256(|b|) && Bytes(LE(b, 0, |b|), |b|) == b
    decreases |b|
  {
    if b != [] {
      var v, x := LE(b[1..], 0, |b| - 1), At(b, 0);
      WriteBack(b[1..]);
      assert b == [b[0]] + b[1..];
      ShiftLE([b[0]], b[1..], 0, |b| - 1);
      assert LE(b, 0, |b|) == x + 256 * v;
      LowByte(x, v);
    }
  }

  lemma LowByte(x: nat, v: nat)
    requires x < 256
    ensures (x + 256 * v) % 256 == x && (x + 256 * v) / 256 == v
  {
  }

  lemma TakeAppend(a: seq<Byte>, b: seq<Byte>)
    ensures Take(a + b, |a|) == Ok(a, b)
  {
  }

  lemma NumberBack(v: nat, n: nat, rest: seq<Byte>)
    requires v < Pow256(n)
    ensures Number(Bytes(v, n) + rest, n) == Ok(v, rest)
  {
    TakeAppend(Bytes(v, n), rest);
    ReadBack(v, n);
  }

  lemma NumberForth(b: seq<Byte>, n: nat)
    ensures var r := Number(b, n); r.Ok? ==> r.value < Pow256(n) && b == Bytes(r.value, n) + r.rest
  {
    if n <= |b| { WriteBack(b[..n]); }
  }

  lemma AtomBack(a: seq<Byte>, rest: seq<Byte>)
    requires AtomFits(a)
    ensures DecodeAtom(Bytes(|a|, 2) + a + rest) == Ok(a, rest)
  {
    hide Utf8, Number, Take;
    assert Bytes(|a|, 2) + a + rest == Bytes(|a|, 2) + (a + rest);
    NumberBack(|a|, 2, a + rest);
    TakeAppend(a, rest);
  }

  lemma {:induction false} AtomsBack(atoms: seq<seq<Byte>>, rest: seq<Byte>)
    requires forall k :: 0 <= k < |atoms| ==> AtomFits(atoms[k])
    ensures DecodeAtoms(EncodeAtoms(atoms) + rest, |atoms|) == Ok(atoms, rest)
    decreases |atoms|
  {
    hide DecodeAtom, AtomFits;
    if atoms == [] {
      assert EncodeAtoms(atoms) + rest == rest;
    } else {
      var a, tail := atoms[0], EncodeAtoms(atoms[1..]) + rest;
      assert EncodeAtoms(atoms) + rest == Bytes(|a|, 2) + a + tail;
      AtomBack(a, tail);
      AtomsBack(atoms[1..], rest);
      assert [a] + atoms[1..] == atoms;
    }
  }

  lemma FunctionBack(f: Function, rest: seq<Byte>)
    requires FunctionFits(f)
    ensures DecodeFunction(EncodeFunction(f) + rest) == Ok(f, rest)
  {
    hide Number, Take, Bytes;
    var b4 := f.code + rest;
    var b3 := Bytes(|f.code|, 4) + b4;
    var b2 := [f.nregs] + b3;
    var b1 := [f.arity] + b2;
    assert EncodeFunction(f) + rest == Bytes(f.nameAtom, 4) + b1;
    NumberBack(f.nameAtom, 4, b1);
    TakeAppend([f.arity], b2);
    TakeAppend([f.nregs], b3);
    NumberBack(|f.code|, 4, b4);
    TakeAppend(f.code, rest);
  }

  lemma {:induction false} FunctionsBack(fs: seq<Function>, rest: seq<Byte>)
    requires forall k :: 0 <= k < |fs| ==> FunctionFits(fs[k])
    ensures DecodeFunctions(EncodeFunctions(fs) + rest, |fs|) == Ok(fs, rest)
    decreases |fs|
  {
    hide DecodeFunction, EncodeFunction, FunctionFits;
    if fs == [] {
      assert EncodeFunctions(fs) + rest == rest;
    } else {
      var tail := EncodeFunctions(fs[1..]) + rest;
      assert EncodeFunctions(fs) + rest == EncodeFunction(fs[0]) + tail;
      FunctionBack(fs[0], tail);
      FunctionsBack(fs[1..], rest);
      assert [fs[0]] + fs[1..] == fs;
    }
  }

  /** Decoding an encoding gives the module back, whatever follows it. */
  lemma RoundTrip(m: Module, rest: seq<Byte>)
    requires Fits(m)
    ensures Decoded(Encode(m) + rest) == Ok(m, rest)
  {
    hide Number, Take, Bytes, DecodeAtoms, DecodeFunctions, EncodeAtoms, EncodeFunctions, AtomFits, FunctionFits;
    var b4 := EncodeFunctions(m.functions) + rest;
    var b3 := Bytes(|m.functions|, 4) + b4;
    var b2 := EncodeAtoms(m.atoms) + b3;
    var b1 := Bytes(|m.atoms|, 4) + b2;
    assert Encode(m) + rest == MAGIC + b1;
    TakeAppend(MAGIC, b1);
    NumberBack(|m.atoms|, 4, b2);
    AtomsBack(m.atoms, b3);
    NumberBack(|m.functions|, 4, b4);
    FunctionsBack(m.functions, rest);
  }

  lemma AtomForth(b: seq<Byte>)
    ensures var r := DecodeAtom(b); r.Ok? ==> AtomFits(r.value) && b == Bytes(|r.value|, 2) + r.value + r.rest
  {
    hide Utf8, Bytes, LE;
    NumberForth(b, 2);
  }

  lemma {:induction false} AtomsForth(b: seq<Byte>, n: nat)
    ensures var r := DecodeAtoms(b, n);
      r.Ok? ==>
        |r.value| == n && (forall k :: 0 <= k < n ==> AtomFits(r.value[k])) && b == EncodeAtoms(r.value) + r.rest
    decreases n
  {
    hide DecodeAtom, AtomFits;
    if n == 0 {
      assert EncodeAtoms([]) + b == b;
    } else {
      AtomForth(b);
      var a := DecodeAtom(b);
      if a.Ok? {
        AtomsForth(a.rest, n - 1);
        var r := DecodeAtoms(b, n);
        if r.Ok? { assert r.value[1..] == DecodeAtoms(a.rest, n - 1).value; }
      }
    }
  }

  lemma ByteForth(b: seq<Byte>)
    ensures var r := Take(b, 1); r.Ok? ==> b == [r.value[0]] + r.rest
  {
  }

  lemma FunctionForth(b: seq<Byte>)
    ensures var r := DecodeFunction(b); r.Ok? ==> FunctionFits(r.value) && b == EncodeFunction(r.value) + r.rest
  {
    hide Bytes, Pow256, Number, Take;
    var r := DecodeFunction(b);
    if r.Ok? {
      NumberForth(b, 4);
      var b1 := Number(b, 4).rest;
      ByteForth(b1);
      var b2 := Take(b1, 1).rest;
      ByteForth(b2);
      var b3 := Take(b2, 1).rest;
      NumberForth(b3, 4);
      var b4 := Number(b3, 4).rest;
      var f := r.value;
      assert b4 == f.code + r.rest;
      Regroup(Bytes(f.nameAtom, 4), f.arity, f.nregs, Bytes(|f.code|, 4), f.code, r.rest);
    }
  }

  lemma Regroup(a: seq<Byte>, x: Byte, y: Byte, b: seq<Byte>, c: seq<Byte>, d: seq<Byte>)
    ensures a + ([x] + ([y] + (b + (c + d)))) == (a + ([x] + ([y] + (b + c)))) + d
  {
  }

  lemma {:induction false} FunctionsForth(b: seq<Byte>, n: nat)
    ensures var r := DecodeFunctions(b, n);
      r.Ok? ==>
        |r.value| == n && (forall k :: 0 <= k < n ==> FunctionFits(r.value[k])) &&
        b == EncodeFunctions(r.value) + r.rest
    decreases n
  {
    hide DecodeFunction, FunctionFits, EncodeFunction;
    if n == 0 {
      assert EncodeFunctions([]) + b == b;
    } else {
      FunctionForth(b);
      var f := DecodeFunction(b);
      if f.Ok? {
        FunctionsForth(f.rest, n - 1);
        var r := DecodeFunctions(b, n);
        if r.Ok? { assert r.value[1..] == DecodeFunctions(f.rest, n - 1).value; }
      }
    }
  }

  /** Accepted bytes start with the encoding of what was read. */
  lemma Reencodes(b: seq<Byte>)
    ensures var r := Decoded(b); r.Ok? ==> Fits(r.value) && b == Encode(r.value) + r.rest
  {
    hide Number, Bytes, DecodeAtoms, DecodeFunctions, EncodeAtoms, EncodeFunctions, AtomFits, FunctionFits, Pow256;
    var r := Decoded(b);
    if r.Ok? {
      var b1 := Take(b, 6).rest;
      NumberForth(b1, 4);
      var n := Number(b1, 4);
      AtomsForth(n.rest, n.value);
      var a := DecodeAtoms(n.rest, n.value);
      NumberForth(a.rest, 4);
      var k := Number(a.rest, 4);
      FunctionsForth(k.rest, k.value);
      assert b == MAGIC + b1;
    }
  }

  /** Modules that survive the round trip are exactly those within the field widths. */
  lemma RoundTripExact(m: Module)
    ensures Decoded(Encode(m)) == Ok(m, []) <==> Fits(m)
  {
    hide Encode, Decoded;
    Reencodes(Encode(m));
    assert Encode(m) + [] == Encode(m);
    if Fits(m) { RoundTrip(m, []); }
  }

  /** Cut after `b`, a parse `whole` that succeeded on `b + c` still does, or runs short. */
  ghost predicate Cut<T(!new)>(part: Parse<T>, whole: Parse<T>, c: seq<Byte>)
  {
    whole.Ok? ==> part == Err(ShortInput) || (part.Ok? && part.value == whole.value && part.rest + c == whole.rest)
  }

  lemma TakeCut(b: seq<Byte>, c: seq<Byte>, n: nat)
    ensures Cut(Take(b, n), Take(b + c, n), c) && Cut(Number(b, n), Number(b + c, n), c)
  {
    hide LE;
    if n <= |b| { assert (b + c)[..n] == b[..n] && (b + c)[n..] == b[n..] + c; }
  }

  lemma AtomCut(b: seq<Byte>, c: seq<Byte>)
    ensures Cut(DecodeAtom(b), DecodeAtom(b + c), c)
  {
    hide Take, Number, Utf8;
    TakeCut(b, c, 2);
    var len := Number(b, 2);
    if len.Ok? { TakeCut(len.rest, c, len.value); }
  }

  lemma {:induction false} AtomsCut(b: seq<Byte>, c: seq<Byte>, n: nat)
    ensures Cut(DecodeAtoms(b, n), DecodeAtoms(b + c, n), c)
    decreases n
  {
    hide DecodeAtom;
    if n > 0 {
      AtomCut(b, c);
      var a := DecodeAtom(b);
      if a.Ok? { AtomsCut(a.rest, c, n - 1); }
    }
  }

  lemma FunctionCut(b: seq<Byte>, c: seq<Byte>)
    ensures Cut(DecodeFunction(b), DecodeFunction(b + c), c)
  {
    hide Take, Number;
    TakeCut(b, c, 4);
    var name := Number(b, 4);
    if name.Ok? {
      TakeCut(name.rest, c, 1);
      var arity := Take(name.rest, 1);
      if arity.Ok? {
        TakeCut(arity.rest, c, 1);
        var nregs := Take(arity.rest, 1);
        if nregs.Ok? {
          TakeCut(nregs.rest, c, 4);
          var len := Number(nregs.rest, 4);
          if len.Ok? { TakeCut(len.rest, c, len.value); }
        }
      }
    }
  }

  lemma {:induction false} FunctionsCut(b: seq<Byte>, c: seq<Byte>, n: nat)
    ensures Cut(DecodeFunctions(b, n), DecodeFunctions(b + c, n), c)
    decreases n
  {
    hide DecodeFunction;
    if n > 0 {
      FunctionCut(b, c);
      var f := DecodeFunction(b);
      if f.Ok? { FunctionsCut(f.rest, c, n - 1); }
    }
  }

  lemma ModuleCut(b: seq<Byte>, c: seq<Byte>)
    ensures Cut(Decoded(b), Decoded(b + c), c)
  {
    hide Take, Number, DecodeAtoms, DecodeFunctions;
    TakeCut(b, c, 6);
    var magic := Take(b, 6);
    if magic.Ok? {
      TakeCut(magic.rest, c, 4);
      var n := Number(magic.rest, 4);
      if n.Ok? {
        AtomsCut(n.rest, c, n.value);
        var atoms := DecodeAtoms(n.rest, n.value);
        if atoms.Ok? {
          TakeCut(atoms.rest, c, 4);
          var k := Number(atoms.rest, 4);
          if k.Ok? { FunctionsCut(k.rest, c, k.value); }
        }
      }
    }
  }

  /** Every strict prefix of an encoding is rejected, as short. */
  lemma PrefixRejected(m: Module, k: nat)
    requires Fits(m) && k < |Encode(m)|
    ensures Decoded(Encode(m)[..k]) == Err(ShortInput)
  {
    hide Encode, Decoded;
    var all := Encode(m);
    RoundTrip(m, []);
    assert all + [] == all && all[..k] + all[k..] == all;
    ModuleCut(all[..k], all[k..]);
  }

  /** The encoder's loops, appending to one buffer. */
  method EncodeModule(m: Module) returns (out: seq<Byte>)
    ensures out == Encode(m)
  {
    hide Bytes, EncodeFunction;
    out := MAGIC + Bytes(|m.atoms|, 4);
    ghost var head := out;
    for i := 0 to |m.atoms|
      invariant out + EncodeAtoms(m.atoms[i..]) == head + EncodeAtoms(m.atoms)
    {
      out := out + Bytes(|m.atoms[i]|, 2);
      out := out + m.atoms[i];
      assert m.atoms[i..][1..] == m.atoms[i + 1..];
    }
    assert out == head + EncodeAtoms(m.atoms);
    out := out + Bytes(|m.functions|, 4);
    head := out;
    for i := 0 to |m.functions|
      invariant out + EncodeFunctions(m.functions[i..]) == head + EncodeFunctions(m.functions)
    {
      var f := m.functions[i];
      out := out + EncodeFunction(f);
      assert m.functions[i..][1..] == m.functions[i + 1..];
    }
    assert out == head + EncodeFunctions(m.functions);
  }

  class Reader {
    const b: seq<Byte>
    var at: nat

    ghost predicate Valid()
      reads this
    {
      at <= |b|
    }

    ghost function Rest(): seq<Byte>
      requires Valid()
      reads this
    {
      b[at..]
    }

    constructor (bytes: seq<Byte>)
      ensures Valid() && Rest() == bytes
    {
      b, at := bytes, 0;
    }

    /** The next `n` bytes, if there are so many. */
    method Next(n: nat) returns (r: Option<seq<Byte>>)
      requires Valid()
      modifies this
      ensures Valid()
      ensures Take(old(Rest()), n) == if r.Some? then Ok(r.value, Rest()) else Err(ShortInput)
    {
      if at + n > |b| { return None; }
      r := Some(b[at..at + n]);
      assert b[at..][..n] == b[at..at + n] && b[at..][n..] == b[at + n..];
      at := at + n;
    }

    method NextNumber(n: nat) returns (r: Option<nat>)
      requires Valid()
      modifies this
      ensures Valid()
      ensures Number(old(Rest()), n) == if r.Some? then Ok(r.value, Rest()) else Err(ShortInput)
    {
      hide LE;
      var s := Next(n);
      if s.None? { return None; }
      r := Some(LE(s.value, 0, n));
    }

    method NextFunction() returns (r: Option<Function>)
      requires Valid()
      modifies this
      ensures Valid()
      ensures DecodeFunction(old(Rest())) == if r.Some? then Ok(r.value, Rest()) else Err(ShortInput)
    {
      hide Number, Take;
      var name := NextNumber(4);
      if name.None? { return None; }
      var arity := Next(1);
      if arity.None? { return None; }
      var nregs := Next(1);
      if nregs.None? { return None; }
      var len := NextNumber(4);
      if len.None? { return None; }
      var code := Next(len.value);
      if code.None? { return None; }
      r := Some(Function(name.value, arity.value[0], nregs.value[0], code.value));
    }
  }

  /** A parse with `done` read before it. */
  ghost function After<T>(done: seq<T>, p: Parse<seq<T>>): Parse<seq<T>>
  {
    if p.Ok? then Ok(done + p.value, p.rest) else p
  }

  lemma AfterEnds<T>(done: seq<T>, p: Parse<seq<T>>)
    ensures After([], p) == p
    ensures p.Ok? && p.value == [] ==> After(done, p) == Ok(done, p.rest)
  {
    if p.Ok? {
      assert [] + p.value == p.value;
      assert done + [] == done;
    }
  }

  method ReadAtoms(reader: Reader, n: nat) returns (error: Option<DecodeError>, atoms: seq<seq<Byte>>)
    requires reader.Valid()
    modifies reader
    ensures reader.Valid()
    ensures DecodeAtoms(old(reader.Rest()), n) == if error.Some? then Err(error.value) else Ok(atoms, reader.Rest())
  {
    hide Number, Take, Utf8;
    error, atoms := None, [];
    AfterEnds([], DecodeAtoms(reader.Rest(), n));
    for i := 0 to n
      invariant reader.Valid() && error.None?
      invariant DecodeAtoms(old(reader.Rest()), n) == After(atoms, DecodeAtoms(reader.Rest(), n - i))
    {
      var len := reader.NextNumber(2);
      if len.None? { return Some(ShortInput), atoms; }
      var s := reader.Next(len.value);
      if s.None? { return Some(ShortInput), atoms; }
      if !Utf8(s.value) { return Some(BadUtf8), atoms; }
      ghost var p := DecodeAtoms(reader.Rest(), n - i - 1);
      if p.Ok? { assert atoms + ([s.value] + p.value) == (atoms + [s.value]) + p.value; }
      atoms := atoms + [s.value];
    }
    AfterEnds(atoms, DecodeAtoms(reader.Rest(), 0));
  }

  method ReadFunctions(reader: Reader, n: nat) returns (error: Option<DecodeError>, fs: seq<Function>)
    requires reader.Valid()
    modifies reader
    ensures reader.Valid()
    ensures DecodeFunctions(old(reader.Rest()), n) == if error.Some? then Err(error.value) else Ok(fs, reader.Rest())
  {
    hide DecodeFunction;
    error, fs := None, [];
    AfterEnds([], DecodeFunctions(reader.Rest(), n));
    for i := 0 to n
      invariant reader.Valid() && error.None?
      invariant DecodeFunctions(old(reader.Rest()), n) == After(fs, DecodeFunctions(reader.Rest(), n - i))
    {
      var f := reader.NextFunction();
      if f.None? { return Some(ShortInput), fs; }
      ghost var p := DecodeFunctions(reader.Rest(), n - i - 1);
      if p.Ok? { assert fs + ([f.value] + p.value) == (fs + [f.value]) + p.value; }
      fs := fs + [f.value];
    }
    AfterEnds(fs, DecodeFunctions(reader.Rest(), 0));
  }

  /** The decoder: one cursor over the bytes. */
  method DecodeModule(bytes: seq<Byte>) returns (error: Option<DecodeError>, m: Module)
    ensures error == if Decoded(bytes).Err? then Some(Decoded(bytes).error) else None
    ensures error.None? ==> Decoded(bytes).value == m
  {
    hide Number, Take, DecodeAtoms, DecodeFunctions;
    m := Module([], []);
    var reader := new Reader(bytes);
    var magic := reader.Next(6);
    if magic.None? { return Some(ShortInput), m; }
    if magic.value != MAGIC { return Some(BadMagic), m; }
    var natoms := reader.NextNumber(4);
    if natoms.None? { return Some(ShortInput), m; }
    var e, atoms := ReadAtoms(reader, natoms.value);
    if e.Some? { return e, m; }
    var nfns := reader.NextNumber(4);
    if nfns.None? { return Some(ShortInput), m; }
    var e', fs := ReadFunctions(reader, nfns.value);
    if e'.Some? { return e', m; }
    return None, Module(atoms, fs);
  }
}
