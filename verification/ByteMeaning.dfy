/** What each instruction does, read off its bytes: opcodes and operand positions are written
    out as numbers, so nothing here goes through a decoder's table. */
module ByteMeaning {
  import opened Basics
  import opened Bytecode
  import opened Interp
  import opened Lowering
  import opened Bits

  /** The four bytes from `at`, lowest first. */
  ghost function Word32(code: seq<Byte>, at: nat): (x: nat)
    requires at + 4 <= |code|
    ensures x < 0x1_0000_0000
  {
    code[at] as int + 0x100 * (code[at + 1] as int) + 0x1_0000 * (code[at + 2] as int)
      + 0x100_0000 * (code[at + 3] as int)
  }

  ghost function Word64(code: seq<Byte>, at: nat): (x: nat)
    requires at + 8 <= |code|
    ensures x < 0x1_0000_0000_0000_0000
  {
    Word32(code, at) + 0x1_0000_0000 * Word32(code, at + 4)
  }

  /** The registers named by the `n` bytes from `at`, in order. */
  ghost function RegsAt(code: seq<Byte>, at: nat, n: nat): (rs: seq<nat>)
    requires at + n <= |code|
    ensures |rs| == n
    decreases n
  {
    if n == 0 then [] else [code[at] as nat] + RegsAt(code, at + 1, n - 1)
  }

  /** What those registers hold, in order. */
  ghost function Values(regs: seq<Term>, rs: seq<nat>): (vs: seq<Term>)
    requires forall k :: 0 <= k < |rs| ==> rs[k] < |regs|
    ensures |vs| == |rs|
  {
    if rs == [] then [] else [regs[rs[0]]] + Values(regs, rs[1..])
  }

  lemma {:induction false} FetchIsValues(regs: seq<Term>, rs: seq<nat>)
    requires InFrame(regs, rs)
    ensures Fetch(regs, rs) == Values(regs, rs)
  {
    if rs != [] {
      FetchIsValues(regs, rs[1..]);
      assert Fetch(regs, rs) == [regs[rs[0]]] + Fetch(regs, rs[1..]);
    }
  }

  lemma {:induction false} ListIsRegs(code: seq<Byte>, at: nat, n: nat)
    requires at + n <= |code|
    ensures var l: seq<nat> := code[at..at + n]; l == RegsAt(code, at, n)
    decreases n
  {
    if n > 0 {
      ListIsRegs(code, at + 1, n - 1);
      assert code[at..at + n] == [code[at]] + code[at + 1..at + 1 + (n - 1)];
    }
  }

  lemma LE4(code: seq<Byte>, at: nat)
    requires at + 4 <= |code|
    ensures LE(code, at, 4) == Word32(code, at)
  {
    assert LE(code, at + 2, 2) == code[at + 2] as int + 0x100 * (code[at + 3] as int);
    assert LE(code, at + 1, 3) == At(code, at + 1) + 256 * LE(code, at + 2, 2);
  }

  lemma LE8(code: seq<Byte>, at: nat)
    requires at + 8 <= |code|
    ensures LE(code, at, 8) == Word64(code, at)
  {
    hide Word32;
    LE4(code, at + 4);
    assert LE(code, at + 3, 5) == At(code, at + 3) + 256 * LE(code, at + 4, 4);
    assert LE(code, at + 2, 6) == At(code, at + 2) + 256 * LE(code, at + 3, 5);
    assert LE(code, at + 1, 7) == At(code, at + 1) + 256 * LE(code, at + 2, 6);
    assert LE(code, at, 8) == At(code, at) + 256 * LE(code, at + 1, 7);
    Low32(code, at);
  }

  lemma Low32(code: seq<Byte>, at: nat)
    requires at + 4 <= |code|
    ensures Word32(code, at)
      == At(code, at) + 256 * (At(code, at + 1) + 256 * (At(code, at + 2) + 256 * At(code, at + 3)))
  {
  }

  lemma {:induction false} ReadBytes(fs: seq<Field>, code: seq<Byte>, at: nat)
    requires (forall k :: 0 <= k < |fs| ==> fs[k].U8?) && at + |fs| <= |code|
    ensures var r := ReadFields(fs, code, at);
      r.Got? && r.next == at + |fs| && forall k :: 0 <= k < |fs| ==> r.value[k] == Num(code[at + k])
    decreases |fs|
  {
    if fs != [] { ReadBytes(fs[1..], code, at + 1); }
  }

  /** An instruction of `n` one-byte operands. */
  lemma BytesDecode(code: seq<Byte>, pc: nat, n: nat)
    requires pc + 1 + n <= |code| && InterpFields(code[pc]).Some?
    requires var fs := InterpFields(code[pc]).value; |fs| == n && forall k :: 0 <= k < n ==> fs[k].U8?
    ensures var d := Decode(code, pc);
      && d.Some? && d.value.next == pc + 1 + n && |d.value.args| == n
      && (forall k :: 0 <= k < n ==> d.value.args[k] == Num(code[pc + 1 + k]))
      && forall k :: 0 <= k < n ==> Reg(d.value, k) == code[pc + 1 + k]
  {
    hide InterpFields;
    ReadBytes(InterpFields(code[pc]).value, code, pc + 1);
  }

  lemma Two(f: Field, rest: seq<Field>, code: seq<Byte>, at: nat)
    requires at <= |code| && ReadField(f, code, at).Got?
    requires ReadFields(rest, code, ReadField(f, code, at).next).Got?
    ensures var v := ReadField(f, code, at);
      ReadFields([f] + rest, code, at)
        == Got([v.value] + ReadFields(rest, code, v.next).value, ReadFields(rest, code, v.next).next)
  {
    assert ([f] + rest)[1..] == rest;
  }

  lemma One(f: Field, code: seq<Byte>, at: nat)
    requires at <= |code| && ReadField(f, code, at).Got?
    ensures ReadFields([f], code, at) == Got([ReadField(f, code, at).value], ReadField(f, code, at).next)
  {
    Two(f, [], code, at);
    var v := ReadField(f, code, at).value;
    assert [f] + [] == [f] && [v] + [] == [v];
  }

  /** Instructions of two, three and four operands, each read where the one before it ends. */
  lemma Decode2(a: Field, b: Field, code: seq<Byte>, pc: nat)
    requires pc < |code| && InterpFields(code[pc]) == Some([a, b]) && ReadField(a, code, pc + 1).Got?
    requires ReadField(b, code, ReadField(a, code, pc + 1).next).Got?
    ensures var va := ReadField(a, code, pc + 1);
      var vb := ReadField(b, code, va.next);
      Decode(code, pc) == Some(Insn(code[pc], [va.value, vb.value], vb.next))
  {
    hide ReadField, ReadFields, InterpFields;
    var va := ReadField(a, code, pc + 1);
    var vb := ReadField(b, code, va.next);
    One(b, code, va.next);
    Two(a, [b], code, pc + 1);
    assert [a] + [b] == [a, b] && [va.value] + [vb.value] == [va.value, vb.value];
  }

  lemma Decode3(a: Field, b: Field, c: Field, code: seq<Byte>, pc: nat)
    requires pc < |code| && InterpFields(code[pc]) == Some([a, b, c]) && ReadField(a, code, pc + 1).Got?
    requires ReadField(b, code, ReadField(a, code, pc + 1).next).Got?
    requires ReadField(c, code, ReadField(b, code, ReadField(a, code, pc + 1).next).next).Got?
    ensures var va := ReadField(a, code, pc + 1);
      var vb := ReadField(b, code, va.next);
      var vc := ReadField(c, code, vb.next);
      Decode(code, pc) == Some(Insn(code[pc], [va.value, vb.value, vc.value], vc.next))
  {
    hide ReadField, ReadFields, InterpFields;
    var va := ReadField(a, code, pc + 1);
    var vb := ReadField(b, code, va.next);
    var vc := ReadField(c, code, vb.next);
    One(c, code, vb.next);
    Two(b, [c], code, va.next);
    Two(a, [b] + [c], code, pc + 1);
    assert [a] + ([b] + [c]) == [a, b, c];
    assert [va.value] + ([vb.value] + [vc.value]) == [va.value, vb.value, vc.value];
  }

  lemma Decode4(a: Field, b: Field, c: Field, d: Field, code: seq<Byte>, pc: nat)
    requires pc < |code| && InterpFields(code[pc]) == Some([a, b, c, d]) && ReadField(a, code, pc + 1).Got?
    requires ReadField(b, code, ReadField(a, code, pc + 1).next).Got?
    requires ReadField(c, code, ReadField(b, code, ReadField(a, code, pc + 1).next).next).Got?
    requires ReadField(d, code, ReadField(c, code, ReadField(b, code, ReadField(a, code, pc + 1).next).next).next).Got?
    ensures var va := ReadField(a, code, pc + 1);
      var vb := ReadField(b, code, va.next);
      var vc := ReadField(c, code, vb.next);
      var vd := ReadField(d, code, vc.next);
      Decode(code, pc) == Some(Insn(code[pc], [va.value, vb.value, vc.value, vd.value], vd.next))
  {
    hide ReadField, ReadFields, InterpFields;
    var va := ReadField(a, code, pc + 1);
    var vb := ReadField(b, code, va.next);
    var vc := ReadField(c, code, vb.next);
    var vd := ReadField(d, code, vc.next);
    One(d, code, vc.next);
    Two(c, [d], code, vb.next);
    Two(b, [c] + [d], code, va.next);
    Two(a, [b] + ([c] + [d]), code, pc + 1);
    assert [a] + ([b] + ([c] + [d])) == [a, b, c, d];
    assert [va.value] + ([vb.value] + ([vc.value] + [vd.value])) == [va.value, vb.value, vc.value, vd.value];
  }

  /** Goes on at `next` with `t` in register `rd`, if the frame has it. */
  ghost function Sets(fuel: nat, e: Env, f: Function, next: nat, regs: seq<Term>, log: seq<Req>, rd: nat, t: Term)
      : Outcome
  {
    if rd < |regs| then Exec(fuel, e, f, next, regs[rd := t], log) else Broken(BadFrame, log)
  }

  /** NOP. */
  lemma NopRuns(fuel: nat, e: Env, f: Function, pc: nat, regs: seq<Term>, log: seq<Req>)
    requires pc < |f.code| && f.code[pc] == 0
    ensures Exec(fuel, e, f, pc, regs, log) == Exec(fuel, e, f, pc + 1, regs, log)
  {
    BytesDecode(f.code, pc, 0);
  }

  /** LOAD_INT, an i64 in two's complement, cut to i61. */
  lemma LoadIntRuns(fuel: nat, e: Env, f: Function, pc: nat, regs: seq<Term>, log: seq<Req>, v: int, t: Term)
    requires pc + 10 <= |f.code| && f.code[pc] == 1
    requires -0x8000_0000_0000_0000 <= v < 0x8000_0000_0000_0000
    requires (v - Word64(f.code, pc + 2)) % 0x1_0000_0000_0000_0000 == 0 && Tags(t, v)
    ensures Exec(fuel, e, f, pc, regs, log) == Sets(fuel, e, f, pc + 10, regs, log, f.code[pc + 1], t)
  {
    hide LE, Word64, IntTerm, Decode;
    Decode2(U8, U64, f.code, pc);
    LE8(f.code, pc + 2);
    IntTermTags(v);
    Carried(Word64(f.code, pc + 2), v);
  }

  lemma Carried(x: nat, v: int)
    requires x < 0x1_0000_0000_0000_0000 && -0x8000_0000_0000_0000 <= v < 0x8000_0000_0000_0000
    requires (v - x) % 0x1_0000_0000_0000_0000 == 0
    ensures Signed(Word(x)) == v
  {
  }

  /** LOAD_ATOM: the module's atom, by the number it has in the whole system. */
  lemma LoadAtomRuns(fuel: nat, e: Env, f: Function, pc: nat, regs: seq<Term>, log: seq<Req>)
    requires pc + 6 <= |f.code| && f.code[pc] == 2
    ensures var a := Word32(f.code, pc + 2); var n := if a < |e.names.atoms| then e.names.atoms[a] else e.names.unknown;
      Exec(fuel, e, f, pc, regs, log)
        == Sets(fuel, e, f, pc + 6, regs, log, f.code[pc + 1], 8 * (n % 0x1_0000_0000) + 2)
  {
    hide LE, Word32, Decode;
    Decode2(U8, U32, f.code, pc);
    LE4(f.code, pc + 2);
  }

  /** LOAD_NIL and MOVE. */
  lemma CopyRuns(fuel: nat, e: Env, f: Function, pc: nat, regs: seq<Term>, log: seq<Req>)
    ensures pc + 2 <= |f.code| && f.code[pc] == 3 ==>
      Exec(fuel, e, f, pc, regs, log) == Sets(fuel, e, f, pc + 2, regs, log, f.code[pc + 1], 5)
    ensures pc + 3 <= |f.code| && f.code[pc] == 4 && f.code[pc + 2] < |regs| ==>
      Exec(fuel, e, f, pc, regs, log) == Sets(fuel, e, f, pc + 3, regs, log, f.code[pc + 1], regs[f.code[pc + 2]])
  {
    hide Decode;
    if pc + 2 <= |f.code| && f.code[pc] == 3 { BytesDecode(f.code, pc, 1); }
    if pc + 3 <= |f.code| && f.code[pc] == 4 { BytesDecode(f.code, pc, 2); }
  }

  /** The bits of `w` above its integer tag are `f` of the operands' bits. */
  ghost predicate Bitwisely(w: Term, x: int, y: int, f: (bool, bool) -> bool)
  {
    w % 8 == 1 && forall k: nat :: k < 61 ==> Bit(w, k + 3) == f(Bit(x, k), Bit(y, k))
  }

  /** The word an integer instruction leaves for operands `x` and `y`. */
  ghost predicate Leaves(op: nat, x: int, y: int, w: Term)
  {
    if op == 11 then Tags(w, x + y)
    else if op == 12 then Tags(w, x - y)
    else if op == 13 then Tags(w, x * y)
    else if op == 15 then Tags(w, if x < y then 1 else 0)
    else if op == 28 then Bitwisely(w, x, y, (a, b) => a && b)
    else if op == 29 then Bitwisely(w, x, y, (a, b) => a || b)
    else if op == 30 then Bitwisely(w, x, y, (a, b) => a != b)
    else if op == 31 then 0 <= y && Tags(w, Doubled(x, y))
    else 0 <= y && Tags(w, Halved(x, y))
  }

  lemma BitOpLeaves(op: nat, x: int, y: int)
    requires op in {28, 29, 30}
    ensures Leaves(op, x, y, IntTerm(BitOp(op, x, y)))
  {
    hide BitOp, Bit, IntTerm;
    var w := IntTerm(BitOp(op, x, y));
    TagOf(BitOp(op, x, y));
    forall k: nat | k < 61
      ensures op == 28 ==> Bit(w, k + 3) == (Bit(x, k) && Bit(y, k))
      ensures op == 29 ==> Bit(w, k + 3) == (Bit(x, k) || Bit(y, k))
      ensures op == 30 ==> Bit(w, k + 3) == (Bit(x, k) != Bit(y, k))
    {
      TermBit(BitOp(op, x, y), k);
      BitOpBits(op, x, y, k);
    }
  }

  lemma TagOf(v: int)
    ensures IntTerm(v) % 8 == 1
  {
    var q := (8 * v + 1) / TWO64;
    assert IntTerm(v) == 8 * (v - 0x2000_0000_0000_0000 * q) + 1;
  }

  lemma TermBit(v: int, k: nat)
    requires k < 61
    ensures Bit(IntTerm(v), k + 3) == Bit(v, k)
  {
    hide Bit, Word, Signed;
    WordBits(8 * v + 1, k + 3);
    AboveTag(v, k);
  }

  lemma AboveTag(v: int, k: nat)
    ensures Bit(8 * v + 1, k + 3) == Bit(v, k)
  {
    assert Bit(8 * v + 1, k + 3) == Bit(4 * v, k + 2);
    assert Bit(4 * v, k + 2) == Bit(2 * v, k + 1);
  }

  lemma ShiftLeaves(op: nat, x: int, y: int)
    requires op in {31, 32} && 0 <= y <= 60
    ensures Shift(op, x, y).Some? && Leaves(op, x, y, IntTerm(Shift(op, x, y).value))
  {
    hide ShiftLeft, ShiftRight, Doubled, Halved, Word, Signed;
    var v := if op == 31 then ShiftLeft(x, y) else ShiftRight(x, y);
    ShiftsAre(x, y);
    CutKeepsTerm(v);
    IntTermTags(v);
    if op == 31 { SameTag(v, Doubled(x, y), IntTerm(v)); }
  }

  lemma SameTag(a: int, b: int, w: Term)
    requires (a - b) % 0x1_0000_0000_0000_0000 == 0 && Tags(w, a)
    ensures Tags(w, b)
  {
  }

  lemma SumLeaves(wraps: bool, op: nat, wa: Term, wb: Term, x: int, y: int)
    requires Holds(wa, x) && Holds(wb, y) && op in {11, 12, 15}
    ensures Arith(wraps, op, wa, wb).Result? && Leaves(op, x, y, Arith(wraps, op, wa, wb).w)
  {
    hide IntTerm, IntOf, FitsI64, Holds, Tags;
    HeldInt(wa, x);
    HeldInt(wb, y);
    SumsFit(wa, wb);
    IntTermTags(x + y);
    IntTermTags(x - y);
    IntTermTags(if x < y then 1 else 0);
  }

  lemma ProductLeaves(wraps: bool, wa: Term, wb: Term, x: int, y: int)
    requires Holds(wa, x) && Holds(wb, y)
    ensures var r := Arith(wraps, 13, wa, wb);
      if wraps || FitsI64(x * y) then r.Result? && Leaves(13, x, y, r.w) else r == OutOfRange
  {
    hide IntTerm, IntOf, FitsI64, Holds, Tags, Word, Signed;
    HeldInt(wa, x);
    HeldInt(wb, y);
    IntTermTags(x * y);
    var v := Signed(Word(x * y));
    IntTermTags(v);
    CutToWord(x * y);
    SameTag(v, x * y, IntTerm(v));
  }

  lemma MaskLeaves(wraps: bool, op: nat, wa: Term, wb: Term, x: int, y: int)
    requires Holds(wa, x) && Holds(wb, y) && op in {28, 29, 30}
    ensures Arith(wraps, op, wa, wb).Result? && Leaves(op, x, y, Arith(wraps, op, wa, wb).w)
  {
    hide IntTerm, IntOf, Holds, Leaves, BitOp;
    HeldInt(wa, x);
    HeldInt(wb, y);
    BitOpLeaves(op, x, y);
  }

  lemma ShiftedLeaves(wraps: bool, op: nat, wa: Term, wb: Term, x: int, y: int)
    requires Holds(wa, x) && Holds(wb, y) && op in {31, 32}
    ensures var r := Arith(wraps, op, wa, wb);
      if 0 <= y <= 60 then r.Result? && Leaves(op, x, y, r.w) else r == BadOperand
  {
    hide IntTerm, IntOf, Holds, Leaves, Shift;
    HeldInt(wa, x);
    HeldInt(wb, y);
    ShiftRange(op, x, y);
    if 0 <= y <= 60 { ShiftLeaves(op, x, y); }
  }

  /** An integer instruction that has no result for operands `x` and `y`. */
  ghost predicate Undefined(wraps: bool, op: nat, x: int, y: int)
  {
    || (op in {31, 32} && !(0 <= y <= 60))
    || (op == 13 && !wraps && !(-0x8000_0000_0000_0000 <= x * y < 0x8000_0000_0000_0000))
  }

  /** What the two-operand integer instructions leave, for every two i61. */
  lemma ArithLeaves(wraps: bool, op: nat, wa: Term, wb: Term, x: int, y: int)
    requires Holds(wa, x) && Holds(wb, y) && op in {11, 12, 13, 15, 28, 29, 30, 31, 32}
    ensures var r := Arith(wraps, op, wa, wb);
      if Undefined(wraps, op, x, y) then r == (if op == 13 then OutOfRange else BadOperand)
      else r.Result? && Leaves(op, x, y, r.w)
  {
    hide Arith, Leaves, Holds;
    if op in {11, 12, 15} {
      SumLeaves(wraps, op, wa, wb, x, y);
    } else if op == 13 {
      ProductLeaves(wraps, wa, wb, x, y);
    } else if op in {28, 29, 30} {
      MaskLeaves(wraps, op, wa, wb, x, y);
    } else {
      ShiftedLeaves(wraps, op, wa, wb, x, y);
    }
  }

  lemma NotInts(wraps: bool, op: nat, wa: Term, wb: Term)
    requires wa % 8 != 1 || wb % 8 != 1
    ensures Arith(wraps, op, wa, wb) == BadOperand
  {
  }

  /** The two-operand integer instructions: an integer trap, or the word the two i61 leave. */
  lemma IntRuns(fuel: nat, e: Env, f: Function, pc: nat, regs: seq<Term>, log: seq<Req>, x: int, y: int)
      returns (t: Term)
    requires pc + 4 <= |f.code| && f.code[pc] in {11, 12, 13, 15, 28, 29, 30, 31, 32}
    requires f.code[pc + 2] < |regs| && Holds(regs[f.code[pc + 2]], x)
    requires f.code[pc + 3] < |regs| && Holds(regs[f.code[pc + 3]], y)
    ensures Exec(fuel, e, f, pc, regs, log)
      == if !Undefined(e.wraps, f.code[pc], x, y) then Sets(fuel, e, f, pc + 4, regs, log, f.code[pc + 1], t)
         else if f.code[pc] == 13 then Overflow(log) else Trapped(Badarg, log)
    ensures !Undefined(e.wraps, f.code[pc], x, y) ==> Leaves(f.code[pc], x, y, t)
  {
    hide Arith, Leaves, Holds, Decode, Undefined;
    var op := f.code[pc];
    BytesDecode(f.code, pc, 3);
    ArithLeaves(e.wraps, op, regs[f.code[pc + 2]], regs[f.code[pc + 3]], x, y);
    var r := Arith(e.wraps, op, regs[f.code[pc + 2]], regs[f.code[pc + 3]]);
    t := if r.Result? then r.w else 0;
  }

  /** BNOT: every bit of the i61 turned over. */
  lemma NotRuns(fuel: nat, e: Env, f: Function, pc: nat, regs: seq<Term>, log: seq<Req>, x: int) returns (t: Term)
    requires pc + 3 <= |f.code| && f.code[pc] == 33
    requires f.code[pc + 2] < |regs| && Holds(regs[f.code[pc + 2]], x)
    ensures Exec(fuel, e, f, pc, regs, log) == Sets(fuel, e, f, pc + 3, regs, log, f.code[pc + 1], t)
    ensures Bitwisely(t, x, 0, (a, _) => !a)
  {
    hide Holds, Decode, Bit, IntTerm, IntOf;
    BytesDecode(f.code, pc, 2);
    HeldInt(regs[f.code[pc + 2]], x);
    t := IntTerm(-x - 1);
    TagOf(-x - 1);
    forall k: nat | k < 61 ensures Bit(t, k + 3) == !Bit(x, k) {
      TermBit(-x - 1, k);
      Turned(x, k);
    }
  }

  lemma {:induction false} Turned(x: int, k: nat)
    ensures Bit(-x - 1, k) == !Bit(x, k)
    decreases k
  {
    assert (-x - 1) / 2 == -(x / 2) - 1;
    if k > 0 { Turned(x / 2, k - 1); }
  }

  /** Operands that are not integers trap. */
  lemma IntTraps(fuel: nat, e: Env, f: Function, pc: nat, regs: seq<Term>, log: seq<Req>)
    requires pc + 4 <= |f.code| && f.code[pc] in {11, 12, 13, 15, 28, 29, 30, 31, 32}
    requires f.code[pc + 2] < |regs| && f.code[pc + 3] < |regs|
    requires regs[f.code[pc + 2]] % 8 != 1 || regs[f.code[pc + 3]] % 8 != 1
    ensures Exec(fuel, e, f, pc, regs, log) == Trapped(Badarg, log)
  {
    hide Arith, Decode;
    BytesDecode(f.code, pc, 3);
    NotInts(e.wraps, f.code[pc], regs[f.code[pc + 2]], regs[f.code[pc + 3]]);
  }

  lemma ShiftRange(op: nat, x: int, y: int)
    ensures !(0 <= y <= 60) ==> Shift(op, x, y) == None
  {
  }

}
