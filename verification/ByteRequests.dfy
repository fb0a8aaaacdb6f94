/** The instructions the system carries out, read off their bytes: which registers are sent, in
    which order, beside what, and where the reply goes. */
module ByteRequests {
  import opened Basics
  import opened Bytecode
  import opened Interp
  import opened Lowering
  import opened ByteMeaning

  /** A request: the register the reply goes to, if any; whether the reply is a bare number;
      immediates, constant bytes and argument registers; and where the next instruction is. */
  datatype Asking = Asking(
    dest: Option<nat>, bare: bool, imms: seq<nat>, blob: seq<Byte>, from: seq<nat>, next: nat)

  /** Instructions of byte operands alone, all registers: how many; a reply first, or none. */
  ghost function Registers(op: nat): nat
  {
    if op in {5, 22, 23, 51, 54} then 1
    else if op in {9, 10, 21, 35, 36, 37, 38, 39, 43, 52} then 2
    else if op in {8, 14, 41, 44, 45, 55} then 3
    else if op in {42, 46, 50, 53} then 4
    else if op == 48 then 5
    else 0
  }

  /** The request of the instruction at `pc`. */
  ghost function AskedAt(code: seq<Byte>, pc: nat): Option<Asking>
  {
    if pc >= |code| then None
    else
      var op, at, n := code[pc], pc + 1, Registers(code[pc]);
      if n > 0 && at + n <= |code| then
        if op in {21, 23, 48, 51} then Some(Asking(None, false, [], [], RegsAt(code, at, n), at + n))
        else Some(Asking(Some(code[at]), op in {14, 43}, [], [], RegsAt(code, at + 1, n - 1), at + n))
      else if op == 7 && at + 3 <= |code| then
        Some(Asking(Some(code[at]), false, [code[at + 2]], [], [code[at + 1]], at + 3))
      else if op == 25 && at + 2 <= |code| then Some(Asking(Some(code[at]), false, [code[at + 1]], [], [], at + 2))
      else if op == 26 && at + 4 <= |code| then
        Some(Asking(None, false, [code[at + 1]], [], [code[at], code[at + 2], code[at + 3]], at + 4))
      else if op == 20 && at + 6 <= |code| then
        Some(Asking(Some(code[at]), false, [Word32(code, at + 1)], [], [code[at + 5]], at + 6))
      else if op in {6, 40} && at + 2 <= |code| then
        var k: nat := (if op == 40 then 2 else 1) * code[at + 1] as int;
        if at + 2 + k <= |code| then Some(Asking(Some(code[at]), false, [], [], RegsAt(code, at + 2, k), at + 2 + k))
        else None
      else if op == 34 && at + 5 <= |code| && at + 5 + Word32(code, at + 1) <= |code| then
        var end := at + 5 + Word32(code, at + 1);
        Some(Asking(Some(code[at]), false, [], code[at + 5..end], [], end))
      else None
  }

  /** Straight-line instructions the engine does not carry out itself. */
  predicate ForSystem(op: nat)
  {
    !IsControl(op) && !IsIntOp(op) && op !in {NOP, LOAD_INT, LOAD_ATOM, LOAD_NIL, MOVE, BNOT}
  }

  /** The interpreter's reading of the instruction is that request. */
  ghost predicate Matches(ns: Names, code: seq<Byte>, pc: nat, a: Asking)
  {
    var d := Decode(code, pc);
    && d.Some? && d.value.next == a.next && ForSystem(d.value.op)
    && Sources(d.value) == a.from && Imms(ns, d.value) == a.imms && BlobOf(d.value) == a.blob
    && NoResult(d.value.op) == a.dest.None? && (a.dest.Some? ==> Reg(d.value, 0) == a.dest.value)
    && RawResult(d.value.op) == a.bare
  }

  lemma {:induction false} RegsFrom(i: Insn, roles: seq<Role>, k: nat, code: seq<Byte>, base: nat)
    requires (forall j :: 0 <= j < |roles| ==> roles[j].RReg?) && base + k + |roles| <= |code|
    requires forall j :: k <= j < k + |roles| ==> Reg(i, j) == code[base + j]
    ensures SourcesFrom(i, roles, k) == RegsAt(code, base + k, |roles|)
    decreases |roles|
  {
    if roles != [] { RegsFrom(i, roles[1..], k + 1, code, base); }
  }

  /** The tables, for instructions of registers alone. */
  lemma RegisterTable(op: nat)
    requires Registers(op) > 0
    ensures InterpFields(op).Some? && Roles(op).Some? && ForSystem(op)
    ensures |InterpFields(op).value| == |Roles(op).value| == Registers(op)
    ensures forall k :: 0 <= k < Registers(op) ==> InterpFields(op).value[k].U8? && Roles(op).value[k].RReg?
    ensures NoResult(op) == (op in {21, 23, 48, 51}) && RawResult(op) == (op in {14, 43}) && op != BIN_NEW
  {
  }

  lemma RegistersAsk(ns: Names, code: seq<Byte>, pc: nat)
    requires pc < |code| && Registers(code[pc]) > 0 && pc + 1 + Registers(code[pc]) <= |code|
    ensures Matches(ns, code, pc, AskedAt(code, pc).value)
  {
    hide Decode, Roles, InterpFields, NoResult, RawResult, SourcesFrom, ImmsFrom, ForSystem;
    var op := code[pc];
    var n := Registers(op);
    RegisterTable(op);
    BytesDecode(code, pc, n);
    var i, roles := Decode(code, pc).value, Roles(op).value;
    RegistersOnly(ns, i, roles, 0);
    if NoResult(op) {
      RegsFrom(i, roles, 0, code, pc + 1);
    } else {
      RegsFrom(i, roles[1..], 1, code, pc + 1);
    }
  }

  /** Where the engine finds the operands of the others. */
  lemma MixedOperands(ns: Names, i: Insn)
    ensures i.op == 7 ==> Sources(i) == [Reg(i, 1)] && Imms(ns, i) == [Reg(i, 2)]
    ensures i.op == 20 ==> Sources(i) == [Reg(i, 2)] && Imms(ns, i) == [Reg(i, 1)]
    ensures i.op == 25 ==> Sources(i) == [] && Imms(ns, i) == [Reg(i, 1)]
    ensures i.op == 26 ==> Sources(i) == [Reg(i, 0), Reg(i, 2), Reg(i, 3)] && Imms(ns, i) == [Reg(i, 1)]
  {
    hide SourcesFrom, ImmsFrom;
    AfterDestination(ns, i, [RReg, RReg, RByte], [RReg, RByte]);
    Operands2(ns, i, RReg, RByte, 1);
    AfterDestination(ns, i, [RReg, RSpawnee, RReg], [RSpawnee, RReg]);
    Operands2(ns, i, RSpawnee, RReg, 1);
    AfterDestination(ns, i, [RReg, RByte], [RByte]);
    Operands1(ns, i, RByte, 1);
    AfterDestination(ns, i, [RReg, RByte, RReg, RReg], [RByte, RReg, RReg]);
    Operands3(ns, i, RByte, RReg, RReg, 1);
  }

  lemma ListOperands(ns: Names, i: Insn)
    requires i.op in {6, 34, 40}
    ensures Sources(i) == (if i.op == 34 then [] else Listed(i, 1)) && Imms(ns, i) == []
  {
    hide SourcesFrom, ImmsFrom;
    var role := Roles(i.op).value[1];
    AfterDestination(ns, i, [RReg, role], [role]);
    Operands1(ns, i, role, 1);
  }

  lemma MixedAsk(ns: Names, code: seq<Byte>, pc: nat)
    requires pc < |code| && code[pc] in {7, 25, 26} && AskedAt(code, pc).Some?
    ensures Matches(ns, code, pc, AskedAt(code, pc).value)
  {
    hide Decode, Sources, Imms;
    BytesDecode(code, pc, if code[pc] == 7 then 3 else if code[pc] == 25 then 2 else 4);
    MixedOperands(ns, Decode(code, pc).value);
  }

  lemma SpawnAsk(ns: Names, code: seq<Byte>, pc: nat)
    requires pc + 7 <= |code| && code[pc] == 20
    ensures Matches(ns, code, pc, AskedAt(code, pc).value)
  {
    hide Decode, LE, Word32, Sources, Imms;
    Decode3(U8, U32, U8, code, pc);
    LE4(code, pc + 2);
    MixedOperands(ns, Decode(code, pc).value);
  }

  lemma TupleAsk(ns: Names, code: seq<Byte>, pc: nat)
    requires pc < |code| && code[pc] == 6 && AskedAt(code, pc).Some?
    ensures Matches(ns, code, pc, AskedAt(code, pc).value)
  {
    hide Decode, Sources, Imms, RegsAt;
    ListIsRegs(code, pc + 3, At(code, pc + 2));
    Decode2(U8, Regs, code, pc);
    ListOperands(ns, Decode(code, pc).value);
  }

  lemma MapAsk(ns: Names, code: seq<Byte>, pc: nat)
    requires pc < |code| && code[pc] == 40 && AskedAt(code, pc).Some?
    ensures Matches(ns, code, pc, AskedAt(code, pc).value)
  {
    hide Decode, Sources, Imms, RegsAt;
    ListIsRegs(code, pc + 3, 2 * At(code, pc + 2));
    Decode2(U8, Pairs, code, pc);
    ListOperands(ns, Decode(code, pc).value);
  }

  lemma ConstAsk(ns: Names, code: seq<Byte>, pc: nat)
    requires pc < |code| && code[pc] == 34 && AskedAt(code, pc).Some?
    ensures Matches(ns, code, pc, AskedAt(code, pc).value)
  {
    hide Decode, LE, Word32, Sources, Imms;
    LE4(code, pc + 2);
    Decode2(U8, Blob, code, pc);
    ListOperands(ns, Decode(code, pc).value);
  }

  /** Every such instruction, in every code, asks what its bytes say. */
  lemma AsksMatch(ns: Names, code: seq<Byte>, pc: nat)
    requires AskedAt(code, pc).Some?
    ensures Matches(ns, code, pc, AskedAt(code, pc).value)
  {
    hide Matches;
    if Registers(code[pc]) > 0 {
      RegistersAsk(ns, code, pc);
    } else if code[pc] in {7, 25, 26} {
      MixedAsk(ns, code, pc);
    } else if code[pc] == 20 {
      SpawnAsk(ns, code, pc);
    } else if code[pc] == 34 {
      ConstAsk(ns, code, pc);
    } else if code[pc] == 6 {
      TupleAsk(ns, code, pc);
    } else {
      MapAsk(ns, code, pc);
    }
  }

  /** The registers asked for are in the frame. */
  ghost predicate Framed(regs: seq<Term>, rs: seq<nat>) { forall k :: 0 <= k < |rs| ==> rs[k] < |regs| }

  /** The reply to `a` put where it belongs, and on. */
  ghost function Answered(fuel: nat, e: Env, f: Function, a: Asking, regs: seq<Term>, log: seq<Req>, r: Reply): Outcome
  {
    match r
    case Fault(trap) => Trapped(trap, log)
    case Value(w) =>
      if a.dest.None? then Exec(fuel, e, f, a.next, regs, log)
      else Sets(fuel, e, f, a.next, regs, log, a.dest.value, if a.bare then IntTerm(w) else w)
  }

  /** What the engine makes of the reply. */
  lemma ServedRuns(fuel: nat, e: Env, f: Function, pc: nat, regs: seq<Term>, log: seq<Req>, a: Asking)
    requires Matches(e.names, f.code, pc, a)
    ensures !Framed(regs, a.from) ==> Exec(fuel, e, f, pc, regs, log) == Broken(BadFrame, log)
    ensures Framed(regs, a.from) ==>
      var s := Serve(e, Req(f.code[pc], a.imms, a.blob, Values(regs, a.from)), log);
      Exec(fuel, e, f, pc, regs, log) == Answered(fuel, e, f, a, regs, s.log, s.reply)
  {
    hide Decode, Sources, Imms, BlobOf, Fetch, NoResult, RawResult, IntTerm, Serve, IsIntOp, IsControl;
    if Framed(regs, a.from) { FetchIsValues(regs, a.from); }
  }

  /** Every request but SPAWN: one log entry, with the named registers' values in order, and the
      system's reply to the log so far. */
  lemma AskRuns(fuel: nat, e: Env, f: Function, pc: nat, regs: seq<Term>, log: seq<Req>)
    requires AskedAt(f.code, pc).Some? && f.code[pc] != 20
    ensures var a := AskedAt(f.code, pc).value;
      if !Framed(regs, a.from) then Exec(fuel, e, f, pc, regs, log) == Broken(BadFrame, log)
      else
        var log' := log + [Req(f.code[pc], a.imms, a.blob, Values(regs, a.from))];
        Exec(fuel, e, f, pc, regs, log) == Answered(fuel, e, f, a, regs, log', e.sys(log'))
  {
    hide Matches, Exec, Answered, AskedAt, Values;
    AsksMatch(e.names, f.code, pc);
    ServedRuns(fuel, e, f, pc, regs, log, AskedAt(f.code, pc).value);
  }

  /** SPAWN: the asking is logged, the instance looked up and logged as started there or
      astray, and the system replies to that; where there is no such function, a trap. */
  lemma SpawnRuns(fuel: nat, e: Env, f: Function, pc: nat, regs: seq<Term>, log: seq<Req>)
    requires pc + 7 <= |f.code| && f.code[pc] == 20 && f.code[pc + 6] < |regs|
    ensures var k := Word32(f.code, pc + 2);
      var log1 := log + [Req(20, [k], [], [regs[f.code[pc + 6]]])];
      var h := e.home(k, log1);
      var log2 := log1 + [Req(if h.here then 257 else 258, if h.In? then [h.name, h.version] else [], [], [])];
      Exec(fuel, e, f, pc, regs, log)
        == if h.Nowhere? then Trapped(h.trap, log2)
           else Answered(fuel, e, f, AskedAt(f.code, pc).value, regs, log2, e.sys(log2))
  {
    hide Matches, Exec, Word32;
    AsksMatch(e.names, f.code, pc);
    var from := [f.code[pc + 6] as nat];
    assert Values(regs, from) == [regs[f.code[pc + 6]]] + Values(regs, from[1..]);
    assert Values(regs, from) == [regs[f.code[pc + 6]]];
    ServedRuns(fuel, e, f, pc, regs, log, AskedAt(f.code, pc).value);
  }
}
