/** The compiler's block IR: what each bytecode instruction is translated to, and what the
    emitted operations compute. An external call keeps its site: whether it goes through the
    helper or straight to a bound function is up to what serves the calls. */
module Lowering {
  import opened Basics
  import opened Bytecode
  import opened Interp

  datatype Helper =
    | HSelfPid | HSend | HRecv | HSpawn | HPrint | HEq | HMakeTuple | HGetElem | HCons | HHead | HTail
    | HPortOpen | HPortSubmit | HBinConst | HBinFromList | HBinToList | HBinSize | HBufToBin | HBinToBuf
    | HMapNew | HMapGet | HMapPut | HIsBinary | HBinCat | HListCat | HBinPart | HTailCallExt | HTailCallLocal
    | HPortSubmit2 | HBufWrite | HSleepMs | HBufNew | HBufRead | HTicks | HBinAt

  /** The system operation a runtime helper carries out. */
  function Carries(h: Helper): nat
  {
    match h
    case HSelfPid => SELF_PID
    case HSend => SEND
    case HRecv => RECV
    case HSpawn => SPAWN
    case HPrint => PRINT
    case HEq => CMP_EQ
    case HMakeTuple => MAKE_TUPLE
    case HGetElem => GET_ELEM
    case HCons => CONS
    case HHead => HEAD
    case HTail => TAIL
    case HPortOpen => PORT_OPEN
    case HPortSubmit => PORT_SUBMIT
    case HBinConst => BIN_NEW
    case HBinFromList => BIN_FROM_LIST
    case HBinToList => BIN_TO_LIST
    case HBinSize => BIN_SIZE
    case HBufToBin => BUF_TO_BIN
    case HBinToBuf => BIN_TO_BUF
    case HMapNew => MAP_NEW
    case HMapGet => MAP_GET
    case HMapPut => MAP_PUT
    case HIsBinary => IS_BINARY
    case HBinCat => BIN_CAT
    case HListCat => LIST_CAT
    case HBinPart => BIN_PART
    case HTailCallExt => TAIL_CALL_EXT
    case HTailCallLocal => TAIL_CALL
    case HPortSubmit2 => PORT_SUBMIT2
    case HBufWrite => BUF_WRITE
    case HSleepMs => SLEEP_MS
    case HBufNew => BUF_NEW
    case HBufRead => BUF_READ
    case HTicks => TICKS
    case HBinAt => BIN_AT
  }

  /** Straight-line operations, then the ways a block ends. `Fall` is the jump emitted where
      the next instruction leads a block of its own. */
  datatype Ir =
    | Const(rd: nat, w: Term)
    | Copy(rd: nat, rs: nat)
    | Compute(op: nat, rd: nat, ra: nat, rb: nat)
    | Complement(rd: nat, rs: nat)
    | CallHelper(h: Helper, dest: Option<nat>, retag: bool, imms: seq<nat>, blob: seq<Byte>, regs: seq<nat>)
    | CallSibling(rd: nat, callee: nat, regs: seq<nat>)
    | CallExtern(rd: nat, site: Site, module_: nat, name: nat, regs: seq<nat>)
    | Fall(target: nat)
    | Goto(target: nat)
    | Branch(rc: nat, target: nat, next: nat)
    | Return(rs: nat)
    | ExitWith(rs: nat)
    | TailOut(h: Helper, imms: seq<nat>, regs: seq<nat>)

  function Put(h: Helper, i: Insn, imms: seq<nat>, regs: seq<nat>): Ir
  {
    CallHelper(h, Some(Reg(i, 0)), false, imms, [], regs)
  }

  function Do(h: Helper, imms: seq<nat>, regs: seq<nat>): Ir { CallHelper(h, None, false, imms, [], regs) }

  function Ask(h: Helper, i: Insn, regs: seq<nat>): Ir { CallHelper(h, Some(Reg(i, 0)), true, [], [], regs) }

  /** Straight-line instructions other than NOP, which emits nothing. */
  function Emit(ns: Names, i: Insn): Ir
  {
    var r1, r2, r3 := Reg(i, 1), Reg(i, 2), Reg(i, 3);
    if i.op == LOAD_INT then Const(Reg(i, 0), IntTerm(Signed(Word(r1))))
    else if i.op == LOAD_ATOM then Const(Reg(i, 0), AtomTerm(Global(ns, r1)))
    else if i.op == LOAD_NIL then Const(Reg(i, 0), NIL)
    else if i.op == MOVE then Copy(Reg(i, 0), r1)
    else if i.op in {ADD, SUB, MUL, CMP_LT, BAND, BOR, BXOR, BSL, BSR} then Compute(i.op, Reg(i, 0), r1, r2)
    else if i.op == BNOT then Complement(Reg(i, 0), r1)
    else if i.op == SELF_PID then Put(HSelfPid, i, [], [])
    else if i.op == TICKS then Put(HTicks, i, [], [])
    else if i.op == RECV then Put(HRecv, i, [], [])
    else if i.op == MAKE_TUPLE then Put(HMakeTuple, i, [], Listed(i, 1))
    else if i.op == MAP_NEW then Put(HMapNew, i, [], Listed(i, 1))
    else if i.op == GET_ELEM then Put(HGetElem, i, [r2], [r1])
    else if i.op == CONS then Put(HCons, i, [], [r1, r2])
    else if i.op == HEAD then Put(HHead, i, [], [r1])
    else if i.op == TAIL then Put(HTail, i, [], [r1])
    else if i.op == CMP_EQ then Ask(HEq, i, [r1, r2])
    else if i.op == IS_BINARY then Ask(HIsBinary, i, [r1])
    else if i.op == SPAWN then Put(HSpawn, i, [r1], [r2])
    else if i.op == SEND then Do(HSend, [], [Reg(i, 0), r1])
    else if i.op == PRINT then Do(HPrint, [], [Reg(i, 0)])
    else if i.op == SLEEP_MS then Do(HSleepMs, [], [Reg(i, 0)])
    else if i.op == PORT_OPEN then Put(HPortOpen, i, [r1], [])
    else if i.op == PORT_SUBMIT then Do(HPortSubmit, [r1], [Reg(i, 0), r2, r3])
    else if i.op == PORT_SUBMIT2 then Do(HPortSubmit2, [], [Reg(i, 0), r1, r2, r3, Reg(i, 4)])
    else if i.op == BUF_WRITE then Put(HBufWrite, i, [], [r1, r2, r3])
    else if i.op == BUF_NEW then Put(HBufNew, i, [], [r1])
    else if i.op == BUF_READ then Put(HBufRead, i, [], [r1, r2, r3])
    else if i.op == BIN_NEW then CallHelper(HBinConst, Some(Reg(i, 0)), false, [], Listed(i, 1), [])
    else if i.op == MAP_GET then Put(HMapGet, i, [], [r1, r2])
    else if i.op == MAP_PUT then Put(HMapPut, i, [], [r1, r2, r3])
    else if i.op == BIN_FROM_LIST then Put(HBinFromList, i, [], [r1])
    else if i.op == BIN_TO_LIST then Put(HBinToList, i, [], [r1])
    else if i.op == BIN_SIZE then Put(HBinSize, i, [], [r1])
    else if i.op == BUF_TO_BIN then Put(HBufToBin, i, [], [r1])
    else if i.op == BIN_TO_BUF then Put(HBinToBuf, i, [], [r1])
    else if i.op == BIN_AT then Put(HBinAt, i, [], [r1, r2])
    else if i.op == BIN_PART then Put(HBinPart, i, [], [r1, r2, r3])
    else if i.op == BIN_CAT then Put(HBinCat, i, [], [r1, r2])
    else Put(HListCat, i, [], [r1, r2])
  }

  /** The emitted guard and untagging of an operand; failing it goes to the trap block. */
  function ExpectInt(w: Term): Option<int> { if w % 8 == 1 then Some(Signed(w) / 8) else None }

  function Retag(raw: int): Term { Word(8 * raw + 1) }

  /** The 64-bit machine operation between untagging and retagging: it wraps, and shifts are
      only range-checked. */
  function Machine(op: nat, a: int, b: int): Option<int>
  {
    if op == ADD then Some(Signed(Word(a + b)))
    else if op == SUB then Some(Signed(Word(a - b)))
    else if op == MUL then Some(Signed(Word(a * b)))
    else if op == CMP_LT then Some(if a < b then 1 else 0)
    else if op in {BAND, BOR, BXOR} then Some(BitOp(op, a, b))
    else if Word(b) > 60 then None
    else if op == BSL then Some(ShiftLeft(a, Word(b)))
    else Some(ShiftRight(a, Word(b)))
  }

  function MachineResult(op: nat, wa: Term, wb: Term): Computed
  {
    var a, b := ExpectInt(wa), ExpectInt(wb);
    if a.None? || b.None? then BadOperand
    else
      var raw := Machine(op, a.value, b.value);
      if raw.None? then BadOperand else Result(Retag(raw.value))
  }

  lemma SignedOfWord(v: int)
    ensures FitsI64(v) <==> Signed(Word(v)) == v
    ensures (Signed(Word(v)) - v) % TWO64 == 0
  {
  }

  /** Untagged operands lie in i61, so sums and differences cannot leave i64. */
  lemma SumsFit(wa: Term, wb: Term)
    ensures FitsI64(IntOf(wa) + IntOf(wb)) && FitsI64(IntOf(wa) - IntOf(wb))
    ensures IntOf(wb) < 0 ==> Word(IntOf(wb)) > 60
    ensures 0 <= IntOf(wb) ==> Word(IntOf(wb)) == IntOf(wb)
  {
  }

  /** Cutting a shift result back into i61 does not change the tagged word. */
  lemma CutKeepsTerm(v: int)
    ensures IntTerm(Signed(Word(8 * v)) / 8) == Retag(v)
  {
    var s := Signed(Word(8 * v));
    SignedOfWord(8 * v);
    var k := (8 * v - s) / TWO64;
    assert s == 8 * v - k * TWO64;
    assert s / 8 == v - k * (TWO64 / 8);
    assert 8 * (s / 8) + 1 == (8 * v + 1) - k * TWO64;
    WordOfShifted(8 * v + 1, k);
  }

  lemma WordOfShifted(x: int, k: int)
    ensures Word(x - k * TWO64) == Word(x)
  {
  }

  predicate ProductOverflows(op: nat, wa: Term, wb: Term)
  {
    op == MUL && IsInt(wa) && IsInt(wb) && !FitsI64(IntOf(wa) * IntOf(wb))
  }

  /** The machine computes the word or trap of the interpreter whose products wrap, for every
      integer instruction and every two operands; that is the checking interpreter's save
      exactly for products that overflow an i64. */
  lemma MachineAgrees(op: nat, wa: Term, wb: Term)
    requires IsIntOp(op)
    ensures MachineResult(op, wa, wb) == Arith(true, op, wa, wb) && !MachineResult(op, wa, wb).OutOfRange?
    ensures MachineResult(op, wa, wb) == Arith(false, op, wa, wb) <==> !ProductOverflows(op, wa, wb)
    ensures ProductOverflows(op, wa, wb) <==> IntResult(op, wa, wb) == OutOfRange
  {
    hide Word, Signed, BitOp, ShiftLeft, ShiftRight, FitsI64;
    SumsFit(wa, wb);
    var a, b := IntOf(wa), IntOf(wb);
    SignedOfWord(a + b);
    SignedOfWord(a - b);
    SignedOfWord(a * b);
    if 0 <= b <= 60 { CutKeepsTerm(if op == BSL then ShiftLeft(a, b) else ShiftRight(a, b)); }
  }

  /** 2^32 squared: the interpreter traps, compiled code gives 0. */
  lemma OverflowSplitsEngines()
    ensures var w := IntTerm(0x1_0000_0000);
      IntResult(MUL, w, w) == OutOfRange && MachineResult(MUL, w, w) == Result(IntTerm(0))
  {
    var w := IntTerm(0x1_0000_0000);
    assert IntOf(w) == 0x1_0000_0000 && IntOf(w) * IntOf(w) == TWO64;
  }

  /** One straight-line operation. */
  function StepIr(e: Env, ir: Ir, regs: seq<Term>, log: seq<Req>): Flow
    requires Straight(ir)
  {
    match ir
    case Const(rd, w) => SetReg(regs, rd, w, log)
    case Copy(rd, rs) => if rs < |regs| then SetReg(regs, rd, regs[rs], log) else Stop(Broken(BadFrame, log))
    case Compute(op, rd, ra, rb) =>
      if ra >= |regs| || rb >= |regs| then Stop(Broken(BadFrame, log))
      else
        (match MachineResult(op, regs[ra], regs[rb])
         case Result(w) => SetReg(regs, rd, w, log)
         case _ => Stop(Trapped(Badarg, log)))
    case Complement(rd, rs) =>
      if rs >= |regs| then Stop(Broken(BadFrame, log))
      else if ExpectInt(regs[rs]).None? then Stop(Trapped(Badarg, log))
      else SetReg(regs, rd, Retag(-ExpectInt(regs[rs]).value - 1), log)
    case CallHelper(h, dest, retag, imms, blob, rs) =>
      if !InFrame(regs, rs) then Stop(Broken(BadFrame, log))
      else
        var s := Serve(e, Req(Carries(h), imms, blob, Fetch(regs, rs)), log);
        match s.reply
        case Fault(trap) => Stop(Trapped(trap, s.log))
        case Value(w) =>
          if dest.None? then Next(regs, s.log) else SetReg(regs, dest.value, if retag then Retag(w) else w, s.log)
  }

  predicate Straight(ir: Ir) { ir.Const? || ir.Copy? || ir.Compute? || ir.Complement? || ir.CallHelper? }

  /** Operand lists of registers alone. */
  lemma {:induction false} RegistersOnly(ns: Names, i: Insn, roles: seq<Role>, k: nat)
    requires forall j :: 0 <= j < |roles| ==> roles[j].RReg?
    ensures |SourcesFrom(i, roles, k)| == |roles|
    ensures forall j :: 0 <= j < |roles| ==> SourcesFrom(i, roles, k)[j] == Reg(i, k + j)
    ensures ImmsFrom(ns, i, roles, k) == []
    decreases |roles|
  {
    if roles != [] { RegistersOnly(ns, i, roles[1..], k + 1); }
  }

  /** `ir` asks the system what the interpreter asks it for instruction `i`. */
  ghost predicate SameRequest(ns: Names, i: Insn, ir: Ir)
  {
    && ir.CallHelper?
    && Carries(ir.h) == i.op
    && ir.regs == Sources(i)
    && ir.imms == Imms(ns, i)
    && ir.blob == BlobOf(i)
    && ir.retag == RawResult(i.op)
    && ir.dest == if NoResult(i.op) then None else Some(Reg(i, 0))
  }

  predicate RegisterOp(op: nat)
  {
    op in {SELF_PID, RECV, TICKS, HEAD, TAIL, BIN_FROM_LIST, BIN_TO_LIST, BIN_SIZE, BUF_TO_BIN, BIN_TO_BUF, IS_BINARY,
      BUF_NEW, CONS, CMP_EQ, BIN_CAT, LIST_CAT, MAP_GET, BIN_AT, MAP_PUT, BIN_PART, BUF_WRITE, BUF_READ}
  }

  predicate RegisterEffect(op: nat) { op in {SEND, PRINT, SLEEP_MS, PORT_SUBMIT2} }

  predicate MixedOp(op: nat) { op in {GET_ELEM, SPAWN, PORT_OPEN, PORT_SUBMIT} }

  predicate ListOp(op: nat) { op in {MAKE_TUPLE, MAP_NEW, BIN_NEW} }

  /** Helpers that read registers alone get those the instruction names, in order. */
  lemma RegistersPassed(ns: Names, i: Insn)
    requires RegisterOp(i.op)
    ensures var ir, roles := Emit(ns, i), Roles(i.op);
      && ir.CallHelper? && Carries(ir.h) == i.op && ir.imms == [] && ir.blob == [] && ir.dest == Some(Reg(i, 0))
      && roles.Some? && |roles.value| == |ir.regs| + 1
      && (forall k :: 0 <= k < |roles.value| ==> roles.value[k].RReg?)
      && (forall k :: 0 <= k < |ir.regs| ==> ir.regs[k] == Reg(i, 1 + k))
      && ir.retag == RawResult(i.op) && !NoResult(i.op) && BlobOf(i) == []
  {
  }

  lemma RegisterOpsAgree(ns: Names, i: Insn)
    requires RegisterOp(i.op)
    ensures SameRequest(ns, i, Emit(ns, i))
  {
    hide SourcesFrom, ImmsFrom, Emit, Roles, RegisterOp, BlobOf, Carries;
    RegistersPassed(ns, i);
    var roles := Roles(i.op).value;
    RegistersOnly(ns, i, roles[1..], 1);
    RegistersOnly(ns, i, roles, 0);
    assert Emit(ns, i).regs == Sources(i);
  }

  lemma RegisterEffectsAgree(ns: Names, i: Insn)
    requires RegisterEffect(i.op)
    ensures SameRequest(ns, i, Emit(ns, i))
  {
    hide SourcesFrom, ImmsFrom;
    RegistersOnly(ns, i, Roles(i.op).value, 0);
    assert Emit(ns, i).regs == Sources(i);
  }

  /** A first operand that is a register adds no immediate. */
  lemma AfterDestination(ns: Names, i: Insn, roles: seq<Role>, rest: seq<Role>)
    requires roles == [RReg] + rest
    ensures SourcesFrom(i, roles, 0) == [Reg(i, 0)] + SourcesFrom(i, rest, 1)
    ensures ImmsFrom(ns, i, roles, 0) == ImmsFrom(ns, i, rest, 1)
    ensures roles[1..] == rest
  {
    assert roles[1..] == rest;
  }

  lemma MixedOpsAgree(ns: Names, i: Insn)
    requires MixedOp(i.op)
    ensures SameRequest(ns, i, Emit(ns, i))
  {
    hide SourcesFrom, ImmsFrom;
    var roles := Roles(i.op).value;
    AfterDestination(ns, i, roles, roles[1..]);
    if i.op == GET_ELEM {
      Operands2(ns, i, RReg, RByte, 1);
    } else if i.op == SPAWN {
      Operands2(ns, i, RSpawnee, RReg, 1);
    } else if i.op == PORT_SUBMIT {
      Operands3(ns, i, RByte, RReg, RReg, 1);
    } else {
      Operands1(ns, i, RByte, 1);
      assert roles[1..] == [RByte];
    }
    assert Emit(ns, i).regs == Sources(i);
  }

  lemma ListOpsAgree(ns: Names, i: Insn)
    requires ListOp(i.op)
    ensures SameRequest(ns, i, Emit(ns, i))
  {
    hide SourcesFrom, ImmsFrom;
    var roles := Roles(i.op).value;
    AfterDestination(ns, i, roles, roles[1..]);
    Operands1(ns, i, roles[1], 1);
    assert roles[1..] == [roles[1]];
    assert Emit(ns, i).regs == Sources(i);
    assert Emit(ns, i).imms == Imms(ns, i);
  }

  /** Every straight-line instruction: the emitted operation does what the interpreter does
      whose products wrap, registers, requests, replies and traps alike. */
  lemma EmitAgrees(e: Env, i: Insn, regs: seq<Term>, log: seq<Req>)
    requires InterpFields(i.op).Some? && !IsControl(i.op) && i.op != NOP && e.wraps
    ensures Straight(Emit(e.names, i)) && StepIr(e, Emit(e.names, i), regs, log) == Simple(e, i, regs, log)
  {
    hide Sources, Imms, Arith, MachineResult, Serve;
    if IsIntOp(i.op) {
      if Reg(i, 1) < |regs| && Reg(i, 2) < |regs| { MachineAgrees(i.op, regs[Reg(i, 1)], regs[Reg(i, 2)]); }
    } else if RegisterOp(i.op) {
      RegisterOpsAgree(e.names, i);
    } else if RegisterEffect(i.op) {
      RegisterEffectsAgree(e.names, i);
    } else if MixedOp(i.op) {
      MixedOpsAgree(e.names, i);
    } else if ListOp(i.op) {
      ListOpsAgree(e.names, i);
    }
  }
}
