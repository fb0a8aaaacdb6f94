/** Jumps, calls, returns and tail calls, read off their bytes. */
module ByteControl {
  import opened Basics
  import opened Bytecode
  import opened Verifier
  import opened Interp
  import opened Bits
  import opened ByteMeaning

  /** The four bytes from `at` are the two's complement of `d`, lowest first. */
  ghost predicate Offset(code: seq<Byte>, at: nat, d: int)
  {
    && at + 4 <= |code| && -0x8000_0000 <= d < 0x8000_0000
    && (d - Word32(code, at)) % 0x1_0000_0000 == 0
  }

  lemma OffsetIs(code: seq<Byte>, at: nat, d: int)
    requires Offset(code, at, d)
    ensures Signed32(LE(code, at, 4)) == d
  {
    LE4(code, at);
  }

  /** A JMP with offset `d` leads that far past its five bytes, a JMP_IF past its six. */
  lemma TargetIs(code: seq<Byte>, b: nat, d: int)
    ensures b < |code| && code[b] == 16 && Offset(code, b + 1, d) ==>
      Decode(code, b).Some? && Decode(code, b).value.next == b + 5 && Target(Decode(code, b).value) == b + 5 + d
    ensures b < |code| && code[b] == 17 && Offset(code, b + 2, d) ==>
      Decode(code, b).Some? && Decode(code, b).value.next == b + 6 && Target(Decode(code, b).value) == b + 6 + d
        && Reg(Decode(code, b).value, 0) == code[b + 1]
  {
    hide LE, Signed32, ReadFields, Word32;
    if b < |code| && code[b] == 16 && Offset(code, b + 1, d) {
      One(U32, code, b + 1);
      OffsetIs(code, b + 1, d);
    }
    if b < |code| && code[b] == 17 && Offset(code, b + 2, d) {
      Decode2(U8, U32, code, b);
      OffsetIs(code, b + 2, d);
    }
  }

  /** Goes on at `t`, at the price of one fuel, unless `t` is outside the code. */
  ghost function Lands(fuel: nat, e: Env, f: Function, t: int, regs: seq<Term>, log: seq<Req>): Outcome
  {
    if t < 0 || t > |f.code| then Broken(BadJump, log)
    else if fuel == 0 then Spent(log)
    else Exec(fuel - 1, e, f, t, regs, log)
  }

  lemma JumpRuns(fuel: nat, e: Env, f: Function, pc: nat, regs: seq<Term>, log: seq<Req>, d: int)
    requires pc < |f.code| && f.code[pc] == 16 && Offset(f.code, pc + 1, d)
    ensures Exec(fuel, e, f, pc, regs, log) == Lands(fuel, e, f, pc + 5 + d, regs, log)
  {
    hide Decode, Target, Offset;
    TargetIs(f.code, pc, d);
    var i := Decode(f.code, pc).value;
    assert Exec(fuel, e, f, pc, regs, log) == Jump(fuel, e, f, i, regs, log);
  }

  /** JMP_IF jumps on every integer but zero. */
  lemma BranchRuns(fuel: nat, e: Env, f: Function, pc: nat, regs: seq<Term>, log: seq<Req>, d: int, x: int)
    requires pc + 1 < |f.code| && f.code[pc] == 17 && Offset(f.code, pc + 2, d)
    requires f.code[pc + 1] < |regs| && Holds(regs[f.code[pc + 1]], x)
    ensures Exec(fuel, e, f, pc, regs, log)
      == if x == 0 then Exec(fuel, e, f, pc + 6, regs, log) else Lands(fuel, e, f, pc + 6 + d, regs, log)
  {
    hide Decode, Target, Offset, Holds, IntOf, IsInt;
    TargetIs(f.code, pc, d);
    HeldInt(regs[f.code[pc + 1]], x);
    var i := Decode(f.code, pc).value;
    assert x != 0 ==> Exec(fuel, e, f, pc, regs, log) == Jump(fuel, e, f, i, regs, log);
  }

  /** RET gives its register's value; EXIT_ATOM traps with its register's atom. */
  lemma EndRuns(fuel: nat, e: Env, f: Function, pc: nat, regs: seq<Term>, log: seq<Req>)
    requires pc + 2 <= |f.code| && f.code[pc + 1] < |regs|
    ensures f.code[pc] == 19 ==> Exec(fuel, e, f, pc, regs, log) == Done(regs[f.code[pc + 1]], log, fuel)
    ensures var w := regs[f.code[pc + 1]];
      f.code[pc] == 24 ==>
        Exec(fuel, e, f, pc, regs, log)
          == Trapped(if w % 8 == 2 then Exit(w / 8 % 0x1_0000_0000) else Badarg, log)
  {
    hide Decode;
    if f.code[pc] in {19, 24} { BytesDecode(f.code, pc, 1); }
  }

  /** A call's operands from its argument count on. */
  ghost function ArgsAt(code: seq<Byte>, at: nat): (r: Option<seq<nat>>)
    ensures r.Some? ==> at < |code|
  {
    if at < |code| && at + 1 + code[at] as int <= |code| then Some(RegsAt(code, at + 1, code[at])) else None
  }

  lemma ListAt(code: seq<Byte>, at: nat)
    requires ArgsAt(code, at).Some?
    ensures ReadField(Regs, code, at) == Got(List(code[at + 1..at + 1 + code[at] as int]), at + 1 + code[at] as int)
    ensures var l: seq<nat> := code[at + 1..at + 1 + code[at] as int]; l == ArgsAt(code, at).value
  {
    ListIsRegs(code, at + 1, code[at]);
  }

  /** The number a module's atom has in the whole system. */
  ghost function AtomIn(ns: Names, local: nat): nat
  {
    if local >= |ns.atoms| then ns.unknown else ns.atoms[local]
  }

  /** Where the engine finds the operands of the four calls. */
  lemma CallOperands(ns: Names, i: Insn)
    ensures i.op == CALL ==> Sources(i) == Listed(i, 2)
    ensures i.op == TAIL_CALL ==> Sources(i) == Listed(i, 1) && Imms(ns, i) == [Reg(i, 0)]
  {
    hide SourcesFrom, ImmsFrom;
    assert [RReg, RCallee, RArgs][1..] == [RCallee, RArgs] && [RCallee, RArgs][1..] == [RArgs];
    Operands2(ns, i, RCallee, RArgs, 1);
    Operands2(ns, i, RCallee, RArgs, 0);
    Operands1(ns, i, RArgs, 1);
  }

  lemma ExternOperands(ns: Names, i: Insn)
    ensures i.op == CALL_EXT ==> Sources(i) == Listed(i, 3)
    ensures i.op == TAIL_CALL_EXT ==>
      Sources(i) == Listed(i, 2) && Imms(ns, i) == [AtomIn(ns, Reg(i, 0)), AtomIn(ns, Reg(i, 1))]
  {
    hide SourcesFrom, ImmsFrom;
    assert [RReg, RAtom, RAtom, RRegs][1..] == [RAtom, RAtom, RRegs] && [RAtom, RAtom, RRegs][1..] == [RAtom, RRegs];
    Operands3(ns, i, RAtom, RAtom, RRegs, 1);
    Operands3(ns, i, RAtom, RAtom, RRegs, 0);
    Operands2(ns, i, RAtom, RRegs, 1);
  }

  lemma CallDecodes(code: seq<Byte>, pc: nat)
    requires pc < |code| && code[pc] == 18 && ArgsAt(code, pc + 6).Some?
    ensures var d := Decode(code, pc);
      && d.Some? && d.value.op == CALL && d.value.next == pc + 7 + code[pc + 6] as int
      && Reg(d.value, 0) == code[pc + 1] && Reg(d.value, 1) == Word32(code, pc + 2)
      && Sources(d.value) == ArgsAt(code, pc + 6).value
  {
    hide Decode, LE, Word32, ReadList, Sources, ArgsAt;
    ListAt(code, pc + 6);
    Decode3(U8, U32, Regs, code, pc);
    LE4(code, pc + 2);
    CallOperands(Names([], 0), Decode(code, pc).value);
  }

  /** The registers of a frame just entered: the arguments, and nil above them. */
  ghost predicate Entered(f: Function, args: seq<Term>, regs: seq<Term>)
  {
    |regs| == f.nregs && args <= regs && forall k :: |args| <= k < |regs| ==> regs[k] == 5
  }

  lemma FrameEntered(f: Function, args: seq<Term>)
    requires |args| <= f.nregs
    ensures Entered(f, args, Frame(f, args))
  {
  }

  /** What a call does with the callee's outcome. A callee that ended in a tail call ends its
      caller too. */
  ghost function Returns(e: Env, f: Function, next: nat, regs: seq<Term>, rd: nat, o: Outcome): Outcome
  {
    match o
    case Done(w, log, left) => if w == 7 then o else Sets(left, e, f, next, regs, log, rd, w)
    case _ => o
  }

  /** CALL: a frame of function `k` with those registers' values, for one fuel. */
  lemma CallRuns(fuel: nat, e: Env, f: Function, pc: nat, regs: seq<Term>, log: seq<Req>, frame: seq<Term>)
    requires pc < |f.code| && f.code[pc] == 18 && ArgsAt(f.code, pc + 6).Some? && fuel > 0
    requires var rs, k := ArgsAt(f.code, pc + 6).value, Word32(f.code, pc + 2);
      && (forall j :: 0 <= j < |rs| ==> rs[j] < |regs|) && k < |e.m.functions|
      && |rs| == e.m.functions[k].arity <= e.m.functions[k].nregs && Entered(e.m.functions[k], Values(regs, rs), frame)
    ensures var o := Exec(fuel - 1, e, e.m.functions[Word32(f.code, pc + 2)], 0, frame, log);
      Exec(fuel, e, f, pc, regs, log)
        == Returns(e, f, pc + 7 + f.code[pc + 6] as int, regs, f.code[pc + 1], o)
  {
    hide Decode, Sources, Word32, Fetch, Values, Frame, ArgsAt, Entered;
    var rs, k := ArgsAt(f.code, pc + 6).value, Word32(f.code, pc + 2);
    CallDecodes(f.code, pc);
    FetchIsValues(regs, rs);
    var i, g := Decode(f.code, pc).value, e.m.functions[k];
    FrameIs(g, Values(regs, rs), frame);
    assert RunFunction(fuel - 1, e, k, Values(regs, rs), log) == Exec(fuel - 1, e, g, 0, frame, log);
    assert Exec(fuel, e, f, pc, regs, log) == Control(fuel, e, f, pc, i, regs, log);
  }

  lemma FrameIs(f: Function, args: seq<Term>, regs: seq<Term>)
    requires |args| <= f.nregs && Entered(f, args, regs)
    ensures Frame(f, args) == regs
  {
  }

  lemma CallExtDecodes(code: seq<Byte>, pc: nat)
    requires pc < |code| && code[pc] == 27 && ArgsAt(code, pc + 10).Some?
    ensures var d := Decode(code, pc);
      && d.Some? && d.value.op == CALL_EXT && d.value.next == pc + 11 + code[pc + 10] as int
      && Reg(d.value, 0) == code[pc + 1] && Reg(d.value, 1) == Word32(code, pc + 2)
      && Reg(d.value, 2) == Word32(code, pc + 6) && Sources(d.value) == ArgsAt(code, pc + 10).value
  {
    hide Decode, LE, Word32, ReadList, Sources, ArgsAt;
    ListAt(code, pc + 10);
    Decode4(U8, U32, U32, Regs, code, pc);
    LE4(code, pc + 2);
    LE4(code, pc + 6);
    ExternOperands(Names([], 0), Decode(code, pc).value);
  }

  /** What an external call does with what served it, which may keep no more fuel than it got. */
  ghost function ReturnsOut(fuel: nat, e: Env, f: Function, next: nat, regs: seq<Term>, rd: nat, o: Outcome): Outcome
  {
    match o
    case Done(w, log, left) => Sets(if left < fuel then left else fuel, e, f, next, regs, log, rd, w)
    case Broken(_, log) => Broken(Elsewhere, log)
    case _ => o
  }

  /** CALL_EXT: logged with its two atoms and its arguments, then served, for one fuel. */
  lemma CallExtRuns(fuel: nat, e: Env, f: Function, pc: nat, regs: seq<Term>, log: seq<Req>)
    requires pc < |f.code| && f.code[pc] == 27 && ArgsAt(f.code, pc + 10).Some? && fuel > 0
    requires var rs := ArgsAt(f.code, pc + 10).value; forall j :: 0 <= j < |rs| ==> rs[j] < |regs|
    ensures var args, next := Values(regs, ArgsAt(f.code, pc + 10).value), pc + 11 + f.code[pc + 10] as int;
      var m, k := AtomIn(e.names, Word32(f.code, pc + 2)), AtomIn(e.names, Word32(f.code, pc + 6));
      var o := e.ext(fuel - 1, Ext(Site(f.code, next), m, k, args), log + [Req(27, [m, k], [], args)]);
      Exec(fuel, e, f, pc, regs, log) == ReturnsOut(fuel - 1, e, f, next, regs, f.code[pc + 1], o)
  {
    hide Decode, Sources, Word32, Fetch, Values, ArgsAt;
    CallExtDecodes(f.code, pc);
    FetchIsValues(regs, ArgsAt(f.code, pc + 10).value);
    var i := Decode(f.code, pc).value;
    assert Exec(fuel, e, f, pc, regs, log) == Control(fuel, e, f, pc, i, regs, log);
  }

  lemma TailDecodes(ns: Names, code: seq<Byte>, pc: nat)
    requires pc < |code| && code[pc] == 49 && ArgsAt(code, pc + 5).Some?
    ensures var d := Decode(code, pc);
      && d.Some? && d.value.op == TAIL_CALL && Imms(ns, d.value) == [Word32(code, pc + 1)]
      && Sources(d.value) == ArgsAt(code, pc + 5).value
  {
    hide Decode, LE, Word32, ReadList, Sources, Imms, ArgsAt;
    ListAt(code, pc + 5);
    Decode2(U32, Regs, code, pc);
    LE4(code, pc + 1);
    CallOperands(ns, Decode(code, pc).value);
  }

  lemma TailExtDecodes(ns: Names, code: seq<Byte>, pc: nat)
    requires pc < |code| && code[pc] == 47 && ArgsAt(code, pc + 9).Some?
    ensures var d := Decode(code, pc);
      && d.Some? && d.value.op == TAIL_CALL_EXT
      && Reg(d.value, 0) == Word32(code, pc + 1) && Reg(d.value, 1) == Word32(code, pc + 5)
      && Imms(ns, d.value) == [AtomIn(ns, Word32(code, pc + 1)), AtomIn(ns, Word32(code, pc + 5))]
      && Sources(d.value) == ArgsAt(code, pc + 9).value
  {
    hide Decode, LE, Word32, ReadList, Sources, Imms, ArgsAt;
    ListAt(code, pc + 9);
    Decode3(U32, U32, Regs, code, pc);
    LE4(code, pc + 1);
    LE4(code, pc + 5);
    ExternOperands(ns, Decode(code, pc).value);
  }

  /** TAIL_CALL stashes a function index and the registers' values in order, and ends the run. */
  lemma TailRuns(fuel: nat, e: Env, f: Function, pc: nat, regs: seq<Term>, log: seq<Req>)
    requires pc < |f.code| && f.code[pc] == 49 && ArgsAt(f.code, pc + 5).Some?
    requires var rs := ArgsAt(f.code, pc + 5).value; forall j :: 0 <= j < |rs| ==> rs[j] < |regs|
    ensures var r := Req(49, [Word32(f.code, pc + 1)], [], Values(regs, ArgsAt(f.code, pc + 5).value));
      Exec(fuel, e, f, pc, regs, log) == Done(7, log + [r], fuel)
  {
    hide Decode, Sources, Imms, Word32, Fetch, Values, ArgsAt;
    TailDecodes(e.names, f.code, pc);
    FetchIsValues(regs, ArgsAt(f.code, pc + 5).value);
    var i := Decode(f.code, pc).value;
    assert Exec(fuel, e, f, pc, regs, log) == Control(fuel, e, f, pc, i, regs, log);
  }

  /** TAIL_CALL_EXT stashes the two atoms of an external call instead. */
  lemma TailExtRuns(fuel: nat, e: Env, f: Function, pc: nat, regs: seq<Term>, log: seq<Req>)
    requires pc < |f.code| && f.code[pc] == 47 && ArgsAt(f.code, pc + 9).Some?
    requires var rs := ArgsAt(f.code, pc + 9).value; forall j :: 0 <= j < |rs| ==> rs[j] < |regs|
    ensures var m, k := AtomIn(e.names, Word32(f.code, pc + 1)), AtomIn(e.names, Word32(f.code, pc + 5));
      var r := Req(47, [m, k], [], Values(regs, ArgsAt(f.code, pc + 9).value));
      Exec(fuel, e, f, pc, regs, log) == Done(7, log + [r], fuel)
  {
    hide Decode, Sources, Imms, Word32, Fetch, Values, ArgsAt;
    TailExtDecodes(e.names, f.code, pc);
    FetchIsValues(regs, ArgsAt(f.code, pc + 9).value);
    var i := Decode(f.code, pc).value;
    assert Exec(fuel, e, f, pc, regs, log) == Control(fuel, e, f, pc, i, regs, log);
  }

  /** What the verifier asks of a jump at a boundary `b`, in terms of the bytes: that its offset
      leads to an instruction boundary. */
  lemma JumpsChecked(m: Module, f: Function, b: nat, d: int)
    requires Accepted(m, f) && b in Starts(f.code, 0)
    ensures b < |f.code| && f.code[b] == 16 && Offset(f.code, b + 1, d) ==>
      0 <= b + 5 + d && (b + 5 + d) as nat in Starts(f.code, 0)
    ensures b < |f.code| && f.code[b] == 17 && Offset(f.code, b + 2, d) ==>
      && 0 <= b + 6 + d && (b + 6 + d) as nat in Starts(f.code, 0)
      && b + 6 in Starts(f.code, 0)
  {
    hide Decode, Target, Offset, Good, Starts;
    TargetIs(f.code, b, d);
    assert Good(m, f, b) && Flows(f, b);
  }

  /** nop; jmp -6: an endless loop. */
  const LOOP: seq<Byte> := [0, 16, 250, 255, 255, 255]

  const LOOPER: Module := Module([[65]], [Function(0, 0, 0, LOOP)])

  lemma LoopJumps()
    ensures Offset(LOOP, 2, -6) && Decode(LOOP, 0) == Some(Insn(0, [], 1))
    ensures Decode(LOOP, 1).Some? && Decode(LOOP, 1).value.op == 16 && Decode(LOOP, 1).value.next == 6
    ensures Target(Decode(LOOP, 1).value) == 0 && Decode(LOOP, 1).value.args == [Num(Word32(LOOP, 2))]
  {
    hide Target;
    assert Word32(LOOP, 2) == 0xFFFF_FFFA;
    TargetIs(LOOP, 1, -6);
    LE4(LOOP, 2);
    One(U32, LOOP, 2);
  }

  /** The verifier accepts jumps backwards. */
  lemma LoopAccepted()
    ensures Accepted(LOOPER, LOOPER.functions[0])
  {
    hide Decode, Target;
    LoopJumps();
    assert Starts(LOOP, 6) == {};
    assert Starts(LOOP, 1) == {1} + Starts(LOOP, 6);
    assert Starts(LOOP, 0) == {0} + Starts(LOOP, 1);
    assert Roles(0).value == [] && Roles(16).value == [ROffset];
    assert Good(LOOPER, LOOPER.functions[0], 0);
    assert [ROffset][1..] == [] && Decode(LOOP, 1).value.args[1..] == [];
    assert Good(LOOPER, LOOPER.functions[0], 1);
  }

  /** And the interpreter goes round for as long as there is fuel. */
  lemma {:induction false} LoopRuns(fuel: nat, e: Env, regs: seq<Term>, log: seq<Req>)
    ensures Exec(fuel, e, LOOPER.functions[0], 0, regs, log) == Spent(log)
    decreases fuel
  {
    hide Exec, Offset;
    LoopJumps();
    var f := LOOPER.functions[0];
    NopRuns(fuel, e, f, 0, regs, log);
    JumpRuns(fuel, e, f, 1, regs, log, -6);
    if fuel > 0 { LoopRuns(fuel - 1, e, regs, log); }
  }
}
