/** Why the call-then-return reading needs its side condition: a verified module in which a
    CALL to a tail-calling sibling unwinds its caller. */
module Unwinding {
  import opened Basics
  import opened Bytecode
  import opened Verifier
  import opened Interp
  import opened Trampoline
  import opened StashSafety
  import opened TailReading

  /** call r0 = hopper(); r0 = nil; return r0 */
  const CALLER: seq<Byte> := [18, 0, 1, 0, 0, 0, 0, 3, 0, 19, 0]
  /** tail-call answer() */
  const HOPPER: seq<Byte> := [49, 2, 0, 0, 0, 0]
  /** r0 = 0; return r0 */
  const ANSWER: seq<Byte> := [1, 0, 0, 0, 0, 0, 0, 0, 0, 0, 19, 0]

  const M: Module := Module([[65]], [Function(0, 0, 1, CALLER), Function(0, 0, 1, HOPPER), Function(0, 0, 1, ANSWER)])

  const INST: Instance := Instance(0, 1, M, [0], false, false, [true, true, false])

  lemma LastField(f: Field, code: seq<Byte>, at: nat)
    requires at <= |code| && ReadField(f, code, at).Got?
    ensures var r := ReadField(f, code, at); ReadFields([f], code, at) == Got([r.value], r.next)
  {
    var r := ReadField(f, code, at);
    assert [f][1..] == [] && [r.value] + [] == [r.value];
    assert ReadFields([f][1..], code, r.next) == Got([], r.next);
  }

  lemma OneByte(code: seq<Byte>, at: nat)
    requires at + 2 <= |code| && (code[at] == LOAD_NIL || code[at] == RET)
    ensures Decode(code, at) == Some(Insn(code[at], [Num(code[at + 1])], at + 2))
  {
    LastField(U8, code, at + 1);
  }

  lemma DecodeCall()
    ensures Decode(CALLER, 0) == Some(Insn(CALL, [Num(0), Num(1), List([])], 7))
  {
    assert [U8, U32, Regs][1..] == [U32, Regs] && [U32, Regs][1..] == [Regs];
    assert At(CALLER, 6) == 0 && CALLER[7..7] == [];
    LastField(Regs, CALLER, 6);
    assert LE(CALLER, 4, 2) == 0;
    assert LE(CALLER, 2, 4) == 1;
    assert [Num(1)] + [List([])] == [Num(1), List([])];
    assert ReadFields([U32, Regs], CALLER, 2) == Got([Num(1), List([])], 7);
    assert [Num(0)] + [Num(1), List([])] == [Num(0), Num(1), List([])];
  }

  lemma DecodeTail()
    ensures Decode(HOPPER, 0) == Some(Insn(TAIL_CALL, [Num(2), List([])], 6))
  {
    assert [U32, Regs][1..] == [Regs];
    assert At(HOPPER, 5) == 0 && HOPPER[6..6] == [];
    LastField(Regs, HOPPER, 5);
    assert LE(HOPPER, 3, 2) == 0;
    assert LE(HOPPER, 1, 4) == 2;
    assert [Num(2)] + [List([])] == [Num(2), List([])];
  }

  lemma DecodeLoad()
    ensures Decode(ANSWER, 0) == Some(Insn(LOAD_INT, [Num(0), Num(0)], 10))
  {
    assert [U8, U64][1..] == [U64];
    assert LE(ANSWER, 8, 2) == 0;
    assert LE(ANSWER, 6, 4) == 0;
    assert LE(ANSWER, 4, 6) == 0;
    assert LE(ANSWER, 2, 8) == 0;
    LastField(U64, ANSWER, 2);
    assert [Num(0)] + [Num(0)] == [Num(0), Num(0)];
  }

  const STASHED: Req := Req(TAIL_CALL, [2], [], [])

  lemma AnswerRuns(fuel: nat, e: Env, log: seq<Req>)
    requires e.m == M
    ensures RunFunction(fuel, e, 2, [], log) == Done(IntTerm(0), log, fuel)
  {
    hide Decode;
    DecodeLoad();
    OneByte(ANSWER, 10);
    var f := M.functions[2];
    assert Frame(f, []) == [NIL];
    LoadZero(e, log);
    assert Exec(fuel, e, f, 10, [IntTerm(0)], log) == Done(IntTerm(0), log, fuel);
  }

  lemma LoadZero(e: Env, log: seq<Req>)
    ensures Simple(e, Insn(LOAD_INT, [Num(0), Num(0)], 10), [NIL], log) == Next([IntTerm(0)], log)
  {
    assert Signed(Word(0)) == 0;
  }

  lemma AnswerReads(fuel: nat, w: World, unwinds: bool, g: Engine, log: seq<Req>)
    ensures ReadOnce(fuel, w, unwinds, g, INST, 2, [], log) == Reading(Done(IntTerm(0), log, fuel), false)
  {
    hide Decode, Simple;
    DecodeLoad();
    OneByte(ANSWER, 10);
    var f := M.functions[2];
    assert Frame(f, []) == [NIL];
    LoadZero(EnvOf(w, INST, g, 0), log);
    assert ReadFrame(fuel, w, unwinds, g, INST, f, 10, [IntTerm(0)], log)
      == Reading(Done(IntTerm(0), log, fuel), false);
  }

  lemma HopperOperands(ns: Names)
    ensures var i := Insn(TAIL_CALL, [Num(2), List([])], 6); Sources(i) == [] && Imms(ns, i) == [2]
  {
    hide SourcesFrom, ImmsFrom;
    var i := Insn(TAIL_CALL, [Num(2), List([])], 6);
    Operands2(ns, i, RCallee, RArgs, 0);
    Operands1(ns, i, RArgs, 1);
    assert [RCallee, RArgs][1..] == [RArgs];
  }

  lemma CallerOperands(ns: Names)
    ensures Sources(Insn(CALL, [Num(0), Num(1), List([])], 7)) == []
  {
    hide SourcesFrom, ImmsFrom;
    Operands2(ns, Insn(CALL, [Num(0), Num(1), List([])], 7), RCallee, RArgs, 1);
    assert [RReg, RCallee, RArgs][1..] == [RCallee, RArgs];
  }

  lemma NothingFetched(regs: seq<Term>)
    ensures InFrame(regs, []) && Fetch(regs, []) == []
  {
  }

  lemma HopperStashes(fuel: nat, e: Env, log: seq<Req>)
    requires e.m == M
    ensures RunFunction(fuel, e, 1, [], log) == Done(TAIL_SENTINEL, log + [STASHED], fuel)
  {
    hide Decode, Sources, Imms, Simple, Fetch;
    DecodeTail();
    assert Frame(M.functions[1], []) == [NIL];
    var i := Insn(TAIL_CALL, [Num(2), List([])], 6);
    HopperOperands(e.names);
    NothingFetched([NIL]);
    assert Req(i.op, Imms(e.names, i), [], Fetch([NIL], Sources(i))) == STASHED;
    var f := M.functions[1];
    assert f == Function(0, 0, 1, HOPPER);
    assert Control(fuel, e, f, 0, i, [NIL], log) == Done(TAIL_SENTINEL, log + [STASHED], fuel);
    assert Exec(fuel, e, f, 0, [NIL], log) == Done(TAIL_SENTINEL, log + [STASHED], fuel);
  }

  lemma HopperReads(fuel: nat, w: World, unwinds: bool, g: Engine, log: seq<Req>)
    requires fuel > 0
    ensures ReadOnce(fuel, w, unwinds, g, INST, 1, [], log)
      == Reading(Done(IntTerm(0), log + [STASHED] + [Took], fuel - 1), true)
  {
    hide Decode, Sources, Imms, Simple, Fetch;
    DecodeTail();
    assert Frame(M.functions[1], []) == [NIL];
    var ns, i := NamesOf(w, INST), Insn(TAIL_CALL, [Num(2), List([])], 6);
    HopperOperands(ns);
    NothingFetched([NIL]);
    assert Req(i.op, Imms(ns, i), [], Fetch([NIL], Sources(i))) == STASHED;
    var f, log' := M.functions[1], log + [STASHED] + [Took];
    assert f == Function(0, 0, 1, HOPPER);
    AnswerReads(fuel - 1, w, unwinds, EngineFor(w, INST, []), log');
    assert ReadFrame(fuel, w, unwinds, g, INST, f, 0, [NIL], log)
        == Reading(ReadOnce(fuel - 1, w, unwinds, EngineFor(w, INST, []), INST, 2, [], log').o, true);
  }

  lemma CallerStops(e: Env, log: seq<Req>)
    requires e.m == M
    ensures RunFunction(2, e, 0, [], log) == Done(TAIL_SENTINEL, log + [STASHED], 1)
  {
    hide Decode, Sources, Imms, Simple, Fetch;
    DecodeCall();
    assert Frame(M.functions[0], []) == [NIL];
    CallerOperands(e.names);
    NothingFetched([NIL]);
    HopperStashes(1, e, log);
  }

  lemma CallerFinishes(w: World, g: Engine, log: seq<Req>)
    ensures ReadFrame(0, w, false, g, INST, M.functions[0], 7, [IntTerm(0)], log) == Reading(Done(NIL, log, 0), false)
  {
    hide Decode, Sources, Imms;
    OneByte(CALLER, 7);
    OneByte(CALLER, 9);
    var e := EnvOf(w, INST, g, 0);
    assert Simple(e, Insn(LOAD_NIL, [Num(0)], 9), [IntTerm(0)], log) == Next([NIL], log);
    assert ReadFrame(0, w, false, g, INST, M.functions[0], 9, [NIL], log) == Reading(Done(NIL, log, 0), false);
  }

  lemma CallerGoesOn(w: World, g: Engine, log: seq<Req>)
    ensures ReadOnce(2, w, false, g, INST, 0, [], log) == Reading(Done(NIL, log + [STASHED] + [Took], 0), false)
  {
    hide Decode, Sources, Imms, Simple, Fetch, EnvOf, Control, ReadOut, ReadExt;
    DecodeCall();
    assert Frame(M.functions[0], []) == [NIL];
    CallerOperands(NamesOf(w, INST));
    NothingFetched([NIL]);
    HopperReads(1, w, false, g, log);
    CallerFinishes(w, g, log + [STASHED] + [Took]);
    assert [NIL][0 := IntTerm(0)] == [IntTerm(0)];
  }

  lemma CallerUnwinds(w: World, g: Engine, log: seq<Req>)
    ensures ReadOnce(2, w, true, g, INST, 0, [], log) == Reading(Done(IntTerm(0), log + [STASHED] + [Took], 0), true)
  {
    hide Decode, Sources, Imms, Simple, Fetch, EnvOf, Control, ReadOut, ReadExt;
    DecodeCall();
    assert Frame(M.functions[0], []) == [NIL];
    CallerOperands(NamesOf(w, INST));
    NothingFetched([NIL]);
    HopperReads(1, w, true, g, log);
  }

  /** The trampoline returns the answer and drops the caller's frame, as the unwinding reading
      says; read as calls, the caller goes on and returns nil. In every world. */
  lemma CallerIsUnwound(w: World, log: seq<Req>)
    requires Plain(w)
    ensures Invoked(2, w, INST, 0, [], log) == Done(IntTerm(0), log + [STASHED] + [Took], 0)
    ensures ReadOnce(2, w, true, w.code(INST), INST, 0, [], log).o == Done(IntTerm(0), log + [STASHED] + [Took], 0)
    ensures ReadOnce(2, w, false, w.code(INST), INST, 0, [], log).o == Done(NIL, log + [STASHED] + [Took], 0)
    ensures IntTerm(0) != NIL
  {
    hide RunFunction, Resume, ReadOnce, EnvOf;
    var g := w.code(INST);
    PlainWorld(w, INST, g, 2);
    CallerStops(EnvOf(w, INST, g, 2), log);
    HopResumes(w, log);
    CallerGoesOn(w, g, log);
    CallerUnwinds(w, g, log);
  }

  lemma HopResumes(w: World, log: seq<Req>)
    requires Plain(w)
    ensures Resume(1, w, INST, log + [STASHED]) == Done(IntTerm(0), log + [STASHED] + [Took], 0)
  {
    hide RunFunction, EnvOf;
    var log' := log + [STASHED] + [Took];
    assert Stash(log + [STASHED]) == Some(STASHED);
    assert NextTarget(w, INST, STASHED, log') == Enter(INST, 2, []);
    PlainWorld(w, INST, w.code(INST), 0);
    AnswerRuns(0, EnvOf(w, INST, w.code(INST), 0), log');
  }

  lemma Reaches(code: seq<Byte>, at: nat, next: nat)
    requires at < |code| && Decode(code, at).Some? && Decode(code, at).value.next == next
    ensures Starts(code, at) == {at} + Starts(code, next) && Starts(code, |code|) == {}
  {
  }

  lemma CallerAccepted()
    ensures Accepted(M, M.functions[0])
  {
    hide Decode, Good, Starts;
    DecodeCall();
    OneByte(CALLER, 7);
    OneByte(CALLER, 9);
    Reaches(CALLER, 0, 7);
    Reaches(CALLER, 7, 9);
    Reaches(CALLER, 9, 11);
    CallerGood();
  }

  lemma CallerGood()
    ensures Good(M, M.functions[0], 0) && Good(M, M.functions[0], 7) && Good(M, M.functions[0], 9)
  {
    hide Decode;
    DecodeCall();
    OneByte(CALLER, 7);
    OneByte(CALLER, 9);
  }

  lemma HopperAccepted()
    ensures Accepted(M, M.functions[1])
  {
    hide Decode, Starts;
    DecodeTail();
    Reaches(HOPPER, 0, 6);
  }

  lemma AnswerAccepted()
    ensures Accepted(M, M.functions[2])
  {
    hide Decode, Starts;
    DecodeLoad();
    OneByte(ANSWER, 10);
    Reaches(ANSWER, 0, 10);
    Reaches(ANSWER, 10, 12);
  }

  /** The verifier accepts all three functions. */
  lemma ModuleVerified()
    ensures Verified(M)
  {
    hide Accepted;
    CallerAccepted();
    HopperAccepted();
    AnswerAccepted();
  }
}
