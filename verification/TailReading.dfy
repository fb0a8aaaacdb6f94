/** The trampoline against a reading without it. A tail call runs its target in place and its
    result is returned; if the frame was CALLed by a sibling, that caller returns it too. */
module TailReading {
  import opened Basics
  import opened Bytecode
  import opened Verifier
  import opened Interp
  import opened ByteControl
  import opened InterpSafety
  import opened Sentinels
  import opened Trampoline
  import opened StashSafety

  /** How a frame ended, and whether by a tail call of its own or of one it CALLed. */
  datatype Reading = Reading(o: Outcome, tailed: bool)

  /** Enters a function of another module, the one of that name and arity in the table of the
      moment, as a call would. */
  function ReadOut(fuel: nat, w: World, unwinds: bool, module_: nat, name: nat, args: seq<Term>, log: seq<Req>)
      : (o: Outcome)
    ensures o.Done? ==> o.left <= fuel
    decreases fuel, 0, 0, 0
  {
    match Resolve(w.table(log), module_, name, args)
    case Refused(trap) => Trapped(trap, log)
    case Enter(inst, fi, args) =>
      var log' := log + [Note(inst)];
      if fuel == 0 then Spent(log')
      else ReadOnce(fuel - 1, w, unwinds, EngineFor(w, inst, args), inst, fi, args, log').o
  }

  function ReadOnce(fuel: nat, w: World, unwinds: bool, g: Engine, inst: Instance, fi: nat, args: seq<Term>,
      log: seq<Req>): (r: Reading)
    ensures r.o.Done? ==> r.o.left <= fuel
    decreases fuel, 1, 0
  {
    if fi >= |inst.m.functions| then Reading(Broken(BadCallee, log), false)
    else
      var f := inst.m.functions[fi];
      if |args| != f.arity || f.nregs < |args| then Reading(Broken(BadArity, log), false)
      else ReadFrame(fuel, w, unwinds, g, inst, f, 0, Frame(f, args), log)
  }

  /** A frame's instructions. With `unwinds`, a tail call made in a CALLed frame ends the
      caller's frame as well; without, its result goes where any call's does. */
  function ReadFrame(fuel: nat, w: World, unwinds: bool, g: Engine, inst: Instance, f: Function, pc: nat,
                     regs: seq<Term>, log: seq<Req>): (r: Reading)
    ensures r.o.Done? ==> r.o.left <= fuel
    decreases fuel, 0, |f.code| - pc, 1
  {
    var e := EnvOf(w, inst, g, 0);
    var d := Decode(f.code, pc);
    if d.None? then Reading(Broken(BadDecode, log), false)
    else
      var i := d.value;
      if !IsControl(i.op) then
        (match Simple(e, i, regs, log)
         case Stop(o) => Reading(o, false)
         case Next(regs', log') => ReadFrame(fuel, w, unwinds, g, inst, f, i.next, regs', log'))
      else if i.op == JMP || i.op == JMP_IF then
        if i.op == JMP_IF && Reg(i, 0) >= |regs| then Reading(Broken(BadFrame, log), false)
        else if i.op == JMP_IF && !IsInt(regs[Reg(i, 0)]) then Reading(Trapped(Badarg, log), false)
        else if i.op == JMP_IF && IntOf(regs[Reg(i, 0)]) == 0
          then ReadFrame(fuel, w, unwinds, g, inst, f, i.next, regs, log)
        else if Target(i) < 0 || Target(i) > |f.code| then Reading(Broken(BadJump, log), false)
        else if fuel == 0 then Reading(Spent(log), false)
        else ReadFrame(fuel - 1, w, unwinds, g, inst, f, Target(i), regs, log)
      else if i.op == RET || i.op == EXIT_ATOM then Reading(Control(fuel, e, f, pc, i, regs, log), false)
      else if !InFrame(regs, Sources(i)) then Reading(Broken(BadFrame, log), false)
      else if i.op == TAIL_CALL then
        var k, args := Reg(i, 0), Fetch(regs, Sources(i));
        var log' := log + [Req(TAIL_CALL, [k], [], args)] + [Took];
        Reading(if fuel == 0 then Spent(log')
                else ReadOnce(fuel - 1, w, unwinds, EngineFor(w, inst, args), inst, k, args, log').o, true)
      else if i.op == TAIL_CALL_EXT then
        var m, k, args := Global(e.names, Reg(i, 0)), Global(e.names, Reg(i, 1)), Fetch(regs, Sources(i));
        Reading(ReadOut(fuel, w, unwinds, m, k, args, log + [Req(TAIL_CALL_EXT, [m, k], [], args)] + [Took]), true)
      else if fuel == 0 then Reading(Spent(log), false)
      else if i.op == CALL then
        var r := ReadOnce(fuel - 1, w, unwinds, g, inst, Reg(i, 1), Fetch(regs, Sources(i)), log);
        if r.tailed && unwinds then r
        else if !r.o.Done? then Reading(r.o, false)
        else if Reg(i, 0) >= |regs| then Reading(Broken(BadFrame, r.o.log), false)
        else ReadFrame(r.o.left, w, unwinds, g, inst, f, i.next, regs[Reg(i, 0) := r.o.w], r.o.log)
      else
        var x := ExtOf(e, f.code, i, Fetch(regs, Sources(i)));
        var o := ReadExt(fuel - 1, w, unwinds, inst, x, log);
        if !o.Done? then Reading(if o.Broken? then Broken(Elsewhere, o.log) else o, false)
        else if Reg(i, 0) >= |regs| then Reading(Broken(BadFrame, o.log), false)
        else ReadFrame(o.left, w, unwinds, g, inst, f, i.next, regs[Reg(i, 0) := o.w], o.log)
  }

  /** An external call, resolved in the table of the moment. */
  function ReadExt(fuel: nat, w: World, unwinds: bool, caller: Instance, x: Ext, log: seq<Req>): (o: Outcome)
    ensures o.Done? ==> o.left <= fuel
    decreases fuel, 2
  {
    var log' := log + [Called(x)];
    match Resolve(w.table(log'), x.module_, x.name, x.args)
    case Refused(trap) => Trapped(trap, log')
    case Enter(inst, fi, args) =>
      Back(ReadOnce(fuel, w, unwinds, EngineFor(w, inst, args), inst, fi, args, log' + [Note(inst)]).o, Some(caller))
  }

  lemma InWorld(w: World, inst: Instance, g: Engine, n: nat)
    requires Sane(w) && Plain(w) && !g.Native?
    ensures Loaded(w) && TermsOnly(w.sys)
    ensures var e := EnvOf(w, inst, g, n); e.m == inst.m && e.names == NamesOf(w, inst) && e.sys == w.sys
  {
    hide Loaded, Bound, Coded;
    PlainWorld(w, inst, g, n);
  }

  /** What the trampoline makes of a run's outcome. */
  function Finish(w: World, inst: Instance, o: Outcome): Outcome
  {
    if o.Done? && o.w == TAIL_SENTINEL then Resume(o.left, w, inst, o.log) else o
  }

  /** `r` is how the run that ended in `o` reads. */
  ghost predicate ReadsAs(w: World, inst: Instance, o: Outcome, r: Reading)
  {
    Finish(w, inst, o) == r.o && (r.tailed <==> Sent(o))
  }

  /** In every program, every world and every length of run, invoking by trampoline is the
      unwinding reading. */
  lemma {:induction false} InvokeReads(fuel: nat, w: World, inst: Instance, fi: nat, args: seq<Term>, log: seq<Req>)
    requires Sane(w) && Plain(w) && Callable(inst, fi, args)
    ensures Invoked(fuel, w, inst, fi, args, log)
      == ReadOnce(fuel, w, true, EngineFor(w, inst, args), inst, fi, args, log).o
    decreases fuel, 1, 0
  {
    hide Sane, Plain, Exec, ReadFrame, Resume, Frame, Stash, EnvOf, EngineFor;
    var f, g := inst.m.functions[fi], EngineFor(w, inst, args);
    PlainEngine(w, inst, args);
    InWorld(w, inst, g, fuel);
    Enters(inst.m, fi, args);
    FrameClean(f, args);
    FrameReads(fuel, fuel, w, g, inst, f, 0, Frame(f, args), log);
  }

  lemma {:induction false} FrameReads(fuel: nat, n: nat, w: World, g: Engine, inst: Instance, f: Function, pc: nat,
                                      regs: seq<Term>, log: seq<Req>)
    requires Sane(w) && Plain(w) && !g.Native? && Verified(inst.m)
    requires Ready(inst.m, f, pc, regs) && Clean(regs) && fuel <= n
    ensures ReadsAs(w, inst, Exec(fuel, EnvOf(w, inst, g, n), f, pc, regs, log),
                    ReadFrame(fuel, w, true, g, inst, f, pc, regs, log))
    decreases fuel, 0, |f.code| - pc, 1
  {
    hide Sane, Plain, Verified, Accepted, Good, Simple, Sources, Imms, Starts, Target, Decode, Roles, EnvOf, Resume;
    var e := EnvOf(w, inst, g, n);
    InWorld(w, inst, g, n);
    PlainWorld(w, inst, g, n);
    PlainWorld(w, inst, g, 0);
    Leads(inst.m, f, pc, regs);
    GoodRegs(inst.m, f, pc, regs);
    GoodRoles(inst.m, f, pc);
    var i := Decode(f.code, pc).value;
    if i.op !in {NOP, JMP, TAIL_CALL, TAIL_CALL_EXT} { RegisterOperands(i.op); }
    if !IsControl(i.op) {
      SimpleClean(e, i, regs, log);
      SimpleSafe(e, f, pc, regs, log);
      SimpleSame(e, EnvOf(w, inst, g, 0), i, regs, log);
      var s := Simple(e, i, regs, log);
      if s.Next? { FrameReads(fuel, n, w, g, inst, f, i.next, s.regs, s.log); }
    } else if Jumped(i, regs) {
      assert Exec(fuel, e, f, pc, regs, log) == Jump(fuel, e, f, i, regs, log);
      if fuel > 0 { FrameReads(fuel - 1, n, w, g, inst, f, Target(i), regs, log); }
    } else if i.op == JMP_IF {
      if IsInt(regs[Reg(i, 0)]) { FrameReads(fuel, n, w, g, inst, f, i.next, regs, log); }
    } else if i.op == CALL {
      if fuel > 0 { CallReads(fuel, n, w, g, inst, f, pc, regs, log); }
    } else if i.op == CALL_EXT {
      if fuel > 0 { ExternReads(fuel, n, w, g, inst, f, pc, regs, log); }
    } else if i.op == RET {
      ReturnsClean(e, f, pc, regs);
    } else if TailOp(i.op) {
      TailReads(fuel, n, w, g, inst, f, pc, regs, log);
    }
  }

  lemma {:induction false} TailReads(fuel: nat, n: nat, w: World, g: Engine, inst: Instance, f: Function, pc: nat,
                                     regs: seq<Term>, log: seq<Req>)
    requires Sane(w) && Plain(w) && !g.Native? && Verified(inst.m)
    requires Ready(inst.m, f, pc, regs) && Clean(regs) && fuel <= n
    requires Decode(f.code, pc).Some? && TailOp(Decode(f.code, pc).value.op)
    ensures ReadsAs(w, inst, Exec(fuel, EnvOf(w, inst, g, n), f, pc, regs, log),
                    ReadFrame(fuel, w, true, g, inst, f, pc, regs, log))
    decreases fuel, 0, |f.code| - pc, 0
  {
    hide Sane, Plain, Verified, Accepted, Good, Sources, Imms, Starts, Target, Decode, EnvOf, Resolve, TargetOk,
      Callable, Invoked, ReadOnce, Alternates, EngineFor;
    var e := EnvOf(w, inst, g, n);
    InWorld(w, inst, g, n);
    InWorld(w, inst, g, 0);
    Leads(inst.m, f, pc, regs);
    GoodRegs(inst.m, f, pc, regs);
    var i := Decode(f.code, pc).value;
    var r := Req(i.op, Imms(e.names, i), [], Fetch(regs, Sources(i)));
    TailRequest(inst.m, e.names, f, pc, regs, log);
    CallOperands(e.names, i);
    ExternOperands(e.names, i);
    var log' := log + [r] + [Took];
    var h := NextTarget(w, inst, r, log');
    HopCallable(w, inst, r, log');
    assert Exec(fuel, e, f, pc, regs, log) == Done(TAIL_SENTINEL, log + [r], fuel);
    assert Stash(log + [r]) == Some(r);
    if h.Enter? && fuel > 0 { InvokeReads(fuel - 1, w, h.inst, h.fi, h.args, Entering(r, h.inst, log')); }
  }

  lemma {:induction false} CallReads(fuel: nat, n: nat, w: World, g: Engine, inst: Instance, f: Function, pc: nat,
                                     regs: seq<Term>, log: seq<Req>)
    requires Sane(w) && Plain(w) && !g.Native? && Verified(inst.m)
    requires Ready(inst.m, f, pc, regs) && Clean(regs) && 0 < fuel <= n
    requires Decode(f.code, pc).Some? && Decode(f.code, pc).value.op == CALL
    ensures ReadsAs(w, inst, Exec(fuel, EnvOf(w, inst, g, n), f, pc, regs, log),
                    ReadFrame(fuel, w, true, g, inst, f, pc, regs, log))
    decreases fuel, 0, |f.code| - pc, 0
  {
    hide Sane, Plain, Verified, Accepted, Good, Sources, Starts, Target, Decode, Roles, EnvOf, Resume, Frame;
    var e := EnvOf(w, inst, g, n);
    InWorld(w, inst, g, n);
    PlainWorld(w, inst, g, 0);
    Leads(inst.m, f, pc, regs);
    GoodRoles(inst.m, f, pc);
    GoodRegs(inst.m, f, pc, regs);
    RegisterOperands(CALL);
    CallMatches(inst.m, f, pc);
    var i := Decode(f.code, pc).value;
    var callee, args := Reg(i, 1), Fetch(regs, Sources(i));
    var h := inst.m.functions[callee];
    Enters(inst.m, callee, args);
    FrameClean(h, args);
    FrameReads(fuel - 1, n, w, g, inst, h, 0, Frame(h, args), log);
    var r := RunFunction(fuel - 1, e, callee, args, log);
    assert r == Exec(fuel - 1, e, h, 0, Frame(h, args), log);
    if r.Done? && !Sent(r) { FrameReads(r.left, n, w, g, inst, f, i.next, regs[Reg(i, 0) := r.w], r.log); }
  }

  lemma {:induction false} ExternReads(fuel: nat, n: nat, w: World, g: Engine, inst: Instance, f: Function, pc: nat,
                                       regs: seq<Term>, log: seq<Req>)
    requires Sane(w) && Plain(w) && !g.Native? && Verified(inst.m)
    requires Ready(inst.m, f, pc, regs) && Clean(regs) && 0 < fuel <= n
    requires Decode(f.code, pc).Some? && Decode(f.code, pc).value.op == CALL_EXT
    ensures ReadsAs(w, inst, Exec(fuel, EnvOf(w, inst, g, n), f, pc, regs, log),
                    ReadFrame(fuel, w, true, g, inst, f, pc, regs, log))
    decreases fuel, 0, |f.code| - pc, 0
  {
    hide Sane, Plain, Verified, Accepted, Good, Sources, Starts, Target, Decode, Roles, EnvOf, Resume, Dynamic, ReadExt,
      Global;
    var e := EnvOf(w, inst, g, n);
    InWorld(w, inst, g, n);
    PlainWorld(w, inst, g, n);
    PlainWorld(w, inst, g, 0);
    Leads(inst.m, f, pc, regs);
    GoodRoles(inst.m, f, pc);
    GoodRegs(inst.m, f, pc, regs);
    RegisterOperands(CALL_EXT);
    var i := Decode(f.code, pc).value;
    var x := ExtOf(e, f.code, i, Fetch(regs, Sources(i)));
    assert x == ExtOf(EnvOf(w, inst, g, 0), f.code, i, Fetch(regs, Sources(i)));
    AnswerReads(fuel - 1, w, inst, x, log);
    EnvServes(w, inst, g, n);
    CallOutSettles(fuel - 1, n, e, x, log);
    var r := CallOut(fuel - 1, e, x, log);
    assert r == Back(Dynamic(fuel - 1, w, x, log + [Called(x)]), Some(inst));
    if r.Done? { FrameReads(r.left, n, w, g, inst, f, i.next, regs[Reg(i, 0) := r.w], r.log); }
  }

  lemma {:induction false} AnswerReads(fuel: nat, w: World, inst: Instance, x: Ext, log: seq<Req>)
    requires Sane(w) && Plain(w) && Clean(x.args)
    ensures Back(Dynamic(fuel, w, x, log + [Called(x)]), Some(inst)) == ReadExt(fuel, w, true, inst, x, log)
    decreases fuel, 2
  {
    hide Verified, Invoked, ReadOnce, EngineFor;
    var log' := log + [Called(x)];
    var h := Resolve(w.table(log'), x.module_, x.name, x.args);
    if h.Enter? { InvokeReads(fuel, w, h.inst, h.fi, h.args, log' + [Note(h.inst)]); }
  }

  /** No function CALLs a sibling that may tail-call out. */
  ghost predicate NoUnwinding(m: Module) { forall i: nat, j: nat :: Calls(m, i, j) ==> !MayTail(m, j) }

  ghost predicate AllReturn(w: World)
  {
    forall log, name :: name in w.table(log) ==> NoUnwinding(w.table(log)[name].current.m)
  }

  /** Where no caller is unwound, the trampoline is plain call-then-return. */
  lemma {:induction false} InvokeIsCall(fuel: nat, w: World, inst: Instance, fi: nat, args: seq<Term>, log: seq<Req>)
    requires Sane(w) && Plain(w) && AllReturn(w) && Callable(inst, fi, args) && NoUnwinding(inst.m)
    ensures Invoked(fuel, w, inst, fi, args, log)
      == ReadOnce(fuel, w, false, EngineFor(w, inst, args), inst, fi, args, log).o
  {
    hide Sane, Plain, AllReturn, NoUnwinding, Callable, Invoked, ReadOnce;
    InvokeReads(fuel, w, inst, fi, args, log);
    PlainEngine(w, inst, args);
    OnceSame(fuel, w, EngineFor(w, inst, args), inst, fi, args, log);
  }

  lemma {:induction false} OnceSame(fuel: nat, w: World, g: Engine, inst: Instance, fi: nat, args: seq<Term>,
                                    log: seq<Req>)
    requires Sane(w) && Plain(w) && !g.Native? && AllReturn(w) && Callable(inst, fi, args) && NoUnwinding(inst.m)
    ensures ReadOnce(fuel, w, true, g, inst, fi, args, log) == ReadOnce(fuel, w, false, g, inst, fi, args, log)
    decreases fuel, 1, 0
  {
    hide Sane, Plain, AllReturn, NoUnwinding, ReadFrame, Frame;
    var f := inst.m.functions[fi];
    Enters(inst.m, fi, args);
    FrameClean(f, args);
    FrameSame(fuel, w, g, inst, fi, 0, Frame(f, args), log);
  }

  lemma {:induction false} FrameSame(fuel: nat, w: World, g: Engine, inst: Instance, fi: nat, pc: nat,
                                     regs: seq<Term>, log: seq<Req>)
    requires Sane(w) && Plain(w) && !g.Native? && AllReturn(w)
    requires Verified(inst.m) && NoUnwinding(inst.m) && fi < |inst.m.functions|
    requires Ready(inst.m, inst.m.functions[fi], pc, regs) && Clean(regs)
    ensures var f := inst.m.functions[fi];
      ReadFrame(fuel, w, true, g, inst, f, pc, regs, log) == ReadFrame(fuel, w, false, g, inst, f, pc, regs, log)
    decreases fuel, 0, |inst.m.functions[fi].code| - pc, 1
  {
    hide Sane, Plain, AllReturn, NoUnwinding, Verified, Accepted, Good, Simple, Sources, Imms, Starts, Target, Decode,
      Roles;
    var f := inst.m.functions[fi];
    InWorld(w, inst, g, fuel);
    Leads(inst.m, f, pc, regs);
    GoodRegs(inst.m, f, pc, regs);
    GoodRoles(inst.m, f, pc);
    var i := Decode(f.code, pc).value;
    if i.op !in {NOP, JMP, TAIL_CALL, TAIL_CALL_EXT} { RegisterOperands(i.op); }
    if !IsControl(i.op) {
      var e := EnvOf(w, inst, g, 0);
      SimpleClean(e, i, regs, log);
      SimpleSafe(e, f, pc, regs, log);
      var s := Simple(e, i, regs, log);
      if s.Next? { FrameSame(fuel, w, g, inst, fi, i.next, s.regs, s.log); }
    } else if Jumped(i, regs) {
      if fuel > 0 { FrameSame(fuel - 1, w, g, inst, fi, Target(i), regs, log); }
    } else if i.op == JMP_IF {
      if IsInt(regs[Reg(i, 0)]) { FrameSame(fuel, w, g, inst, fi, i.next, regs, log); }
    } else if i.op == CALL {
      if fuel > 0 { CallSame(fuel, w, g, inst, fi, pc, regs, log); }
    } else if i.op == CALL_EXT {
      if fuel > 0 { ExternSame(fuel, w, g, inst, fi, pc, regs, log); }
    } else if TailOp(i.op) {
      TailSame(fuel, w, g, inst, fi, pc, regs, log);
    }
  }

  lemma {:induction false} TailSame(fuel: nat, w: World, g: Engine, inst: Instance, fi: nat, pc: nat,
                                    regs: seq<Term>, log: seq<Req>)
    requires Sane(w) && Plain(w) && !g.Native? && AllReturn(w)
    requires Verified(inst.m) && NoUnwinding(inst.m) && fi < |inst.m.functions|
    requires Ready(inst.m, inst.m.functions[fi], pc, regs) && Clean(regs)
    requires var d := Decode(inst.m.functions[fi].code, pc); d.Some? && TailOp(d.value.op)
    ensures var f := inst.m.functions[fi];
      ReadFrame(fuel, w, true, g, inst, f, pc, regs, log) == ReadFrame(fuel, w, false, g, inst, f, pc, regs, log)
    decreases fuel, 0, |inst.m.functions[fi].code| - pc, 0
  {
    hide Sane, Plain, AllReturn, NoUnwinding, Verified, Accepted, Good, Sources, Imms, Starts, Target, Decode, Roles,
      EnvOf, Resolve, TargetOk, Callable, ReadOnce, Alternates, EngineFor;
    var f := inst.m.functions[fi];
    InWorld(w, inst, g, 0);
    Leads(inst.m, f, pc, regs);
    GoodRegs(inst.m, f, pc, regs);
    var i := Decode(f.code, pc).value;
    var ns := NamesOf(w, inst);
    TailRequest(inst.m, ns, f, pc, regs, log);
    CallOperands(ns, i);
    ExternOperands(ns, i);
    var r := Req(i.op, Imms(ns, i), [], Fetch(regs, Sources(i)));
    var log' := log + [r] + [Took];
    var h := NextTarget(w, inst, r, log');
    HopCallable(w, inst, r, log');
    if h.Enter? && fuel > 0 {
      HopReturns(w, inst, r, log');
      PlainEngine(w, h.inst, h.args);
      OnceSame(fuel - 1, w, EngineFor(w, h.inst, h.args), h.inst, h.fi, h.args, Entering(r, h.inst, log'));
    }
  }

  lemma HopReturns(w: World, inst: Instance, target: Req, log: seq<Req>)
    requires AllReturn(w) && NoUnwinding(inst.m)
    ensures var h := NextTarget(w, inst, target, log); h.Enter? ==> NoUnwinding(h.inst.m)
  {
    hide NoUnwinding;
  }

  lemma {:induction false} CallSame(fuel: nat, w: World, g: Engine, inst: Instance, fi: nat, pc: nat,
                                    regs: seq<Term>, log: seq<Req>)
    requires Sane(w) && Plain(w) && !g.Native? && AllReturn(w)
    requires Verified(inst.m) && NoUnwinding(inst.m) && fi < |inst.m.functions|
    requires Ready(inst.m, inst.m.functions[fi], pc, regs) && Clean(regs) && fuel > 0
    requires var d := Decode(inst.m.functions[fi].code, pc); d.Some? && d.value.op == CALL
    ensures var f := inst.m.functions[fi];
      ReadFrame(fuel, w, true, g, inst, f, pc, regs, log) == ReadFrame(fuel, w, false, g, inst, f, pc, regs, log)
    decreases fuel, 0, |inst.m.functions[fi].code| - pc, 0
  {
    hide Sane, Plain, AllReturn, NoUnwinding, Verified, Accepted, Good, Sources, Starts, Target, Decode, Roles, MayTail,
      ReadOnce;
    var f := inst.m.functions[fi];
    Leads(inst.m, f, pc, regs);
    GoodRoles(inst.m, f, pc);
    GoodRegs(inst.m, f, pc, regs);
    RegisterOperands(CALL);
    CallMatches(inst.m, f, pc);
    var i := Decode(f.code, pc).value;
    var callee, args := Reg(i, 1), Fetch(regs, Sources(i));
    CalleeStays(inst.m, fi, pc);
    StaysReads(fuel - 1, w, g, inst, callee, args, log);
    OnceSame(fuel - 1, w, g, inst, callee, args, log);
    var r := ReadOnce(fuel - 1, w, true, g, inst, callee, args, log).o;
    if r.Done? { FrameSame(r.left, w, g, inst, fi, i.next, regs[Reg(i, 0) := r.w], r.log); }
  }

  /** A callee whose bit is clear reads as one that did not tail-call, and gives a term. */
  lemma StaysReads(fuel: nat, w: World, g: Engine, inst: Instance, fi: nat, args: seq<Term>, log: seq<Req>)
    requires Sane(w) && Plain(w) && !g.Native? && Callable(inst, fi, args) && !MayTail(inst.m, fi)
    ensures var r := ReadOnce(fuel, w, true, g, inst, fi, args, log);
      !r.tailed && (r.o.Done? ==> r.o.w != TAIL_SENTINEL)
  {
    hide Sane, Plain, EnvOf, MayTail, Verified, Exec, ReadFrame, Frame;
    var f := inst.m.functions[fi];
    EnvServes(w, inst, g, fuel);
    InWorld(w, inst, g, fuel);
    NoCheckNeeded(fuel, fuel, EnvOf(w, inst, g, fuel), fi, args, log);
    Enters(inst.m, fi, args);
    FrameClean(f, args);
    FrameReads(fuel, fuel, w, g, inst, f, 0, Frame(f, args), log);
  }

  lemma {:induction false} ExternSame(fuel: nat, w: World, g: Engine, inst: Instance, fi: nat, pc: nat,
                                      regs: seq<Term>, log: seq<Req>)
    requires Sane(w) && Plain(w) && !g.Native? && AllReturn(w)
    requires Verified(inst.m) && NoUnwinding(inst.m) && fi < |inst.m.functions|
    requires Ready(inst.m, inst.m.functions[fi], pc, regs) && Clean(regs) && fuel > 0
    requires var d := Decode(inst.m.functions[fi].code, pc); d.Some? && d.value.op == CALL_EXT
    ensures var f := inst.m.functions[fi];
      ReadFrame(fuel, w, true, g, inst, f, pc, regs, log) == ReadFrame(fuel, w, false, g, inst, f, pc, regs, log)
    decreases fuel, 0, |inst.m.functions[fi].code| - pc, 0
  {
    hide Sane, Plain, AllReturn, NoUnwinding, Verified, Accepted, Good, Sources, Starts, Target, Decode, Roles, ReadExt,
      Dynamic;
    var f := inst.m.functions[fi];
    Leads(inst.m, f, pc, regs);
    GoodRoles(inst.m, f, pc);
    GoodRegs(inst.m, f, pc, regs);
    RegisterOperands(CALL_EXT);
    var i := Decode(f.code, pc).value;
    var e := EnvOf(w, inst, g, 0);
    var x := ExtOf(e, f.code, i, Fetch(regs, Sources(i)));
    ExtSame(fuel - 1, w, inst, x, log);
    AnswerReads(fuel - 1, w, inst, x, log);
    ExternSafe(fuel - 1, w, inst, false, x, log + [Called(x)]);
    var r := ReadExt(fuel - 1, w, true, inst, x, log);
    if r.Done? { FrameSame(r.left, w, g, inst, fi, i.next, regs[Reg(i, 0) := r.w], r.log); }
  }

  lemma {:induction false} ExtSame(fuel: nat, w: World, inst: Instance, x: Ext, log: seq<Req>)
    requires Sane(w) && Plain(w) && AllReturn(w) && Clean(x.args)
    ensures ReadExt(fuel, w, true, inst, x, log) == ReadExt(fuel, w, false, inst, x, log)
    decreases fuel, 2
  {
    hide Verified, NoUnwinding, ReadOnce;
    var log' := log + [Called(x)];
    var h := Resolve(w.table(log'), x.module_, x.name, x.args);
    if h.Enter? {
      PlainEngine(w, h.inst, h.args);
      OnceSame(fuel, w, EngineFor(w, h.inst, h.args), h.inst, h.fi, h.args, log' + [Note(h.inst)]);
    }
  }

  lemma CalleeStays(m: Module, fi: nat, pc: nat)
    requires NoUnwinding(m) && fi < |m.functions| && pc in Starts(m.functions[fi].code, 0)
    requires Decode(m.functions[fi].code, pc).Some? && Decode(m.functions[fi].code, pc).value.op == CALL
    ensures !MayTail(m, Reg(Decode(m.functions[fi].code, pc).value, 1))
  {
    hide MayTail, Decode, Starts;
    var code := m.functions[fi].code;
    DecodedAt(code, pc);
    assert CallsAt(code, pc, Reg(Decode(code, pc).value, 1));
    assert Calls(m, fi, Reg(Decode(code, pc).value, 1));
  }
}
