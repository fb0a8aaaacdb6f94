/** Running the blocks gives what the interpreter gives. */
module Simulation {
  import opened Bytecode
  import opened Verifier
  import opened Interp
  import opened InterpSafety
  import opened Lowering
  import opened Blocks

  function RunCompiled(fuel: nat, e: Env, prog: seq<Compiled>, fi: nat, args: seq<Term>, log: seq<Req>): (o: Outcome)
    ensures o.Done? ==> o.left <= fuel
    decreases fuel, 1, 0
  {
    if fi >= |prog| then Broken(BadCallee, log)
    else
      var c := prog[fi];
      if |args| != c.arity || c.nregs < |args| then Broken(BadArity, log)
      else if 0 !in c.blocks then Broken(BadJump, log)
      else RunOps(fuel, e, prog, c, 0, c.blocks[0], args + seq(c.nregs - |args|, _ => NIL), log)
  }

  /** Running the operations left of the block at `at`. */
  function RunOps(fuel: nat, e: Env, prog: seq<Compiled>, c: Compiled, at: nat, ops: seq<Ir>, regs: seq<Term>,
      log: seq<Req>): (o: Outcome)
    ensures o.Done? ==> o.left <= fuel
    decreases fuel, 0, c.size - at, |ops|
  {
    if ops == [] then Broken(BadDecode, log)
    else if Straight(ops[0]) then
      match StepIr(e, ops[0], regs, log)
      case Stop(o) => o
      case Next(regs', log') => RunOps(fuel, e, prog, c, at, ops[1..], regs', log')
    else
      match ops[0]
      case Fall(t) => if at < t < c.size && t in c.blocks then RunOps(fuel, e, prog, c, t, c.blocks[t], regs, log)
        else Broken(BadJump, log)
      case Goto(t) =>
        if t !in c.blocks then Broken(BadJump, log)
        else if fuel == 0 then Spent(log)
        else RunOps(fuel - 1, e, prog, c, t, c.blocks[t], regs, log)
      case Branch(rc, t, n) =>
        if rc >= |regs| then Broken(BadFrame, log)
        else if ExpectInt(regs[rc]).None? then Trapped(Badarg, log)
        else if ExpectInt(regs[rc]).value != 0 then
          if t !in c.blocks then Broken(BadJump, log)
          else if fuel == 0 then Spent(log)
          else RunOps(fuel - 1, e, prog, c, t, c.blocks[t], regs, log)
        else if at < n < c.size && n in c.blocks then RunOps(fuel, e, prog, c, n, c.blocks[n], regs, log)
        else Broken(BadJump, log)
      case Return(rs) => if rs < |regs| then Done(regs[rs], log, fuel) else Broken(BadFrame, log)
      case ExitWith(rs) =>
        if rs >= |regs| then Broken(BadFrame, log)
        else if IsAtom(regs[rs]) then Trapped(Exit(AtomOf(regs[rs])), log)
        else Trapped(Badarg, log)
      case TailOut(h, imms, rs) =>
        if InFrame(regs, rs) then Done(TAIL_SENTINEL, log + [Req(Carries(h), imms, [], Fetch(regs, rs))], fuel)
          else Broken(BadFrame, log)
      case CallSibling(rd, callee, rs) =>
        if !InFrame(regs, rs) then Broken(BadFrame, log)
        else if fuel == 0 then Spent(log)
        else
          (match RunCompiled(fuel - 1, e, prog, callee, Fetch(regs, rs), log)
           case Done(w, log', left) =>
             if w == TAIL_SENTINEL then Done(TAIL_SENTINEL, log', left)
             else if rd < |regs| then RunOps(left, e, prog, c, at, ops[1..], regs[rd := w], log')
             else Broken(BadFrame, log')
           case o => o)
      case CallExtern(rd, site, module_, name, rs) =>
        if !InFrame(regs, rs) then Broken(BadFrame, log)
        else if fuel == 0 then Spent(log)
        else
          match CallOut(fuel - 1, e, Ext(site, module_, name, Fetch(regs, rs)), log)
          case Done(w, log', left) =>
            if rd < |regs| then RunOps(left, e, prog, c, at, ops[1..], regs[rd := w], log') else Broken(BadFrame, log')
          case o => o
  }

  /** Every function of the module is verified and translated. */
  ghost predicate IsProgram(m: Module, ns: Names, prog: seq<Compiled>)
  {
    && Verified(m) && |prog| == |m.functions|
    && forall k :: 0 <= k < |prog| ==> IsCompiled(ns, m.functions[k], prog[k])
  }

  lemma BlockOfLeader(ns: Names, f: Function, c: Compiled, l: nat)
    requires IsCompiled(ns, f, c) && l in Leaders(f.code) && l in Starts(f.code, 0)
    ensures l in c.blocks && c.blocks[l] == OpsFrom(ns, f.code, Leaders(f.code), l) && c.size == |f.code|
  {
    assert HasBlock(ns, f.code, c.blocks, l);
  }

  lemma CallOperands(i: Insn)
    requires i.op == CALL
    ensures Sources(i) == Listed(i, 2)
  {
    assert Roles(CALL).value[1..] == [RCallee, RArgs];
    assert [RCallee, RArgs][1..] == [RArgs] && [RArgs][1..] == [];
    assert SourcesFrom(i, [RArgs], 2) == Listed(i, 2) + SourcesFrom(i, [], 3);
  }

  lemma ExternOperands(ns: Names, i: Insn)
    requires i.op == CALL_EXT
    ensures Sources(i) == Listed(i, 3)
  {
    hide SourcesFrom, ImmsFrom;
    assert Roles(CALL_EXT).value[1..] == [RAtom, RAtom, RRegs];
    Operands3(ns, i, RAtom, RAtom, RRegs, 1);
  }

  lemma TailOperands(ns: Names, i: Insn)
    requires i.op == TAIL_CALL || i.op == TAIL_CALL_EXT
    ensures EmitLast(ns, i).TailOut?
    ensures EmitLast(ns, i).regs == Sources(i) && EmitLast(ns, i).imms == Imms(ns, i)
      && Carries(EmitLast(ns, i).h) == i.op
  {
    hide SourcesFrom, ImmsFrom;
    if i.op == TAIL_CALL {
      Operands2(ns, i, RCallee, RArgs, 0);
      Operands1(ns, i, RArgs, 1);
      assert [RCallee, RArgs][1..] == [RArgs];
    } else {
      Operands3(ns, i, RAtom, RAtom, RRegs, 0);
      Operands2(ns, i, RAtom, RRegs, 1);
      assert [RAtom, RAtom, RRegs][1..] == [RAtom, RRegs];
    }
  }

  /** From any instruction, in any state, for any system: the rest of its block and all that
      follows agree with the interpreter. */
  lemma {:induction false} BlockAgrees(fuel: nat, e: Env, prog: seq<Compiled>, f: Function, c: Compiled, at: nat,
      pc: nat, regs: seq<Term>, log: seq<Req>)
    requires IsProgram(e.m, e.names, prog) && e.wraps && IsCompiled(e.names, f, c)
    requires Ready(e.m, f, pc, regs) && at <= pc
    ensures RunOps(fuel, e, prog, c, at, OpsFrom(e.names, f.code, Leaders(f.code), pc), regs, log)
      == Exec(fuel, e, f, pc, regs, log)
    decreases fuel, |f.code| - pc, 1
  {
    hide IsProgram, IsCompiled, Accepted, Good, Simple, StepIr, Emit, Sources, Imms, Starts, Target, Decode, Roles,
      Leaders, Frame;
    Leads(e.m, f, pc, regs);
    var i := Decode(f.code, pc).value;
    var L := Leaders(f.code);
    var ops := OpsFrom(e.names, f.code, L, pc);
    if i.op == NOP {
      assert Simple(e, i, regs, log) == Next(regs, log) by { SimpleNop(e, i, regs, log); }
      assert ops == Rest(e.names, f.code, L, i.next);
      RestAgrees(fuel, e, prog, f, c, at, i.next, regs, log);
    } else if !IsControl(i.op) {
      StraightAgrees(fuel, e, prog, f, c, at, pc, regs, log);
    } else if i.op == CALL {
      CallAgrees(fuel, e, prog, f, c, at, pc, regs, log);
    } else if i.op == CALL_EXT {
      ExternAgrees(fuel, e, prog, f, c, at, pc, regs, log);
    } else if Jumps(i.op) {
      JumpAgrees(fuel, e, prog, f, c, at, pc, regs, log);
    } else {
      assert ops == [EmitLast(e.names, i)];
      if i.op == TAIL_CALL || i.op == TAIL_CALL_EXT { TailOperands(e.names, i); }
    }
  }

  lemma SimpleNop(e: Env, i: Insn, regs: seq<Term>, log: seq<Req>)
    requires i.op == NOP
    ensures Simple(e, i, regs, log) == Next(regs, log)
  {
  }

  lemma {:induction false} RestAgrees(fuel: nat, e: Env, prog: seq<Compiled>, f: Function, c: Compiled, at: nat,
      pc: nat, regs: seq<Term>, log: seq<Req>)
    requires IsProgram(e.m, e.names, prog) && e.wraps && IsCompiled(e.names, f, c)
    requires Ready(e.m, f, pc, regs) && at < pc
    ensures RunOps(fuel, e, prog, c, at, Rest(e.names, f.code, Leaders(f.code), pc), regs, log)
      == Exec(fuel, e, f, pc, regs, log)
    decreases fuel, |f.code| - pc, 2
  {
    hide IsProgram, Accepted, Exec, OpsFrom, Leaders, Starts;
    StartsBelow(f.code, 0, pc);
    if pc in Leaders(f.code) {
      BlockOfLeader(e.names, f, c, pc);
      BlockAgrees(fuel, e, prog, f, c, pc, pc, regs, log);
    } else {
      BlockAgrees(fuel, e, prog, f, c, at, pc, regs, log);
    }
  }

  lemma {:induction false} StraightAgrees(fuel: nat, e: Env, prog: seq<Compiled>, f: Function, c: Compiled, at: nat,
      pc: nat, regs: seq<Term>, log: seq<Req>)
    requires IsProgram(e.m, e.names, prog) && e.wraps && IsCompiled(e.names, f, c)
    requires Ready(e.m, f, pc, regs) && at <= pc
    requires Decode(f.code, pc).Some? && !IsControl(Decode(f.code, pc).value.op) && Decode(f.code, pc).value.op != NOP
    ensures RunOps(fuel, e, prog, c, at, OpsFrom(e.names, f.code, Leaders(f.code), pc), regs, log)
      == Exec(fuel, e, f, pc, regs, log)
    decreases fuel, |f.code| - pc, 0
  {
    hide IsProgram, IsCompiled, Accepted, Good, Simple, StepIr, Emit, Starts, Target, Decode, Leaders, Rest, Straight;
    Leads(e.m, f, pc, regs);
    var i := Decode(f.code, pc).value;
    var rest := Rest(e.names, f.code, Leaders(f.code), i.next);
    var ops := OpsFrom(e.names, f.code, Leaders(f.code), pc);
    EmitAgrees(e, i, regs, log);
    SimpleSafe(e, f, pc, regs, log);
    assert ops == [Emit(e.names, i)] + rest;
    assert ops[0] == Emit(e.names, i) && ops[1..] == rest;
    var s := Simple(e, i, regs, log);
    if s.Next? { RestAgrees(fuel, e, prog, f, c, at, i.next, s.regs, s.log); }
  }

  lemma {:induction false} JumpAgrees(fuel: nat, e: Env, prog: seq<Compiled>, f: Function, c: Compiled, at: nat,
      pc: nat, regs: seq<Term>, log: seq<Req>)
    requires IsProgram(e.m, e.names, prog) && e.wraps && IsCompiled(e.names, f, c)
    requires Ready(e.m, f, pc, regs) && at <= pc
    requires Decode(f.code, pc).Some? && Jumps(Decode(f.code, pc).value.op)
    ensures RunOps(fuel, e, prog, c, at, OpsFrom(e.names, f.code, Leaders(f.code), pc), regs, log)
      == Exec(fuel, e, f, pc, regs, log)
    decreases fuel, |f.code| - pc, 0
  {
    hide IsProgram, IsCompiled, Accepted, Good, Starts, Target, Decode, Leaders, Rest, TargetKey;
    Leads(e.m, f, pc, regs);
    LeadersAreBoundaries(e.m, f);
    assert BranchesLead(f, pc);
    var i := Decode(f.code, pc).value;
    assert OpsFrom(e.names, f.code, Leaders(f.code), pc) == [EmitLast(e.names, i)];
    BlockOfLeader(e.names, f, c, Target(i));
    if Jumped(i, regs) {
      assert Exec(fuel, e, f, pc, regs, log) == Jump(fuel, e, f, i, regs, log);
      if fuel > 0 { BlockAgrees(fuel - 1, e, prog, f, c, Target(i), Target(i), regs, log); }
    } else if i.op == JMP_IF && Reg(i, 0) < |regs| && IsInt(regs[Reg(i, 0)]) {
      StartsBelow(f.code, 0, i.next);
      BlockOfLeader(e.names, f, c, i.next);
      BlockAgrees(fuel, e, prog, f, c, i.next, i.next, regs, log);
    }
  }

  lemma {:induction false} CallAgrees(fuel: nat, e: Env, prog: seq<Compiled>, f: Function, c: Compiled, at: nat,
      pc: nat, regs: seq<Term>, log: seq<Req>)
    requires IsProgram(e.m, e.names, prog) && e.wraps && IsCompiled(e.names, f, c)
    requires Ready(e.m, f, pc, regs) && at <= pc
    requires Decode(f.code, pc).Some? && Decode(f.code, pc).value.op == CALL
    ensures RunOps(fuel, e, prog, c, at, OpsFrom(e.names, f.code, Leaders(f.code), pc), regs, log)
      == Exec(fuel, e, f, pc, regs, log)
    decreases fuel, |f.code| - pc, 0
  {
    hide IsProgram, IsCompiled, Accepted, Good, Starts, Target, Decode, Leaders, Rest, Sources, RunFunction,
      RunCompiled;
    Leads(e.m, f, pc, regs);
    var i := Decode(f.code, pc).value;
    CallOperands(i);
    var rest := Rest(e.names, f.code, Leaders(f.code), i.next);
    var ops := OpsFrom(e.names, f.code, Leaders(f.code), pc);
    assert ops == [CallSibling(Reg(i, 0), Reg(i, 1), Listed(i, 2))] + rest;
    assert ops[1..] == rest;
    if InFrame(regs, Sources(i)) && fuel > 0 {
      CallMatches(e.m, f, pc);
      var args := Fetch(regs, Sources(i));
      ProgramAgrees(fuel - 1, e, prog, Reg(i, 1), args, log);
      var r := RunFunction(fuel - 1, e, Reg(i, 1), args, log);
      if r.Done? && r.w != TAIL_SENTINEL && Reg(i, 0) < |regs| {
        RestAgrees(r.left, e, prog, f, c, at, i.next, regs[Reg(i, 0) := r.w], r.log);
      }
    }
  }

  lemma {:induction false} ExternAgrees(fuel: nat, e: Env, prog: seq<Compiled>, f: Function, c: Compiled, at: nat,
      pc: nat, regs: seq<Term>, log: seq<Req>)
    requires IsProgram(e.m, e.names, prog) && e.wraps && IsCompiled(e.names, f, c)
    requires Ready(e.m, f, pc, regs) && at <= pc
    requires Decode(f.code, pc).Some? && Decode(f.code, pc).value.op == CALL_EXT
    ensures RunOps(fuel, e, prog, c, at, OpsFrom(e.names, f.code, Leaders(f.code), pc), regs, log)
      == Exec(fuel, e, f, pc, regs, log)
    decreases fuel, |f.code| - pc, 0
  {
    hide IsProgram, IsCompiled, Accepted, Good, Starts, Target, Decode, Leaders, Rest, Sources, CallOut, Global;
    Leads(e.m, f, pc, regs);
    var i := Decode(f.code, pc).value;
    ExternOperands(e.names, i);
    var rest := Rest(e.names, f.code, Leaders(f.code), i.next);
    var ops := OpsFrom(e.names, f.code, Leaders(f.code), pc);
    assert ops == EmitAll(e.names, f.code, i) + rest && ops[1..] == rest;
    if InFrame(regs, Sources(i)) && fuel > 0 {
      var r := CallOut(fuel - 1, e, ExtOf(e, f.code, i, Fetch(regs, Sources(i))), log);
      if r.Done? && Reg(i, 0) < |regs| {
        RestAgrees(r.left, e, prog, f, c, at, i.next, regs[Reg(i, 0) := r.w], r.log);
      }
    }
  }

  /** For every function of a verified, translated module, all arguments of its arity, every
      system and every length of run, compiled code gives the interpreter's result, traps and
      requests in order, unless the interpreter traps on an i64 overflow. */
  lemma {:induction false} ProgramAgrees(fuel: nat, e: Env, prog: seq<Compiled>, fi: nat, args: seq<Term>,
      log: seq<Req>)
    requires IsProgram(e.m, e.names, prog) && e.wraps && fi < |e.m.functions| && |args| == e.m.functions[fi].arity
    ensures RunCompiled(fuel, e, prog, fi, args, log) == RunFunction(fuel, e, fi, args, log)
    decreases fuel, |e.m.functions[fi].code| + 1, 3
  {
    hide IsCompiled, Accepted, Exec, OpsFrom;
    var f, c := e.m.functions[fi], prog[fi];
    Enters(e.m, fi, args);
    assert IsCompiled(e.names, f, c);
    EntryBlock(e.m, e.names, f, c);
    assert Frame(f, args) == args + seq(c.nregs - |args|, _ => NIL);
    BlockAgrees(fuel, e, prog, f, c, 0, 0, Frame(f, args), log);
  }

  lemma EntryBlock(m: Module, ns: Names, f: Function, c: Compiled)
    requires IsCompiled(ns, f, c) && Accepted(m, f)
    ensures 0 in c.blocks && c.blocks[0] == OpsFrom(ns, f.code, Leaders(f.code), 0)
    ensures c.arity == f.arity && c.nregs == f.nregs
  {
    BlockOfLeader(ns, f, c, 0);
  }

  /** Verified code always translates: every lookup finds its block and its atom. */
  lemma VerifiedResolves(m: Module, ns: Names, f: Function, b: nat)
    requires Accepted(m, f) && |ns.atoms| == |m.atoms| && b in Starts(f.code, 0)
    ensures ResolvesAt(ns, f.code, b)
  {
    hide Leaders, Starts, TargetKey;
    LeadersAreBoundaries(m, f);
    assert BranchesLead(f, b) && Good(m, f, b) && Flows(f, b);
    var i := Decode(f.code, b).value;
    if i.op == JMP_IF { StartsBelow(f.code, 0, i.next); }
    AtomsInRange(m, ns, f, b);
  }

  lemma AtomsInRange(m: Module, ns: Names, f: Function, b: nat)
    requires Good(m, f, b) && |ns.atoms| == |m.atoms|
    ensures var i := Decode(f.code, b).value;
      && (i.op == LOAD_ATOM || i.op == CALL_EXT ==> Reg(i, 1) < |ns.atoms|)
      && (i.op == CALL_EXT ==> Reg(i, 2) < |ns.atoms|)
      && (i.op == TAIL_CALL_EXT ==> Reg(i, 0) < |ns.atoms| && Reg(i, 1) < |ns.atoms|)
  {
    var i := Decode(f.code, b).value;
    var roles := Roles(i.op).value;
    forall k | 0 <= k < |i.args| && roles[k].RAtom? ensures Reg(i, k) < |ns.atoms| {
      AtomInRange(m, f, roles, i.args, 0, k);
    }
  }

  lemma {:induction false} AtomInRange(m: Module, f: Function, roles: seq<Role>, vs: seq<Operand>, callee: nat, k: nat)
    requires OperandsOk(m, f, roles, vs, callee) && k < |roles| && roles[k].RAtom?
    ensures vs[k].Num? && vs[k].n < |m.atoms|
    decreases |roles|
  {
    if k > 0 {
      AtomInRange(m, f, roles[1..], vs[1..], if roles[0].RCallee? && vs[0].Num? then vs[0].n else callee, k - 1);
    }
  }

  lemma {:induction false} VerifiedScans(m: Module, f: Function, at: nat)
    requires Accepted(m, f) && (at >= |f.code| || at in Starts(f.code, 0))
    ensures Scans(f.code, at)
    decreases |f.code| - at
  {
    if at < |f.code| {
      assert Good(m, f, at);
      NextStarts(f.code, 0, at);
      VerifiedScans(m, f, Decode(f.code, at).value.next);
    }
  }

  /** Compiling a verified module: every function translates, and the result is a program
      the theorem above speaks of. */
  method CompileModule(m: Module, ns: Names) returns (prog: seq<Compiled>)
    requires Verified(m) && |ns.atoms| == |m.atoms|
    ensures IsProgram(m, ns, prog)
  {
    hide Accepted, IsCompiled, ResolvesAt, Scans, Starts;
    prog := [];
    for k := 0 to |m.functions|
      invariant |prog| == k && forall j :: 0 <= j < k ==> IsCompiled(ns, m.functions[j], prog[j])
    {
      var f := m.functions[k];
      var c := Compile(ns, f);
      AlwaysCompiles(m, ns, f);
      prog := prog + [c.value];
    }
  }

  lemma AlwaysCompiles(m: Module, ns: Names, f: Function)
    requires Accepted(m, f) && |ns.atoms| == |m.atoms|
    ensures Scans(f.code, 0) && forall b :: b in Starts(f.code, 0) ==> ResolvesAt(ns, f.code, b)
  {
    VerifiedScans(m, f, 0);
    forall b | b in Starts(f.code, 0) ensures ResolvesAt(ns, f.code, b) { VerifiedResolves(m, ns, f, b); }
  }
}
