/** Verifier soundness: a run of an accepted module never goes wrong on its own code. */
module InterpSafety {
  import opened Bytecode
  import opened Interp
  import opened Verifier

  ghost predicate Boundary(f: Function, pc: nat) { pc in Starts(f.code, 0) }

  /** A frame of an accepted function about to execute the instruction at `pc`. */
  ghost predicate Ready(m: Module, f: Function, pc: nat, regs: seq<Term>)
  {
    Accepted(m, f) && Boundary(f, pc) && |regs| == f.nregs
  }

  /** Every program point a run passes, in the function given and in all it calls. */
  ghost function Visits(fuel: nat, e: Env, f: Function, pc: nat, regs: seq<Term>, log: seq<Req>): set<(Function, nat)>
    decreases fuel, |f.code| - pc
  {
    {(f, pc)} +
    (var d := Decode(f.code, pc);
     if d.None? then {}
     else
       var i := d.value;
       if !IsControl(i.op) then
         var s := Simple(e, i, regs, log);
         if s.Next? then Visits(fuel, e, f, i.next, s.regs, s.log) else {}
       else if Jumped(i, regs) then
         if fuel > 0 && 0 <= Target(i) then Visits(fuel - 1, e, f, Target(i), regs, log) else {}
       else if i.op == JMP_IF then
         if Reg(i, 0) < |regs| && IsInt(regs[Reg(i, 0)]) then Visits(fuel, e, f, i.next, regs, log) else {}
       else if i.op == CALL && fuel > 0 && InFrame(regs, Sources(i)) then
         var args := Fetch(regs, Sources(i));
         var r := RunFunction(fuel - 1, e, Reg(i, 1), args, log);
         (if Reg(i, 1) < |e.m.functions|
          then var g := e.m.functions[Reg(i, 1)]; Visits(fuel - 1, e, g, 0, Frame(g, args), log) else {}) +
         (if r.Done? && r.w != TAIL_SENTINEL && Reg(i, 0) < |regs|
          then Visits(r.left, e, f, i.next, regs[Reg(i, 0) := r.w], r.log) else {})
       else if i.op == CALL_EXT && fuel > 0 && InFrame(regs, Sources(i)) then
         var r := CallOut(fuel - 1, e, ExtOf(e, f.code, i, Fetch(regs, Sources(i))), log);
         if r.Done? && Reg(i, 0) < |regs| then Visits(r.left, e, f, i.next, regs[Reg(i, 0) := r.w], r.log) else {}
       else {})
  }

  ghost predicate Jumped(i: Insn, regs: seq<Term>)
  {
    i.op == JMP || (i.op == JMP_IF && Reg(i, 0) < |regs| && IsInt(regs[Reg(i, 0)]) && IntOf(regs[Reg(i, 0)]) != 0)
  }

  /** No fault of the code itself, and never off an instruction boundary. */
  ghost predicate Sound(o: Outcome, visits: set<(Function, nat)>)
  {
    (o.Broken? ==> o.defect == Elsewhere) && forall v :: v in visits ==> Boundary(v.0, v.1)
  }

  lemma {:induction false} SourcesFromInFrame(m: Module, f: Function, i: Insn, roles: seq<Role>, k: nat, callee: nat,
      regs: seq<Term>)
    requires k <= |i.args| && OperandsOk(m, f, roles, i.args[k..], callee) && |regs| == f.nregs
    ensures InFrame(regs, SourcesFrom(i, roles, k))
    decreases |roles|
  {
    if roles != [] {
      assert i.args[k..][0] == i.args[k] && i.args[k..][1..] == i.args[k + 1..];
      var v := i.args[k];
      SourcesFromInFrame(m, f, i, roles[1..], k + 1, if roles[0].RCallee? && v.Num? then v.n else callee, regs);
    }
  }

  lemma {:induction false} RegInFrame(m: Module, f: Function, roles: seq<Role>, vs: seq<Operand>, callee: nat, k: nat)
    requires OperandsOk(m, f, roles, vs, callee) && k < |roles| && roles[k].RReg?
    ensures vs[k].Num? && vs[k].n < f.nregs
    decreases |roles|
  {
    if k > 0 {
      RegInFrame(m, f, roles[1..], vs[1..], if roles[0].RCallee? && vs[0].Num? then vs[0].n else callee, k - 1);
    }
  }

  /** Operands of a good instruction are where the interpreter looks for them. */
  lemma GoodRegs(m: Module, f: Function, pc: nat, regs: seq<Term>)
    requires Good(m, f, pc) && |regs| == f.nregs
    ensures var i := Decode(f.code, pc).value;
      && (forall k :: 0 <= k < |i.args| && Roles(i.op).value[k].RReg? ==> Reg(i, k) < |regs|)
      && InFrame(regs, Sources(i))
  {
    hide Roles, SourcesFrom;
    var i := Decode(f.code, pc).value;
    var roles := Roles(i.op).value;
    assert |roles| == |i.args|;
    forall k | 0 <= k < |i.args| && roles[k].RReg? ensures Reg(i, k) < |regs| {
      RegInFrame(m, f, roles, i.args, 0, k);
    }
    assert i.args[0..] == i.args;
    if NoResult(i.op) {
      SourcesFromInFrame(m, f, i, roles, 0, 0, regs);
    } else if roles != [] {
      var v := i.args[0];
      SourcesFromInFrame(m, f, i, roles[1..], 1, if roles[0].RCallee? && v.Num? then v.n else 0, regs);
    }
  }

  /** Roles of the operands that the interpreter reads by position. */
  lemma RegisterOperands(op: nat)
    requires Roles(op).Some? && op !in {NOP, JMP, TAIL_CALL, TAIL_CALL_EXT}
    ensures var roles := Roles(op).value;
      && |roles| > 0 && roles[0].RReg?
      && (op == MOVE || op == BNOT ==> |roles| > 1 && roles[1].RReg?)
      && (IsIntOp(op) ==> |roles| > 2 && roles[1].RReg? && roles[2].RReg?)
  {
  }

  lemma SimpleSafe(e: Env, f: Function, pc: nat, regs: seq<Term>, log: seq<Req>)
    requires Good(e.m, f, pc) && |regs| == f.nregs && !IsControl(Decode(f.code, pc).value.op)
    ensures var s := Simple(e, Decode(f.code, pc).value, regs, log);
      (s.Stop? ==> !s.outcome.Broken?) && (s.Next? ==> |s.regs| == |regs|)
  {
    hide Roles, Sources, Imms, IntResult, Global, OperandsOk;
    var i := Decode(f.code, pc).value;
    GoodRegs(e.m, f, pc, regs);
    if i.op != NOP { RegisterOperands(i.op); }
  }

  /** A good call names a function of the module and passes as many arguments as it takes. */
  lemma CallMatches(m: Module, f: Function, pc: nat)
    requires Good(m, f, pc) && Decode(f.code, pc).value.op == CALL
    ensures var i := Decode(f.code, pc).value; Reg(i, 1) < |m.functions| && |Sources(i)| == m.functions[Reg(i, 1)].arity
  {
    var i := Decode(f.code, pc).value;
    var roles := [RReg, RCallee, RArgs];
    assert Roles(CALL).value == roles;
    assert roles[1..] == [RCallee, RArgs] && roles[1..][1..] == [RArgs] && roles[1..][1..][1..] == [];
    assert i.args[1..][0] == i.args[1] && i.args[1..][1..] == i.args[2..] && i.args[2..][0] == i.args[2];
    assert OperandsOk(m, f, roles[1..], i.args[1..], 0);
    assert OperandsOk(m, f, [RArgs], i.args[2..], i.args[1].n);
    assert SourcesFrom(i, [RArgs], 2) == Listed(i, 2) + SourcesFrom(i, [], 3);
    assert SourcesFrom(i, [RCallee, RArgs], 1) == [] + SourcesFrom(i, [RArgs], 2);
  }

  lemma Leads(m: Module, f: Function, pc: nat, regs: seq<Term>)
    requires Ready(m, f, pc, regs)
    ensures Good(m, f, pc) && Decode(f.code, pc).Some?
    ensures var i := Decode(f.code, pc).value;
      && (FallsThrough(i.op) ==> Boundary(f, i.next))
      && (Jumps(i.op) ==> 0 <= Target(i) <= |f.code| && Boundary(f, Target(i)))
  {
    hide Good;
    assert Flows(f, pc);
    GoodDecodes(m, f, pc);
    var i := Decode(f.code, pc).value;
    if Jumps(i.op) { StartsBelow(f.code, 0, Target(i)); }
  }

  lemma GoodRoles(m: Module, f: Function, pc: nat)
    requires Good(m, f, pc)
    ensures var i := Decode(f.code, pc).value; Roles(i.op).Some? && |Roles(i.op).value| == |i.args|
  {
  }

  lemma Enters(m: Module, fi: nat, args: seq<Term>)
    requires Verified(m) && fi < |m.functions| && |args| == m.functions[fi].arity
    ensures Ready(m, m.functions[fi], 0, Frame(m.functions[fi], args)) && m.functions[fi].arity <= m.functions[fi].nregs
  {
  }

  /** In every run of an accepted module, for every system it may run on, however it jumps
      and recurses, decoding, jumps, calls and registers never fail and every program point
      passed is one the verifier scanned. */
  lemma {:induction false} RunSound(fuel: nat, e: Env, f: Function, pc: nat, regs: seq<Term>, log: seq<Req>)
    requires Verified(e.m) && Ready(e.m, f, pc, regs)
    ensures Sound(Exec(fuel, e, f, pc, regs, log), Visits(fuel, e, f, pc, regs, log))
    decreases fuel, |f.code| - pc
  {
    hide Verified, Accepted, Good, Simple, Sources, Imms, Starts, Target, Decode, Roles, Frame, CallOut, ExtOf;
    Leads(e.m, f, pc, regs);
    var i := Decode(f.code, pc).value;
    GoodRegs(e.m, f, pc, regs);
    GoodRoles(e.m, f, pc);
    if i.op !in {NOP, JMP, TAIL_CALL, TAIL_CALL_EXT} { RegisterOperands(i.op); }
    if !IsControl(i.op) {
      SimpleSafe(e, f, pc, regs, log);
      var s := Simple(e, i, regs, log);
      if s.Next? { RunSound(fuel, e, f, i.next, s.regs, s.log); }
    } else if Jumped(i, regs) {
      assert Exec(fuel, e, f, pc, regs, log) == Jump(fuel, e, f, i, regs, log);
      if fuel > 0 { RunSound(fuel - 1, e, f, Target(i), regs, log); }
    } else if i.op == JMP_IF {
      if IsInt(regs[Reg(i, 0)]) { RunSound(fuel, e, f, i.next, regs, log); }
    } else if i.op == CALL && fuel > 0 {
      CallSound(fuel, e, f, pc, regs, log);
    } else if i.op == CALL_EXT && fuel > 0 {
      var r := CallOut(fuel - 1, e, ExtOf(e, f.code, i, Fetch(regs, Sources(i))), log);
      if r.Done? { RunSound(r.left, e, f, i.next, regs[Reg(i, 0) := r.w], r.log); }
    }
  }

  lemma {:induction false} CallSound(fuel: nat, e: Env, f: Function, pc: nat, regs: seq<Term>, log: seq<Req>)
    requires Verified(e.m) && Ready(e.m, f, pc, regs) && Decode(f.code, pc).Some?
      && Decode(f.code, pc).value.op == CALL && fuel > 0
    ensures Sound(Exec(fuel, e, f, pc, regs, log), Visits(fuel, e, f, pc, regs, log))
    decreases fuel, |f.code| - pc, 0
  {
    hide Verified, Accepted, Good, Simple, Sources, Starts, Target, Decode, Roles, Frame;
    Leads(e.m, f, pc, regs);
    var i := Decode(f.code, pc).value;
    GoodRegs(e.m, f, pc, regs);
    GoodRoles(e.m, f, pc);
    RegisterOperands(i.op);
    CallMatches(e.m, f, pc);
    var g, args := e.m.functions[Reg(i, 1)], Fetch(regs, Sources(i));
    Enters(e.m, Reg(i, 1), args);
    RunSound(fuel - 1, e, g, 0, Frame(g, args), log);
    var r := RunFunction(fuel - 1, e, Reg(i, 1), args, log);
    assert r == Exec(fuel - 1, e, g, 0, Frame(g, args), log);
    if r.Done? && r.w != TAIL_SENTINEL { RunSound(r.left, e, f, i.next, regs[Reg(i, 0) := r.w], r.log); }
  }

  /** Started with matching arity, a function of an accepted module ends in a value, in a trap
      its data, the system or an external call raised, or runs on. */
  lemma VerifiedRuns(fuel: nat, e: Env, fi: nat, args: seq<Term>, log: seq<Req>)
    requires Verified(e.m) && fi < |e.m.functions| && |args| == e.m.functions[fi].arity
    ensures var o := RunFunction(fuel, e, fi, args, log); o.Broken? ==> o.defect == Elsewhere
  {
    Enters(e.m, fi, args);
    RunSound(fuel, e, e.m.functions[fi], 0, Frame(e.m.functions[fi], args), log);
  }
}
