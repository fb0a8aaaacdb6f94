/** Runs of different worlds compared by their logs, notes in the registry aside. */
module LogErasure {
  import opened Basics
  import opened Bytecode
  import opened Interp
  import opened Lowering
  import opened Blocks
  import opened Simulation
  import opened Sentinels
  import opened Trampoline
  import opened StashSafety

  function Erase(log: seq<Req>): seq<Req>
  {
    if log == [] then []
    else
      var last := log[|log| - 1];
      Erase(log[..|log| - 1]) + if last.op == NOTE then [] else [last]
  }

  ghost predicate Alike(a: Outcome, b: Outcome) { a.(log := Erase(a.log)) == b.(log := Erase(b.log)) }

  /** A SPAWN after `from` was looked up in another instance than the executing one. */
  ghost predicate Strays(log: seq<Req>, from: nat) { exists k :: from <= k < |log| && log[k].op == STRAY }

  lemma EraseMore(log: seq<Req>, r: Req)
    ensures Erase(log + [r]) == Erase(log) + if r.op == NOTE then [] else [r]
  {
    assert (log + [r])[..|log|] == log;
  }

  lemma RunningMore(log: seq<Req>, r: Req)
    ensures Running(log + [r]) == if r.op == NOTE && |r.imms| == 2 then Some((r.imms[0], r.imms[1])) else Running(log)
  {
    assert (log + [r])[..|log|] == log;
  }

  lemma {:induction false} ErasePrefix(a: seq<Req>, b: seq<Req>)
    requires a <= b
    ensures Erase(a) <= Erase(b)
    decreases |b|
  {
    if |a| < |b| { ErasePrefix(a, b[..|b| - 1]); } else { assert a == b; }
  }

  lemma {:induction false} StashErased(log: seq<Req>)
    ensures Stash(log) == Stash(Erase(log))
    decreases |log|
  {
    if log != [] {
      var rest, last := log[..|log| - 1], log[|log| - 1];
      StashErased(rest);
      if last.op == NOTE {
        assert Erase(log) == Erase(rest);
      } else {
        assert (Erase(rest) + [last])[..|Erase(rest)|] == Erase(rest);
      }
    }
  }

  /** Entries other than notes stay where they are among themselves. */
  lemma {:induction false} EraseKeeps(log: seq<Req>, from: nat)
    requires from <= |log|
    ensures Strays(Erase(log), |Erase(log[..from])|) <==> Strays(log, from)
    decreases |log|
  {
    if from < |log| {
      var rest, last := log[..|log| - 1], log[|log| - 1];
      EraseKeeps(rest, from);
      assert rest[..from] == log[..from] && log == rest + [last];
      ErasePrefix(log[..from], rest);
      var er := Erase(rest);
      assert Erase(log) == er + if last.op == NOTE then [] else [last];
      if k :| from <= k < |rest| && rest[k].op == STRAY { assert log[k].op == STRAY; }
      if k :| |Erase(log[..from])| <= k < |er| && er[k].op == STRAY { assert Erase(log)[k].op == STRAY; }
      if last.op == STRAY { assert log[|rest|].op == STRAY && Erase(log)[|er|].op == STRAY; }
      if Strays(log, from) {
        var k :| from <= k < |log| && log[k].op == STRAY;
        if k < |rest| { assert rest[k].op == STRAY; }
      }
      if Strays(Erase(log), |Erase(log[..from])|) {
        var k :| |Erase(log[..from])| <= k < |Erase(log)| && Erase(log)[k].op == STRAY;
        if k < |er| { assert er[k].op == STRAY; }
      }
    } else {
      assert log[..from] == log;
    }
  }

  /** The log is added to, and with `home` no SPAWN goes astray. */
  ghost predicate Adds(home: bool, a: seq<Req>, b: seq<Req>) { a <= b && (home ==> !Strays(b, |a|)) }

  lemma AddsJoin(home: bool, a: seq<Req>, b: seq<Req>, c: seq<Req>)
    requires Adds(home, a, b) && Adds(home, b, c)
    ensures Adds(home, a, c)
  {
    if home {
      forall k | |a| <= k < |c| ensures c[k].op != STRAY {
        if k < |b| { assert b[k].op != STRAY; }
      }
    }
  }

  lemma AddsOne(home: bool, log: seq<Req>, r: Req)
    requires r.op != STRAY
    ensures Adds(home, log, log) && Adds(home, log, log + [r])
  {
  }

  /** So it is by whatever serves external calls, and spawned functions are looked up here. */
  ghost predicate GoesOn(home: bool, e: Env)
  {
    && (forall k: nat, x, log :: Adds(home, log, e.ext(k, x, log).log))
    && (home ==> forall k: nat, log :: e.home(k, log).here)
  }

  lemma ServeExtends(home: bool, e: Env, r: Req, log: seq<Req>)
    requires GoesOn(home, e) && r.op < 256
    ensures Adds(home, log, Serve(e, r, log).log)
  {
    hide Strays;
    AddsOne(home, log, r);
    if r.op == SPAWN {
      var last := Serve(e, r, log).log[|log| + 1];
      if last.op != STRAY {
        AddsOne(home, log + [r], last);
        AddsJoin(home, log, log + [r], log + [r] + [last]);
      }
    }
  }

  lemma SimpleExtends(home: bool, e: Env, i: Insn, regs: seq<Term>, log: seq<Req>)
    requires GoesOn(home, e) && i.op < 256
    ensures var s := Simple(e, i, regs, log); Adds(home, log, if s.Next? then s.log else s.outcome.log)
  {
    hide Sources, Imms, Arith, Serve, Adds, GoesOn;
    AddsOne(home, log, Took);
    if InFrame(regs, Sources(i)) {
      ServeExtends(home, e, Req(i.op, Imms(e.names, i), BlobOf(i), Fetch(regs, Sources(i))), log);
    }
  }

  lemma CallOutExtends(home: bool, fuel: nat, e: Env, x: Ext, log: seq<Req>)
    requires GoesOn(home, e)
    ensures Adds(home, log, CallOut(fuel, e, x, log).log)
  {
    hide Strays;
    AddsOne(home, log, Called(x));
    AddsJoin(home, log, log + [Called(x)], e.ext(fuel, x, log + [Called(x)]).log);
  }

  lemma {:induction false} ExecExtends(home: bool, fuel: nat, e: Env, f: Function, pc: nat, regs: seq<Term>,
                                       log: seq<Req>)
    requires GoesOn(home, e)
    ensures Adds(home, log, Exec(fuel, e, f, pc, regs, log).log)
    decreases fuel, 0, |f.code| - pc
  {
    hide Simple, Sources, Imms, Decode, Target, CallOut, Frame, Adds, GoesOn;
    AddsOne(home, log, Took);
    var d := Decode(f.code, pc);
    if d.Some? {
      DecodedAt(f.code, pc);
      DecodeAdvances(f.code, pc);
      var i := d.value;
      if !IsControl(i.op) {
        SimpleExtends(home, e, i, regs, log);
        var s := Simple(e, i, regs, log);
        if s.Next? {
          ExecExtends(home, fuel, e, f, i.next, s.regs, s.log);
          AddsJoin(home, log, s.log, Exec(fuel, e, f, i.next, s.regs, s.log).log);
        }
      } else {
        ControlExtends(home, fuel, e, f, pc, regs, log);
      }
    }
  }

  lemma {:induction false} ControlExtends(home: bool, fuel: nat, e: Env, f: Function, pc: nat, regs: seq<Term>,
                                          log: seq<Req>)
    requires GoesOn(home, e) && Decode(f.code, pc).Some? && IsControl(Decode(f.code, pc).value.op)
    ensures Adds(home, log, Control(fuel, e, f, pc, Decode(f.code, pc).value, regs, log).log)
    decreases fuel, 0, |f.code| - pc, 0
  {
    hide Simple, Sources, Imms, Decode, Target, CallOut, Frame, Adds, GoesOn, Exec, RunFunction;
    var i := Decode(f.code, pc).value;
    DecodeAdvances(f.code, pc);
    AddsOne(home, log, Took);
    if i.op == JMP_IF && Reg(i, 0) < |regs| && IsInt(regs[Reg(i, 0)]) && IntOf(regs[Reg(i, 0)]) == 0 {
      ExecExtends(home, fuel, e, f, i.next, regs, log);
    } else if i.op == JMP || i.op == JMP_IF {
      if 0 <= Target(i) <= |f.code| && fuel > 0 { ExecExtends(home, fuel - 1, e, f, Target(i), regs, log); }
    } else if (i.op == CALL || i.op == CALL_EXT) && InFrame(regs, Sources(i)) && fuel > 0 {
      var args := Fetch(regs, Sources(i));
      var r := if i.op == CALL then RunFunction(fuel - 1, e, Reg(i, 1), args, log)
        else CallOut(fuel - 1, e, ExtOf(e, f.code, i, args), log);
      if i.op == CALL {
        FunctionExtends(home, fuel - 1, e, Reg(i, 1), args, log);
      } else {
        CallOutExtends(home, fuel - 1, e, ExtOf(e, f.code, i, args), log);
      }
      if r.Done? && Reg(i, 0) < |regs| {
        ExecExtends(home, r.left, e, f, i.next, regs[Reg(i, 0) := r.w], r.log);
        AddsJoin(home, log, r.log, Exec(r.left, e, f, i.next, regs[Reg(i, 0) := r.w], r.log).log);
      }
    } else if TailOp(i.op) && InFrame(regs, Sources(i)) {
      AddsOne(home, log, Req(i.op, Imms(e.names, i), [], Fetch(regs, Sources(i))));
    }
  }

  lemma DecodeAdvances(code: seq<Byte>, pc: nat)
    requires Decode(code, pc).Some?
    ensures pc < Decode(code, pc).value.next <= |code|
  {
  }

  lemma {:induction false} FunctionExtends(home: bool, fuel: nat, e: Env, fi: nat, args: seq<Term>, log: seq<Req>)
    requires GoesOn(home, e)
    ensures Adds(home, log, RunFunction(fuel, e, fi, args, log).log)
    decreases fuel, 1, 0
  {
    hide Adds, GoesOn;
    AddsOne(home, log, Took);
    if fi < |e.m.functions| {
      var f := e.m.functions[fi];
      if |args| == f.arity && f.nregs >= |args| { ExecExtends(home, fuel, e, f, 0, Frame(f, args), log); }
    }
  }

  lemma StepExtends(e: Env, ir: Ir, regs: seq<Term>, log: seq<Req>)
    requires Straight(ir) && GoesOn(false, e)
    ensures var s := StepIr(e, ir, regs, log); log <= if s.Next? then s.log else s.outcome.log
  {
    hide MachineResult, Serve;
    if ir.CallHelper? && InFrame(regs, ir.regs) {
      ServeExtends(false, e, Req(Carries(ir.h), ir.imms, ir.blob, Fetch(regs, ir.regs)), log);
    }
  }

  lemma {:induction false} OpsExtends(fuel: nat, e: Env, prog: seq<Compiled>, c: Compiled, at: nat, ops: seq<Ir>,
                                      regs: seq<Term>, log: seq<Req>)
    requires GoesOn(false, e)
    ensures log <= RunOps(fuel, e, prog, c, at, ops, regs, log).log
    decreases fuel, 0, c.size - at, |ops|
  {
    hide StepIr, CallOut, ExpectInt, GoesOn;
    if ops != [] {
      if Straight(ops[0]) {
        StepExtends(e, ops[0], regs, log);
        var s := StepIr(e, ops[0], regs, log);
        if s.Next? { OpsExtends(fuel, e, prog, c, at, ops[1..], s.regs, s.log); }
      } else {
        match ops[0]
        case Fall(t) =>
          if at < t < c.size && t in c.blocks { OpsExtends(fuel, e, prog, c, t, c.blocks[t], regs, log); }
        case Goto(t) =>
          if t in c.blocks && fuel > 0 { OpsExtends(fuel - 1, e, prog, c, t, c.blocks[t], regs, log); }
        case Branch(rc, t, k) =>
          if t in c.blocks && fuel > 0 { OpsExtends(fuel - 1, e, prog, c, t, c.blocks[t], regs, log); }
          if at < k < c.size && k in c.blocks { OpsExtends(fuel, e, prog, c, k, c.blocks[k], regs, log); }
        case CallSibling(rd, callee, rs) =>
          if InFrame(regs, rs) && fuel > 0 {
            CompiledExtends(fuel - 1, e, prog, callee, Fetch(regs, rs), log);
            var r := RunCompiled(fuel - 1, e, prog, callee, Fetch(regs, rs), log);
            if r.Done? && rd < |regs| { OpsExtends(r.left, e, prog, c, at, ops[1..], regs[rd := r.w], r.log); }
          }
        case CallExtern(rd, site, module_, name, rs) =>
          if InFrame(regs, rs) && fuel > 0 {
            var x := Ext(site, module_, name, Fetch(regs, rs));
            CallOutExtends(false, fuel - 1, e, x, log);
            var r := CallOut(fuel - 1, e, x, log);
            if r.Done? && rd < |regs| { OpsExtends(r.left, e, prog, c, at, ops[1..], regs[rd := r.w], r.log); }
          }
        case _ =>
      }
    }
  }

  lemma {:induction false} CompiledExtends(fuel: nat, e: Env, prog: seq<Compiled>, fi: nat, args: seq<Term>,
                                           log: seq<Req>)
    requires GoesOn(false, e)
    ensures log <= RunCompiled(fuel, e, prog, fi, args, log).log
    decreases fuel, 1, 0
  {
    hide GoesOn;
    if fi < |prog| {
      var c := prog[fi];
      if |args| == c.arity && c.nregs >= |args| && 0 in c.blocks {
        OpsExtends(fuel, e, prog, c, 0, c.blocks[0], args + seq(c.nregs - |args|, _ => NIL), log);
      }
    }
  }

  /** In every world a log is only added to; interpreted, with no stray SPAWN. */
  lemma {:induction false} EnvExtends(home: bool, w: World, inst: Instance, g: Engine, n: nat)
    requires home ==> Plain(w) && !g.Native?
    ensures GoesOn(home, EnvOf(w, inst, g, n))
    decreases n, 0
  {
    hide Extern, Adds, EnvOf;
    EnvFields(w, inst, g, n);
    var e := EnvOf(w, inst, g, n);
    forall k: nat, x, log ensures Adds(home, log, e.ext(k, x, log).log) {
      if k < n {
        ExternExtends(home, k, w, inst, g.Native?, x, log);
      } else {
        SpentOut(w, inst, g, n, k, x, log);
        AddsOne(home, log, Took);
      }
    }
  }

  lemma SpentOut(w: World, inst: Instance, g: Engine, n: nat, k: nat, x: Ext, log: seq<Req>)
    requires k >= n
    ensures EnvOf(w, inst, g, n).ext(k, x, log) == Spent(log)
  {
  }

  lemma {:induction false} OnceExtends(home: bool, fuel: nat, w: World, inst: Instance, fi: nat, args: seq<Term>,
                                       log: seq<Req>)
    requires home ==> Plain(w)
    ensures Adds(home, log, RunOnce(fuel, w, inst, fi, args, log).log)
    decreases fuel, 1
  {
    hide EnvOf, GoesOn, Strays;
    var g := EngineFor(w, inst, args);
    var e := EnvOf(w, inst, g, fuel);
    EnvExtends(home, w, inst, g, fuel);
    if g.Native? {
      CompiledExtends(fuel, e, g.prog, fi, args, log);
    } else {
      FunctionExtends(home, fuel, e, fi, args, log);
    }
  }

  lemma {:induction false} ResumeExtends(home: bool, fuel: nat, w: World, inst: Instance, log: seq<Req>)
    requires home ==> Plain(w)
    ensures Adds(home, log, Resume(fuel, w, inst, log).log)
    decreases fuel, 1
  {
    hide NextTarget, Stash, Invoked, Adds, Plain;
    var target, log' := Stash(log), log + [Took];
    AddsOne(home, log, Took);
    if target.Some? {
      var h := NextTarget(w, inst, target.value, log');
      if h.Enter? {
        var log'' := Entering(target.value, h.inst, log');
        AddsOne(home, log', Note(h.inst));
        AddsJoin(home, log, log', log'');
        if fuel > 0 {
          InvokedExtends(home, fuel - 1, w, h.inst, h.fi, h.args, log'');
          AddsJoin(home, log, log'', Invoked(fuel - 1, w, h.inst, h.fi, h.args, log'').log);
        }
      }
    }
  }

  lemma {:induction false} InvokedExtends(home: bool, fuel: nat, w: World, inst: Instance, fi: nat, args: seq<Term>,
                                          log: seq<Req>)
    requires home ==> Plain(w)
    ensures Adds(home, log, Invoked(fuel, w, inst, fi, args, log).log)
    decreases fuel, 2
  {
    hide RunOnce, Resume, Adds, Plain;
    OnceExtends(home, fuel, w, inst, fi, args, log);
    var o := RunOnce(fuel, w, inst, fi, args, log);
    if o.Done? {
      ResumeExtends(home, o.left, w, inst, o.log);
      AddsJoin(home, log, o.log, Resume(o.left, w, inst, o.log).log);
    }
  }

  lemma {:induction false} DynamicExtends(home: bool, fuel: nat, w: World, x: Ext, log: seq<Req>)
    requires home ==> Plain(w)
    ensures Adds(home, log, Dynamic(fuel, w, x, log).log)
    decreases fuel, 3
  {
    hide Invoked, Resolve, Adds, Plain;
    AddsOne(home, log, Took);
    var h := Resolve(w.table(log), x.module_, x.name, x.args);
    if h.Enter? {
      AddsOne(home, log, Note(h.inst));
      InvokedExtends(home, fuel, w, h.inst, h.fi, h.args, log + [Note(h.inst)]);
      AddsJoin(home, log, log + [Note(h.inst)], Invoked(fuel, w, h.inst, h.fi, h.args, log + [Note(h.inst)]).log);
    }
  }

  lemma BackExtends(home: bool, log: seq<Req>, o: Outcome, caller: Option<Instance>)
    requires Adds(home, log, o.log)
    ensures Adds(home, log, Back(o, caller).log)
  {
    hide Adds;
    if caller.Some? {
      AddsOne(home, o.log, Note(caller.value));
      AddsJoin(home, log, o.log, o.log + [Note(caller.value)]);
    }
  }

  lemma {:induction false} ExternExtends(home: bool, fuel: nat, w: World, inst: Instance, native: bool, x: Ext,
                                         log: seq<Req>)
    requires home ==> Plain(w) && !native
    ensures Adds(home, log, Extern(fuel, w, inst, native, x, log).log)
    decreases fuel, 4
  {
    hide Dynamic, RunOnce, Resume, Lookup, Adds, Plain, Running;
    DynamicExtends(home, fuel, w, x, log);
    BackExtends(home, log, Dynamic(fuel, w, x, log), Some(inst));
    BackExtends(home, log, Dynamic(fuel, w, x, log), Lookup(w.table(log), Running(log)));
    var t := w.bind(inst, x.site, x.module_, x.name);
    if native && t.Some? {
      OnceExtends(home, fuel, w, t.value.inst, t.value.fi, x.args, log);
      var o := RunOnce(fuel, w, t.value.inst, t.value.fi, x.args, log);
      if o.Done? {
        ResumeExtends(home, o.left, w, t.value.inst, o.log);
        AddsJoin(home, log, o.log, Resume(o.left, w, t.value.inst, o.log).log);
        BackExtends(home, log, Resume(o.left, w, t.value.inst, o.log), Lookup(w.table(o.log), Running(o.log)));
      }
    }
  }
}
