/** The one stash that nested trampolines share, at every moment of every run. */
module StashSafety {
  import opened Basics
  import opened Bytecode
  import opened Verifier
  import opened Interp
  import opened InterpSafety
  import opened Simulation
  import opened Sentinels
  import opened Trampoline

  /** Whatever the table holds at any moment has been verified. */
  ghost predicate Loaded(w: World)
  {
    forall log, name :: name in w.table(log) ==> Verified(w.table(log)[name].current.m)
  }

  /** A bound function is verified, takes that many arguments, and is checked if it may
      tail-call. */
  ghost predicate Fits(t: ExtTarget)
  {
    && Verified(t.inst.m) && t.fi < |t.inst.m.functions| && t.inst.m.functions[t.fi].arity == t.arity
    && (!t.mayTail ==> !MayTail(t.inst.m, t.fi))
  }

  ghost predicate Bound(w: World)
  {
    forall inst, site, m, name :: w.bind(inst, site, m, name).Some? ==> Fits(w.bind(inst, site, m, name).value)
  }

  /** Compiled instances run what the compiler makes of them. */
  ghost predicate Coded(w: World)
  {
    forall inst :: w.code(inst).Native? ==> IsProgram(inst.m, NamesOf(w, inst), w.code(inst).prog)
  }

  /** A world to run in, interpreted or compiled, dispatched or bound, on a system whose
      replies are terms. */
  ghost predicate Sane(w: World) { Loaded(w) && Bound(w) && Coded(w) && TermsOnly(w.sys) }

  /** Every instance interpreted, so every external call dispatched dynamically. */
  ghost predicate Plain(w: World) { forall inst :: !w.code(inst).Native? }

  /** An invocation that finds its arguments: the right number, all terms. */
  ghost predicate Callable(inst: Instance, fi: nat, args: seq<Term>)
  {
    Verified(inst.m) && fi < |inst.m.functions| && |args| == inst.m.functions[fi].arity && Clean(args)
  }

  /** A stashed target a trampoline running module `m` can enter. */
  ghost predicate TargetOk(m: Module, r: Req)
  {
    && TailOp(r.op) && Clean(r.args)
    && (r.op == TAIL_CALL ==> |r.imms| == 1 && r.imms[0] < |m.functions| && |r.args| == m.functions[r.imms[0]].arity)
    && (r.op == TAIL_CALL_EXT ==> |r.imms| == 2)
  }

  /** Entry `k` fills the stash iff it is taken next, or is the end and `full` says so; a take
      comes only after a fill. */
  ghost predicate Paired(log: seq<Req>, from: nat, k: nat, full: bool)
    requires k < |log|
  {
    && (TailOp(log[k].op) <==> if k + 1 < |log| then log[k + 1] == Took else full)
    && (log[k].op == TAKE ==> k > from && TailOp(log[k - 1].op))
  }

  /** From `from` on, fills and takes alternate with nothing between a fill and its take. */
  ghost predicate Alternates(log: seq<Req>, from: nat, full: bool)
  {
    from <= |log| && (forall k :: from <= k < |log| ==> Paired(log, from, k, full)) && (full ==> from < |log|)
  }

  lemma AlternatesJoin(a: nat, mid: seq<Req>, log: seq<Req>, full: bool)
    requires Alternates(mid, a, false) && mid <= log && Alternates(log, |mid|, full)
    ensures Alternates(log, a, full)
  {
    forall k | a <= k < |log| ensures Paired(log, a, k, full) {
      if k < |mid| {
        assert Paired(mid, a, k, false);
        if k + 1 == |mid| < |log| { assert Paired(log, |mid|, k + 1, full); }
      } else {
        assert Paired(log, |mid|, k, full);
      }
    }
  }

  lemma AlternatesOne(log: seq<Req>, r: Req)
    requires r.op != TAKE
    ensures Alternates(log + [r], |log|, TailOp(r.op)) && Alternates(log, |log|, false)
  {
  }

  lemma AlternatesTaken(log: seq<Req>, from: nat)
    requires Alternates(log, from, true)
    ensures Alternates(log + [Took], from, false)
    ensures from < |log| && Stash(log) == Some(log[|log| - 1]) && TailOp(log[|log| - 1].op)
  {
    assert Paired(log, from, |log| - 1, true);
    forall k | from <= k < |log + [Took]| ensures Paired(log + [Took], from, k, false) {
      if k < |log| { assert Paired(log, from, k, true); }
    }
  }

  ghost predicate Sent(o: Outcome) { o.Done? && o.w == TAIL_SENTINEL }

  /** A run from `log`: its requests pair up, and it ends with the stash full iff it returned
      the sentinel, and then with a target that fits the module that ran. */
  ghost predicate RunOk(m: Module, log: seq<Req>, o: Outcome)
  {
    && log <= o.log && Alternates(o.log, |log|, Sent(o)) && !o.Broken?
    && (Sent(o) ==> TargetOk(m, o.log[|o.log| - 1]))
  }

  /** An invocation from `log`: every fill is taken. */
  ghost predicate Settled(log: seq<Req>, o: Outcome)
  {
    log <= o.log && Alternates(o.log, |log|, false) && !o.Broken?
  }

  lemma RunFrom(m: Module, log: seq<Req>, mid: seq<Req>, o: Outcome)
    requires log <= mid && Alternates(mid, |log|, false) && RunOk(m, mid, o)
    ensures RunOk(m, log, o)
  {
    hide Alternates, TargetOk;
    AlternatesJoin(|log|, mid, o.log, Sent(o));
  }

  lemma SettledFrom(log: seq<Req>, mid: seq<Req>, o: Outcome)
    requires log <= mid && Alternates(mid, |log|, false) && Settled(mid, o)
    ensures Settled(log, o)
  {
    hide Alternates;
    AlternatesJoin(|log|, mid, o.log, false);
  }

  lemma EnteringLogs(target: Req, inst: Instance, log: seq<Req>)
    ensures var log' := Entering(target, inst, log); log <= log' && Alternates(log', |log|, false)
  {
    AlternatesOne(log, Note(inst));
  }

  lemma StopsHere(m: Module, log: seq<Req>, o: Outcome)
    requires o.log == log && !Sent(o) && !o.Broken?
    ensures RunOk(m, log, o)
  {
  }

  lemma TailMatches(m: Module, ns: Names, f: Function, pc: nat)
    requires Good(m, f, pc) && TailOp(Decode(f.code, pc).value.op)
    ensures var i := Decode(f.code, pc).value;
      && (i.op == TAIL_CALL ==>
            Imms(ns, i) == [Reg(i, 0)] && Reg(i, 0) < |m.functions| && |Sources(i)| == m.functions[Reg(i, 0)].arity)
      && (i.op == TAIL_CALL_EXT ==> |Imms(ns, i)| == 2)
  {
    hide SourcesFrom, ImmsFrom, RegsOf;
    var i := Decode(f.code, pc).value;
    if i.op == TAIL_CALL {
      assert Roles(TAIL_CALL).value == [RCallee, RArgs] && [RCallee, RArgs][1..] == [RArgs] && [RArgs][1..] == [];
      Operands2(ns, i, RCallee, RArgs, 0);
      Operands1(ns, i, RArgs, 1);
      assert OperandsOk(m, f, [RArgs], i.args[1..], i.args[0].n);
      assert RegsOf(i, RArgs, 1) == Listed(i, 1) by { ArgsListed(i, 1); }
    } else {
      Operands3(ns, i, RAtom, RAtom, RRegs, 0);
    }
  }

  lemma ArgsListed(i: Insn, k: nat)
    ensures RegsOf(i, RArgs, k) == Listed(i, k)
  {
  }

  lemma ServeLogs(e: Env, r: Req, log: seq<Req>)
    requires r.op < 256 && !TailOp(r.op)
    ensures log <= Serve(e, r, log).log && Alternates(Serve(e, r, log).log, |log|, false)
  {
    hide Alternates;
    AlternatesOne(log, r);
    if r.op == SPAWN {
      var last := Serve(e, r, log).log[|log| + 1];
      AlternatesOne(log + [r], last);
      AlternatesJoin(|log|, log + [r], log + [r] + [last], false);
    }
  }

  /** What a straight-line instruction adds to the log. */
  lemma SimpleLogs(e: Env, i: Insn, regs: seq<Term>, log: seq<Req>)
    requires !IsControl(i.op) && i.op < 256
    ensures var s := Simple(e, i, regs, log); var log' := if s.Next? then s.log else s.outcome.log;
      log <= log' && Alternates(log', |log|, false)
  {
    hide Sources, Imms, Arith, Alternates, Serve;
    AlternatesOne(log, Req(i.op, [], [], []));
    if InFrame(regs, Sources(i)) {
      ServeLogs(e, Req(i.op, Imms(e.names, i), BlobOf(i), Fetch(regs, Sources(i))), log);
    }
  }

  /** Straight-line code does not look at what serves the external calls. */
  lemma SimpleSame(e: Env, e': Env, i: Insn, regs: seq<Term>, log: seq<Req>)
    requires e.names == e'.names && e.sys == e'.sys && e.wraps == e'.wraps
    requires forall k: nat, log :: e.home(k, log) == e'.home(k, log)
    ensures Simple(e, i, regs, log) == Simple(e', i, regs, log)
  {
    hide Sources, Imms, Arith;
  }

  lemma TailRequest(m: Module, ns: Names, f: Function, pc: nat, regs: seq<Term>, log: seq<Req>)
    requires Good(m, f, pc) && TailOp(Decode(f.code, pc).value.op) && Clean(regs) && |regs| == f.nregs
    requires InFrame(regs, Sources(Decode(f.code, pc).value))
    ensures var i := Decode(f.code, pc).value; var r := Req(i.op, Imms(ns, i), [], Fetch(regs, Sources(i)));
      TargetOk(m, r) && forall left: nat :: RunOk(m, log, Done(TAIL_SENTINEL, log + [r], left))
  {
    hide Sources, Imms, Decode, Good, Alternates;
    GoodDecodes(m, f, pc);
    TailMatches(m, ns, f, pc);
    var i := Decode(f.code, pc).value;
    AlternatesOne(log, Req(i.op, Imms(ns, i), [], Fetch(regs, Sources(i))));
  }

  lemma HopCallable(w: World, inst: Instance, target: Req, log: seq<Req>)
    requires Loaded(w) && Verified(inst.m) && TargetOk(inst.m, target)
    ensures var h := NextTarget(w, inst, target, log); h.Enter? ==> Callable(h.inst, h.fi, h.args)
    ensures var h := NextTarget(w, inst, target, log); target.op == TAIL_CALL ==> h.Enter? && h.inst == inst
  {
    hide Verified;
  }

  /** External calls with less fuel than `n` settle and answer with terms. */
  ghost predicate Serves(e: Env, n: nat)
  {
    forall k: nat, x: Ext, log :: k < n && Clean(x.args) ==> Settled(log, e.ext(k, x, log)) && !Sent(e.ext(k, x, log))
  }

  lemma CallOutSettles(fuel: nat, n: nat, e: Env, x: Ext, log: seq<Req>)
    requires Serves(e, n) && fuel < n && Clean(x.args)
    ensures Settled(log, CallOut(fuel, e, x, log)) && !Sent(CallOut(fuel, e, x, log))
  {
    hide Alternates;
    var log' := log + [Called(x)];
    AlternatesOne(log, Called(x));
    SettledFrom(log, log', e.ext(fuel, x, log'));
  }

  /** The run half: every frame of a verified function, calls and external calls included. */
  lemma {:induction false} RunPairs(fuel: nat, n: nat, e: Env, f: Function, pc: nat, regs: seq<Term>, log: seq<Req>)
    requires Verified(e.m) && Serves(e, n) && TermsOnly(e.sys)
    requires Ready(e.m, f, pc, regs) && Clean(regs) && fuel <= n
    ensures RunOk(e.m, log, Exec(fuel, e, f, pc, regs, log))
    decreases fuel, |f.code| - pc, 1
  {
    hide Verified, Accepted, Good, Simple, Sources, Imms, Starts, Target, Decode, Roles, Serves, RunOk, Alternates;
    Leads(e.m, f, pc, regs);
    GoodRoles(e.m, f, pc);
    GoodRegs(e.m, f, pc, regs);
    DecodedAt(f.code, pc);
    var i := Decode(f.code, pc).value;
    if i.op !in {NOP, JMP, TAIL_CALL, TAIL_CALL_EXT} { RegisterOperands(i.op); }
    if !IsControl(i.op) {
      SimplePairs(fuel, n, e, f, pc, regs, log);
    } else if Jumped(i, regs) {
      assert Exec(fuel, e, f, pc, regs, log) == Jump(fuel, e, f, i, regs, log);
      if fuel > 0 {
        RunPairs(fuel - 1, n, e, f, Target(i), regs, log);
      } else {
        StopsHere(e.m, log, Spent(log));
      }
    } else if i.op == JMP_IF {
      if IsInt(regs[Reg(i, 0)]) {
        RunPairs(fuel, n, e, f, i.next, regs, log);
      } else {
        StopsHere(e.m, log, Trapped(Badarg, log));
      }
    } else if i.op == CALL || i.op == CALL_EXT {
      if fuel == 0 {
        StopsHere(e.m, log, Spent(log));
      } else if i.op == CALL {
        CallPairs(fuel, n, e, f, pc, regs, log);
      } else {
        ExternPairs(fuel, n, e, f, pc, regs, log);
      }
    } else if TailOp(i.op) {
      TailRequest(e.m, e.names, f, pc, regs, log);
    } else if i.op == RET {
      ReturnsClean(e, f, pc, regs);
      StopsHere(e.m, log, Done(regs[Reg(i, 0)], log, fuel));
    } else {
      var w := regs[Reg(i, 0)];
      StopsHere(e.m, log, Trapped(if IsAtom(w) then Exit(AtomOf(w)) else Badarg, log));
    }
  }

  lemma {:induction false} SimplePairs(fuel: nat, n: nat, e: Env, f: Function, pc: nat, regs: seq<Term>,
                                       log: seq<Req>)
    requires Verified(e.m) && Serves(e, n) && TermsOnly(e.sys)
    requires Ready(e.m, f, pc, regs) && Clean(regs) && fuel <= n
    requires Decode(f.code, pc).Some? && !IsControl(Decode(f.code, pc).value.op)
    ensures RunOk(e.m, log, Exec(fuel, e, f, pc, regs, log))
    decreases fuel, |f.code| - pc, 0
  {
    hide Verified, Accepted, Good, Simple, Starts, Target, Decode, Serves, Alternates, TargetOk;
    var i := Decode(f.code, pc).value;
    Leads(e.m, f, pc, regs);
    DecodedAt(f.code, pc);
    SimpleClean(e, i, regs, log);
    SimpleSafe(e, f, pc, regs, log);
    SimpleLogs(e, i, regs, log);
    var s := Simple(e, i, regs, log);
    if s.Next? {
      RunPairs(fuel, n, e, f, i.next, s.regs, s.log);
      RunFrom(e.m, log, s.log, Exec(fuel, e, f, i.next, s.regs, s.log));
    }
  }

  lemma {:induction false} CallPairs(fuel: nat, n: nat, e: Env, f: Function, pc: nat, regs: seq<Term>, log: seq<Req>)
    requires Verified(e.m) && Serves(e, n) && TermsOnly(e.sys)
    requires Ready(e.m, f, pc, regs) && Clean(regs) && 0 < fuel <= n
    requires Decode(f.code, pc).Some? && Decode(f.code, pc).value.op == CALL
    ensures RunOk(e.m, log, Exec(fuel, e, f, pc, regs, log))
    decreases fuel, |f.code| - pc, 0
  {
    hide Verified, Accepted, Good, Sources, Starts, Target, Decode, Serves, Alternates, TargetOk, Frame, Roles;
    var i := Decode(f.code, pc).value;
    Leads(e.m, f, pc, regs);
    GoodRoles(e.m, f, pc);
    GoodRegs(e.m, f, pc, regs);
    RegisterOperands(CALL);
    CallMatches(e.m, f, pc);
    var callee, args := Reg(i, 1), Fetch(regs, Sources(i));
    var h := e.m.functions[callee];
    Enters(e.m, callee, args);
    FrameClean(h, args);
    RunPairs(fuel - 1, n, e, h, 0, Frame(h, args), log);
    var r := RunFunction(fuel - 1, e, callee, args, log);
    assert r == Exec(fuel - 1, e, h, 0, Frame(h, args), log);
    if r.Done? && r.w != TAIL_SENTINEL {
      var regs' := regs[Reg(i, 0) := r.w];
      RunPairs(r.left, n, e, f, i.next, regs', r.log);
      RunFrom(e.m, log, r.log, Exec(r.left, e, f, i.next, regs', r.log));
    }
  }

  lemma {:induction false} ExternPairs(fuel: nat, n: nat, e: Env, f: Function, pc: nat, regs: seq<Term>,
                                       log: seq<Req>)
    requires Verified(e.m) && Serves(e, n) && TermsOnly(e.sys)
    requires Ready(e.m, f, pc, regs) && Clean(regs) && 0 < fuel <= n
    requires Decode(f.code, pc).Some? && Decode(f.code, pc).value.op == CALL_EXT
    ensures RunOk(e.m, log, Exec(fuel, e, f, pc, regs, log))
    decreases fuel, |f.code| - pc, 0
  {
    hide Verified, Accepted, Good, Sources, Starts, Target, Decode, Serves, Alternates, TargetOk, Roles, CallOut;
    var i := Decode(f.code, pc).value;
    Leads(e.m, f, pc, regs);
    GoodRoles(e.m, f, pc);
    GoodRegs(e.m, f, pc, regs);
    RegisterOperands(CALL_EXT);
    var x := ExtOf(e, f.code, i, Fetch(regs, Sources(i)));
    CallOutSettles(fuel - 1, n, e, x, log);
    var r := CallOut(fuel - 1, e, x, log);
    if r.Done? {
      var regs' := regs[Reg(i, 0) := r.w];
      RunPairs(r.left, n, e, f, i.next, regs', r.log);
      RunFrom(e.m, log, r.log, Exec(r.left, e, f, i.next, regs', r.log));
    }
  }

  lemma EnvFields(w: World, inst: Instance, g: Engine, n: nat)
    ensures var e := EnvOf(w, inst, g, n);
      && e.m == inst.m && e.names == NamesOf(w, inst) && e.sys == w.sys && e.wraps == !g.Checked?
      && (forall k: nat, log :: e.home(k, log) == if g.Native? then HelperHome(w, inst, k, log) else OwnHome(inst, k))
      && (forall k: nat, x, log :: k < n ==> e.ext(k, x, log) == Extern(k, w, inst, g.Native?, x, log))
  {
    hide Extern;
    var e := EnvOf(w, inst, g, n);
    assert forall k: nat, log :: e.home(k, log) == if g.Native? then HelperHome(w, inst, k, log) else OwnHome(inst, k);
  }

  /** In every sane world external calls settle, however deep they nest. */
  lemma {:induction false} EnvServes(w: World, inst: Instance, g: Engine, n: nat)
    requires Sane(w)
    ensures Serves(EnvOf(w, inst, g, n), n)
    decreases n, 0
  {
    hide Sane, Settled, Extern, EnvOf;
    EnvFields(w, inst, g, n);
    var e := EnvOf(w, inst, g, n);
    forall k: nat, x: Ext, log | k < n && Clean(x.args)
      ensures Settled(log, e.ext(k, x, log)) && !Sent(e.ext(k, x, log))
    {
      ExternSafe(k, w, inst, g.Native?, x, log);
    }
  }

  /** One engine entry, interpreted or compiled. */
  lemma {:induction false} EntryPairs(fuel: nat, w: World, inst: Instance, fi: nat, args: seq<Term>, log: seq<Req>)
    requires Sane(w) && Callable(inst, fi, args)
    ensures RunOk(inst.m, log, RunOnce(fuel, w, inst, fi, args, log))
    ensures !MayTail(inst.m, fi) ==> !Sent(RunOnce(fuel, w, inst, fi, args, log))
    decreases fuel, 1
  {
    hide Verified, EnvOf, RunOk, Loaded, Bound, IsProgram, MayTail, Settled, RunCompiled;
    var g := EngineFor(w, inst, args);
    var e, f := EnvOf(w, inst, g, fuel), inst.m.functions[fi];
    EnvFields(w, inst, g, fuel);
    EnvServes(w, inst, g, fuel);
    Enters(inst.m, fi, args);
    FrameClean(f, args);
    RunPairs(fuel, fuel, e, f, 0, Frame(f, args), log);
    if !MayTail(inst.m, fi) { NoCheckNeeded(fuel, fuel, e, fi, args, log); }
    assert RunFunction(fuel, e, fi, args, log) == Exec(fuel, e, f, 0, Frame(f, args), log);
    if g.Native? { ProgramAgrees(fuel, e, g.prog, fi, args, log); }
  }

  /** A chain of hops: each target is taken directly after it was stashed and can be entered. */
  lemma {:induction false} ResumeSafe(fuel: nat, w: World, inst: Instance, log0: seq<Req>, log: seq<Req>)
    requires Sane(w) && Verified(inst.m) && log0 <= log && Alternates(log, |log0|, true)
    requires TargetOk(inst.m, log[|log| - 1])
    ensures Settled(log0, Resume(fuel, w, inst, log))
    decreases fuel, 1
  {
    hide Sane, Callable, Verified, Stash, NextTarget, Alternates, TargetOk, Entering, Invoked;
    AlternatesTaken(log, |log0|);
    var target, log' := log[|log| - 1], log + [Took];
    SaneLoaded(w);
    HopCallable(w, inst, target, log');
    var h := NextTarget(w, inst, target, log');
    if h.Enter? {
      var log'' := Entering(target, h.inst, log');
      EnteringLogs(target, h.inst, log');
      AlternatesJoin(|log0|, log', log'', false);
      if fuel > 0 {
        InvokeSafe(fuel - 1, w, h.inst, h.fi, h.args, log'');
        SettledFrom(log0, log'', Invoked(fuel - 1, w, h.inst, h.fi, h.args, log''));
      }
    }
  }

  lemma SaneLoaded(w: World)
    requires Sane(w)
    ensures Loaded(w)
  {
  }

  /** In every world, from every stash, whatever is loaded meanwhile and however deep external
      calls nest: an invocation takes each target directly after it was stashed, and finds it,
      enters only code that holds it, and never lets the reserved word out. */
  lemma {:induction false} InvokeSafe(fuel: nat, w: World, inst: Instance, fi: nat, args: seq<Term>, log: seq<Req>)
    requires Sane(w) && Callable(inst, fi, args)
    ensures var o := Invoked(fuel, w, inst, fi, args, log); Settled(log, o) && !Sent(o)
    decreases fuel, 2
  {
    hide Sane, RunOnce, Verified, Resume, Alternates, TargetOk, MayTail;
    EntryPairs(fuel, w, inst, fi, args, log);
    var o := RunOnce(fuel, w, inst, fi, args, log);
    if Sent(o) { ResumeSafe(o.left, w, inst, log, o.log); }
  }

  lemma {:induction false} DynamicSafe(fuel: nat, w: World, x: Ext, log: seq<Req>)
    requires Sane(w) && Clean(x.args)
    ensures Settled(log, Dynamic(fuel, w, x, log))
    decreases fuel, 3
  {
    hide Alternates, Invoked, Verified, Bound, Coded;
    AlternatesOne(log, Req(0, [], [], []));
    var h := Resolve(w.table(log), x.module_, x.name, x.args);
    if h.Enter? {
      var log' := log + [Note(h.inst)];
      AlternatesOne(log, Note(h.inst));
      InvokeSafe(fuel, w, h.inst, h.fi, h.args, log');
      SettledFrom(log, log', Invoked(fuel, w, h.inst, h.fi, h.args, log'));
    }
  }

  lemma BackSettles(log: seq<Req>, o: Outcome, caller: Option<Instance>)
    requires Settled(log, o)
    ensures Settled(log, Back(o, caller))
  {
    hide Alternates;
    if caller.Some? {
      AlternatesOne(o.log, Note(caller.value));
      AlternatesJoin(|log|, o.log, o.log + [Note(caller.value)], false);
    }
  }

  /** An external call from any engine, dispatched or bound. */
  lemma {:induction false} ExternSafe(fuel: nat, w: World, inst: Instance, native: bool, x: Ext, log: seq<Req>)
    requires Sane(w) && Clean(x.args)
    ensures var o := Extern(fuel, w, inst, native, x, log); Settled(log, o) && !Sent(o)
    decreases fuel, 5
  {
    hide Sane, Dynamic, Direct, Settled, Lookup, Running;
    var bound, o := w.bind(inst, x.site, x.module_, x.name), Dynamic(fuel, w, x, log);
    if native && bound.Some? && bound.value.arity == |x.args| <= 16 {
      BoundFits(w, inst, x);
      DirectSafe(fuel, w, bound.value, x.args, log);
    } else {
      DynamicSafe(fuel, w, x, log);
      BackSettles(log, o, Some(inst));
      BackSettles(log, o, Lookup(w.table(log), Running(log)));
    }
  }

  lemma BoundFits(w: World, inst: Instance, x: Ext)
    requires Sane(w) && w.bind(inst, x.site, x.module_, x.name).Some?
    ensures Fits(w.bind(inst, x.site, x.module_, x.name).value)
  {
    hide Loaded, Coded, Fits;
  }

  lemma {:induction false} DirectSafe(fuel: nat, w: World, t: ExtTarget, args: seq<Term>, log: seq<Req>)
    requires Sane(w) && Fits(t) && Clean(args) && |args| == t.arity
    ensures var o := Direct(fuel, w, t, args, log); Settled(log, o) && !Sent(o)
    decreases fuel, 4
  {
    hide Sane, RunOnce, Resume, Alternates, TargetOk, MayTail, Verified, Lookup, Running;
    EntryPairs(fuel, w, t.inst, t.fi, args, log);
    var o := RunOnce(fuel, w, t.inst, t.fi, args, log);
    if Sent(o) {
      ResumeSafe(o.left, w, t.inst, log, o.log);
      BackSettles(log, Resume(o.left, w, t.inst, o.log), Lookup(w.table(o.log), Running(o.log)));
    }
  }

  /** Pairing means the stash is full exactly from a tail request to the take that follows. */
  lemma {:induction false} StashWhilePaired(log: seq<Req>, from: nat, full: bool, k: nat)
    requires Alternates(log, from, full) && from <= k <= |log| && Stash(log[..from]).None?
    ensures Stash(log[..k]).Some? <==> k > from && TailOp(log[k - 1].op)
    decreases k
  {
    if k > from {
      StashWhilePaired(log, from, full, k - 1);
      assert Paired(log, from, k - 1, full) && log[..k][..k - 1] == log[..k - 1];
      if k - 1 > from { assert Paired(log, from, k - 2, full); }
    }
  }

  /** The stash at every moment of a run: full exactly when the request before was a tail
      call, and then either the take comes next or the run has just returned the sentinel,
      with a target its module can enter. */
  lemma RunStash(fuel: nat, w: World, inst: Instance, fi: nat, args: seq<Term>, log: seq<Req>, k: nat)
    requires Sane(w) && Callable(inst, fi, args) && Stash(log).None?
    requires |log| <= k <= |RunOnce(fuel, w, inst, fi, args, log).log|
    ensures var o := RunOnce(fuel, w, inst, fi, args, log);
      && log <= o.log && !o.Broken?
      && (Stash(o.log[..k]).Some? <==> k > |log| && TailOp(o.log[k - 1].op))
      && (Stash(o.log[..k]).Some? && k < |o.log| ==> o.log[k] == Took)
      && (Stash(o.log).Some? <==> Sent(o))
      && (Sent(o) ==> TargetOk(inst.m, Stash(o.log).value))
  {
    hide Sane, Callable, RunOnce, TargetOk;
    EntryPairs(fuel, w, inst, fi, args, log);
    var o := RunOnce(fuel, w, inst, fi, args, log);
    assert o.log[..|log|] == log && o.log[..|o.log|] == o.log;
    StashWhilePaired(o.log, |log|, Sent(o), k);
    StashWhilePaired(o.log, |log|, Sent(o), |o.log|);
    if k > |log| { assert Paired(o.log, |log|, k - 1, Sent(o)); }
    if |o.log| > |log| { assert Paired(o.log, |log|, |o.log| - 1, Sent(o)); }
    if Sent(o) { AlternatesTaken(o.log, |log|); }
  }

  /** The same of a whole invocation: it ends with the stash empty, and every fill was taken
      as the next thing that happened. */
  lemma InvocationStash(fuel: nat, w: World, inst: Instance, fi: nat, args: seq<Term>, log: seq<Req>, k: nat)
    requires Sane(w) && Callable(inst, fi, args) && Stash(log).None?
    requires |log| <= k <= |Invoked(fuel, w, inst, fi, args, log).log|
    ensures var o := Invoked(fuel, w, inst, fi, args, log);
      && log <= o.log && !o.Broken? && Stash(o.log).None?
      && (Stash(o.log[..k]).Some? <==> k > |log| && TailOp(o.log[k - 1].op))
      && (Stash(o.log[..k]).Some? ==> k < |o.log| && o.log[k] == Took)
  {
    hide Sane, Callable, Invoked;
    InvokeSafe(fuel, w, inst, fi, args, log);
    var o := Invoked(fuel, w, inst, fi, args, log);
    assert o.log[..|log|] == log && o.log[..|o.log|] == o.log;
    StashWhilePaired(o.log, |log|, false, k);
    StashWhilePaired(o.log, |log|, false, |o.log|);
    if k > |log| { assert Paired(o.log, |log|, k - 1, false); }
    if |o.log| > |log| { assert Paired(o.log, |log|, |o.log| - 1, false); }
  }

  /** A function whose bit is clear never returns the sentinel, whatever its external calls
      run. */
  lemma NeverTails(fuel: nat, w: World, inst: Instance, fi: nat, args: seq<Term>, log: seq<Req>)
    requires Sane(w) && Callable(inst, fi, args) && !MayTail(inst.m, fi)
    ensures !Sent(RunOnce(fuel, w, inst, fi, args, log))
  {
    hide Sane, RunOnce, MayTail, Verified;
    EntryPairs(fuel, w, inst, fi, args, log);
  }

  lemma PlainEngine(w: World, inst: Instance, args: seq<Term>)
    requires Plain(w)
    ensures !EngineFor(w, inst, args).Native?
  {
  }

  /** Where nothing is compiled. */
  lemma PlainWorld(w: World, inst: Instance, g: Engine, n: nat)
    requires !g.Native?
    ensures var e := EnvOf(w, inst, g, n);
      && e.m == inst.m && e.names == NamesOf(w, inst) && e.wraps == g.Wrapping? && e.sys == w.sys
      && (forall k: nat, log :: e.home(k, log) == OwnHome(inst, k))
      && (forall k: nat, x, log :: k < n ==> e.ext(k, x, log) == Back(Dynamic(k, w, x, log), Some(inst)))
  {
    hide Dynamic, Direct, Back, EnvOf;
    EnvFields(w, inst, g, n);
  }
}
