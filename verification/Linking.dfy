/** However modules are compiled and their call sites bound, a program does what interpreting
    it and dispatching every external call does, exactly as long as no SPAWN goes astray. */
module Linking {
  import opened Basics
  import opened Bytecode
  import opened Verifier
  import opened Interp
  import opened InterpSafety
  import opened Simulation
  import opened Sentinels
  import opened Trampoline
  import opened StashSafety
  import opened LogErasure
  import opened ModuleTable

  /** A world, the history its table follows, and how far that has come at each moment. */
  datatype Link = Link(w: World, states: nat -> Table, changes: nat -> Change, time: seq<Req> -> nat)

  /** What stands in for an engine where nothing is compiled. */
  function Mild(g: Engine, checks: bool): Engine { if checks then Checked else if g.Native? then Wrapping else g }

  /** The same world with nothing compiled: products wrap where they did, or with `checks`
      trap everywhere. */
  function Interpreted(w: World, checks: bool): World { w.(code := inst => Mild(w.code(inst), checks)) }

  function Now(l: Link, log: seq<Req>): nat { l.time(Erase(log)) }

  ghost predicate Earlier(a: seq<Req>, b: seq<Req>, time: seq<Req> -> nat) { a <= b ==> time(a) <= time(b) }

  /** The registry is not among the things the system's replies depend on. */
  ghost predicate Unnoted(w: World, log: seq<Req>) { w.sys(log) == w.sys(Erase(log)) }

  ghost predicate Follows(l: Link)
  {
    && History(l.states, l.changes)
    && (forall log :: l.w.table(log) == l.states(Now(l, log)))
    && (forall a, b :: Earlier(a, b, l.time))
    && (forall log :: Unnoted(l.w, log))
  }

  ghost predicate CurrentAt(states: nat -> Table, inst: Instance, k: nat)
  {
    exists name :: name in states(k) && states(k)[name].current == inst
  }

  /** The instance was loaded by then. */
  ghost predicate Known(l: Link, inst: Instance, log: seq<Req>)
  {
    exists k: nat :: k <= Now(l, log) && CurrentAt(l.states, inst, k)
  }

  /** A bound site of an instance current at `k` was resolved in the table of `k` or before. */
  ghost predicate BoundBy(l: Link, inst: Instance, k: nat)
  {
    forall site, m, name :: l.w.bind(inst, site, m, name).Some? ==>
      ResolvedBy(l.states, l.w.bind(inst, site, m, name), m, name, k)
  }

  ghost predicate ResolvedBy(states: nat -> Table, t: Option<ExtTarget>, m: nat, name: nat, k: nat)
  {
    exists b: nat :: b <= k && DirectTarget(states(b), m, name) == t
  }

  ghost predicate Ever(l: Link, inst: Instance) { exists k: nat :: CurrentAt(l.states, inst, k) }

  /** Bindings were resolved when their instance was compiled, in the table of that moment, and
      compiled instances run what the compiler makes of them. */
  ghost predicate Built(l: Link)
  {
    && (forall inst, k: nat :: CurrentAt(l.states, inst, k) ==>
          BoundBy(l, inst, k) && (inst.native <==> l.w.code(inst).Native?))
    && (forall inst, site, m, name :: l.w.bind(inst, site, m, name).Some? ==> Ever(l, inst))
    && Coded(l.w)
  }

  ghost predicate Linked(l: Link) { Follows(l) && Built(l) && TermsOnly(l.w.sys) }

  function Id(inst: Instance): (nat, nat) { (inst.name, inst.version) }

  /** No instance that was current leaves both slots of its name. */
  ghost predicate Lasting(l: Link)
  {
    forall inst, i: nat, j: nat :: i <= j && CurrentAt(l.states, inst, i) ==>
      Lookup(l.states(j), Some(Id(inst))) == Some(inst)
  }

  /** The instruction at `b` spawns nothing and leads to no function outside `s`. */
  ghost predicate StaysAt(s: set<nat>, code: seq<Byte>, b: nat)
  {
    var d := Decode(code, b);
    d.Some? ==>
      && d.value.op != SPAWN
      && (d.value.op == CALL ==> Reg(d.value, 1) in s)
      && (d.value.op == TAIL_CALL ==> Reg(d.value, 0) in s)
  }

  ghost predicate Within(s: set<nat>, f: Function) { forall b :: b in Starts(f.code, 0) ==> StaysAt(s, f.code, b) }

  ghost predicate Spawnless(m: Module, s: set<nat>)
  {
    forall fi :: fi in s && fi < |m.functions| ==> Within(s, m.functions[fi])
  }

  /** Neither the function nor any it reaches in its module by calls and tail calls spawns. */
  ghost predicate NeverSpawns(m: Module, fi: nat) { exists s: set<nat> :: fi in s && Spawnless(m, s) }

  /** What can be checked before running: versions stay in their slots, and what is bound
      never spawns. */
  ghost predicate Tame(l: Link)
  {
    && Lasting(l)
    && forall inst, site, m, name :: var t := l.w.bind(inst, site, m, name);
         t.Some? ==> NeverSpawns(t.value.inst.m, t.value.fi)
  }

  /** The registry names a loaded instance. */
  ghost predicate RunKnown(l: Link, log': seq<Req>, log: seq<Req>)
  {
    exists j :: Known(l, j, log) && Running(log') == Some(Id(j))
  }

  /** Nothing is assumed, or the registry names the executing instance or nothing here spawns. */
  ghost predicate Calm(l: Link, s: Option<set<nat>>, inst: Instance, within: bool, log': seq<Req>, log: seq<Req>)
  {
    s.Some? ==>
      Tame(l) && RunKnown(l, log', log) && Spawnless(inst.m, s.value) && (within || Running(log') == Some(Id(inst)))
  }

  /** Where `got` parts from `want`: at a stray SPAWN, or where `want` checks and overflows. */
  ghost predicate Parts(s: Option<set<nat>>, checks: bool, from: nat, got: Outcome, want: Outcome)
  {
    || (s.None? && Strays(got.log, from))
    || (checks && want.Overflow? && Erase(want.log) <= Erase(got.log))
  }

  /** A frame or entry leaves the registry as it was, or interpreted at itself; if it tail-calls
      a sibling elsewhere, that does not spawn either. */
  ghost predicate LeavesAs(s: set<nat>, inst: Instance, native: bool, log': seq<Req>, got: Outcome)
  {
    && (Running(got.log) == Running(log') || (!native && Running(got.log) == Some(Id(inst))))
    && (Sent(got) && Running(got.log) != Some(Id(inst)) && Stash(got.log).Some? && Stash(got.log).value.op == TAIL_CALL
        ==> |Stash(got.log).value.imms| == 1 && Stash(got.log).value.imms[0] in s)
  }

  ghost predicate Goes(s: Option<set<nat>>, checks: bool, inst: Instance, native: bool, log': seq<Req>,
                       got: Outcome, want: Outcome)
  {
    || Parts(s, checks, |log'|, got, want)
    || (Alike(got, want) && (s.Some? && got.Done? ==> LeavesAs(s.value, inst, native, log', got)))
  }

  /** The same of an invocation, which may leave the registry at any instance. */
  ghost predicate Ends(s: Option<set<nat>>, checks: bool, from: nat, got: Outcome, want: Outcome)
  {
    Parts(s, checks, from, got, want) || Alike(got, want)
  }

  lemma DirectFits(l: Link, b: nat, module_: nat, name: nat)
    requires Linked(l) && DirectTarget(l.states(b), module_, name).Some?
    ensures Fits(DirectTarget(l.states(b), module_, name).value)
  {
    hide Built, Verified, MayTail, DirectTarget;
    var t := DirectTarget(l.states(b), module_, name).value;
    TargetStays(l.states, l.changes, b, b, module_, name, seq(t.arity, _ => NIL));
  }

  /** Linked worlds are among those whose stash is safe. */
  lemma LinkedSane(l: Link)
    requires Linked(l)
    ensures Sane(l.w)
  {
    hide Verified, History, Coded, DirectTarget, Fits;
    forall log, name | name in l.w.table(log) ensures Verified(l.w.table(log)[name].current.m) {
      HistoryOk(l.states, l.changes, Now(l, log));
      assert SlotOk(name, l.states(Now(l, log))[name]);
    }
    forall inst, site, m, name | l.w.bind(inst, site, m, name).Some? ensures Fits(l.w.bind(inst, site, m, name).value) {
      assert Ever(l, inst);
      var k: nat :| CurrentAt(l.states, inst, k);
      assert BoundBy(l, inst, k);
      assert ResolvedBy(l.states, l.w.bind(inst, site, m, name), m, name, k);
      var b: nat :| b <= k && DirectTarget(l.states(b), m, name) == l.w.bind(inst, site, m, name);
      DirectFits(l, b, m, name);
    }
  }

  lemma InterpretedSane(l: Link, checks: bool)
    requires Linked(l)
    ensures Sane(Interpreted(l.w, checks)) && Plain(Interpreted(l.w, checks))
  {
    hide Linked, Verified, Fits, IsProgram;
    LinkedSane(l);
    assert forall inst :: Interpreted(l.w, checks).code(inst) == Mild(l.w.code(inst), checks);
  }

  lemma KnownLater(l: Link, inst: Instance, a: seq<Req>, b: seq<Req>)
    requires Linked(l) && Known(l, inst, a) && a <= b
    ensures Known(l, inst, b)
  {
    hide History, Built, Erase;
    ErasePrefix(a, b);
    assert Earlier(Erase(a), Erase(b), l.time);
  }

  lemma RunLater(l: Link, log': seq<Req>, a: seq<Req>, b: seq<Req>)
    requires Linked(l) && RunKnown(l, log', a) && a <= b
    ensures RunKnown(l, log', b)
  {
    hide Linked, Known;
    var j :| Known(l, j, a) && Running(log') == Some(Id(j));
    KnownLater(l, j, a, b);
  }

  lemma SameReplies(l: Link, a: seq<Req>, b: seq<Req>)
    requires Linked(l) && Erase(a) == Erase(b)
    ensures l.w.sys(a) == l.w.sys(b) && l.w.table(a) == l.w.table(b)
  {
    hide History, Built, Erase;
    assert Unnoted(l.w, a) && Unnoted(l.w, b);
  }

  /** The target of a bound site of a known instance. */
  lemma BoundStays(l: Link, inst: Instance, x: Ext, log: seq<Req>)
    requires Linked(l) && Known(l, inst, log) && Clean(x.args)
    requires var t := l.w.bind(inst, x.site, x.module_, x.name); t.Some? && t.value.arity == |x.args|
    ensures var t := l.w.bind(inst, x.site, x.module_, x.name).value;
      && Resolve(l.w.table(log), x.module_, x.name, x.args) == Enter(t.inst, t.fi, x.args)
      && Callable(t.inst, t.fi, x.args) && Known(l, t.inst, log) && l.w.code(t.inst).Native?
      && (t.mayTail <==> MayTail(t.inst.m, t.fi))
  {
    hide History, MayTail, Verified, Resolve, IsProgram;
    var now := Now(l, log);
    var k: nat :| k <= now && CurrentAt(l.states, inst, k);
    assert BoundBy(l, inst, k);
    var t := l.w.bind(inst, x.site, x.module_, x.name);
    assert ResolvedBy(l.states, t, x.module_, x.name, k);
    var b: nat :| b <= k && DirectTarget(l.states(b), x.module_, x.name) == t;
    TargetStays(l.states, l.changes, b, now, x.module_, x.name, x.args);
    assert CurrentAt(l.states, t.value.inst, now);
    assert t.value.inst.native;
  }

  lemma ResolvedKnown(l: Link, module_: nat, name: nat, args: seq<Term>, log: seq<Req>)
    requires Linked(l)
    ensures var h := Resolve(l.w.table(log), module_, name, args); h.Enter? ==> Known(l, h.inst, log)
  {
    hide History, Built;
    var h := Resolve(l.w.table(log), module_, name, args);
    if h.Enter? { assert CurrentAt(l.states, h.inst, Now(l, log)); }
  }

  /** A run that parted stays apart, however it goes on. */
  lemma PartsOn(s: Option<set<nat>>, checks: bool, from: nat, from': nat, mid: Outcome, w1: Outcome, got: Outcome,
                w2: Outcome)
    requires Parts(s, checks, from, mid, w1) && mid.log <= got.log && from' <= from && (w1.Overflow? ==> w2 == w1)
    ensures Parts(s, checks, from', got, w2)
  {
    hide Erase;
    ErasePrefix(mid.log, got.log);
    if Strays(mid.log, from) {
      var k :| from <= k < |mid.log| && mid.log[k].op == STRAY;
      assert got.log[k].op == STRAY;
    }
  }

  /** A run that goes on after `mid'` as it should, went as it should from `log'` on. */
  lemma GoesFrom(s: Option<set<nat>>, checks: bool, inst: Instance, native: bool, log': seq<Req>, mid': seq<Req>,
                 got: Outcome, want: Outcome)
    requires Goes(s, checks, inst, native, mid', got, want) && |log'| <= |mid'|
    requires s.Some? ==> Running(mid') == Running(log') || (!native && Running(mid') == Some(Id(inst)))
    ensures Goes(s, checks, inst, native, log', got, want)
  {
    hide Erase, Running;
    if Parts(s, checks, |mid'|, got, want) { PartsOn(s, checks, |mid'|, |log'|, got, want, got, want); }
  }

  lemma LinkedTerms(l: Link)
    requires Linked(l)
    ensures TermsOnly(l.w.sys)
  {
    hide Follows, Built;
  }

  /** The registry's instance is found while versions last. */
  lemma HelperFinds(l: Link, log': seq<Req>, log: seq<Req>, at: seq<Req>)
    requires Linked(l) && Tame(l) && RunKnown(l, log', log) && log <= at
    ensures var i := Lookup(l.w.table(at), Running(log')); i.Some? && Running(log') == Some(Id(i.value))
  {
    hide History, Built, Lookup, Erase;
    var j :| Known(l, j, log) && Running(log') == Some(Id(j));
    KnownLater(l, j, log, at);
    var k: nat :| k <= Now(l, at) && CurrentAt(l.states, j, k);
    assert Lookup(l.states(Now(l, at)), Some(Id(j))) == Some(j);
  }

  lemma HomeFound(l: Link, inst: Instance, log': seq<Req>, log: seq<Req>)
    requires Linked(l) && Tame(l) && Known(l, inst, log) && Running(log') == Some(Id(inst))
    ensures Lookup(l.w.table(log), Running(log')) == Some(inst)
  {
    hide History, Built, Lookup, Erase;
    var k: nat :| k <= Now(l, log) && CurrentAt(l.states, inst, k);
    assert Lookup(l.states(Now(l, log)), Some(Id(inst))) == Some(inst);
  }

  /** A good SPAWN names a function of its module. */
  lemma SpawnMatches(m: Module, ns: Names, f: Function, pc: nat)
    requires Good(m, f, pc) && Decode(f.code, pc).value.op == SPAWN
    ensures var i := Decode(f.code, pc).value; Imms(ns, i) == [Reg(i, 1)] && Reg(i, 1) < |m.functions|
  {
    hide SourcesFrom, ImmsFrom;
    var i := Decode(f.code, pc).value;
    assert Roles(SPAWN).value == [RReg, RSpawnee, RReg] && [RReg, RSpawnee, RReg][1..] == [RSpawnee, RReg];
    Operands3(ns, i, RReg, RSpawnee, RReg, 0);
    assert OperandsOk(m, f, [RSpawnee, RReg], i.args[1..], 0);
  }

  /** What a request got, and whether it was a SPAWN that went astray. */
  ghost predicate ServesAs(s: Option<set<nat>>, log': seq<Req>, a: Served, b: Served)
  {
    && log' < a.log && Running(a.log) == Running(log')
    && ((a.reply == b.reply && Erase(a.log) == Erase(b.log)) || (s.None? && Strays(a.log, |log'|)))
  }

  lemma ServeAgrees(l: Link, s: Option<set<nat>>, checks: bool, g: Engine, inst: Instance, n: nat, r: Req,
                    log': seq<Req>, log: seq<Req>)
    requires Linked(l) && Known(l, inst, log) && Erase(log') == Erase(log) && r.op < 256
    requires r.op == SPAWN ==> |r.imms| == 1 && r.imms[0] < |inst.m.functions|
    requires r.op == SPAWN && s.Some? ==> Tame(l) && Running(log') == Some(Id(inst))
    ensures ServesAs(s, log', Serve(EnvOf(l.w, inst, g, n), r, log'),
                     Serve(EnvOf(Interpreted(l.w, checks), inst, Mild(g, checks), n), r, log))
  {
    hide Linked, Known, Tame, EnvOf, Erase, Running;
    EnvFields(l.w, inst, g, n);
    EnvFields(Interpreted(l.w, checks), inst, Mild(g, checks), n);
    EraseMore(log', r);
    EraseMore(log, r);
    RunningMore(log', r);
    SameReplies(l, log' + [r], log + [r]);
    if r.op == SPAWN { SpawnAgrees(l, s, checks, g, inst, n, r, log', log); }
  }

  lemma SpawnAgrees(l: Link, s: Option<set<nat>>, checks: bool, g: Engine, inst: Instance, n: nat, r: Req,
                    log': seq<Req>, log: seq<Req>)
    requires Linked(l) && Known(l, inst, log) && Erase(log' + [r]) == Erase(log + [r])
    requires r.op == SPAWN && |r.imms| == 1 && r.imms[0] < |inst.m.functions|
    requires Running(log' + [r]) == Running(log') && (s.Some? ==> Tame(l) && Running(log') == Some(Id(inst)))
    ensures ServesAs(s, log', Serve(EnvOf(l.w, inst, g, n), r, log'),
                     Serve(EnvOf(Interpreted(l.w, checks), inst, Mild(g, checks), n), r, log))
  {
    hide Linked, Known, Tame, EnvOf, Erase, Running, Lookup;
    var e', e := EnvOf(l.w, inst, g, n), EnvOf(Interpreted(l.w, checks), inst, Mild(g, checks), n);
    EnvFields(l.w, inst, g, n);
    EnvFields(Interpreted(l.w, checks), inst, Mild(g, checks), n);
    var log1', log1, own := log' + [r], log + [r], Req(START, [inst.name, inst.version], [], []);
    SameReplies(l, log1', log1);
    if s.Some? {
      KnownLater(l, inst, log, log1);
      HomeFound(l, inst, log1', log1);
    }
    var h, last := e'.home(r.imms[0], log1'), Serve(e', r, log').log[|log1'|];
    assert Serve(e', r, log').log == log1' + [last];
    RunningMore(log1', last);
    if h.In? && h.here {
      EraseMore(log1', own);
      EraseMore(log1, own);
      SameReplies(l, log1' + [own], log1 + [own]);
    } else {
      assert (log1' + [last])[|log1'|].op == STRAY;
    }
  }

  ghost function FlowLog(s: Flow): seq<Req> { if s.Next? then s.log else s.outcome.log }

  ghost predicate FlowGoes(s: Option<set<nat>>, checks: bool, log': seq<Req>, got: Flow, want: Flow)
  {
    || (s.None? && Strays(FlowLog(got), |log'|))
    || (checks && want.Stop? && want.outcome.Overflow? && Erase(want.outcome.log) <= Erase(FlowLog(got)))
    || (got.Next? && want.Next? && got.regs == want.regs && Erase(got.log) == Erase(want.log)
        && Running(got.log) == Running(log'))
    || (got.Stop? && want.Stop? && Alike(got.outcome, want.outcome) && !got.outcome.Done?)
  }

  lemma ArithAgrees(op: nat, wa: Term, wb: Term)
    ensures Arith(false, op, wa, wb) == Arith(true, op, wa, wb) || Arith(false, op, wa, wb).OutOfRange?
  {
  }

  lemma SimpleAgrees(l: Link, s: Option<set<nat>>, checks: bool, g: Engine, inst: Instance, n: nat, f: Function,
                     pc: nat, regs: seq<Term>, log': seq<Req>, log: seq<Req>)
    requires Linked(l) && Known(l, inst, log) && Good(inst.m, f, pc) && Erase(log') == Erase(log)
    requires Decode(f.code, pc).Some? && !IsControl(Decode(f.code, pc).value.op)
    requires s.Some? && Decode(f.code, pc).value.op == SPAWN ==> Tame(l) && Running(log') == Some(Id(inst))
    ensures var i := Decode(f.code, pc).value;
      FlowGoes(s, checks, log', Simple(EnvOf(l.w, inst, g, n), i, regs, log'),
               Simple(EnvOf(Interpreted(l.w, checks), inst, Mild(g, checks), n), i, regs, log))
  {
    hide Linked, Known, Good, Tame, Sources, Imms, Arith, Serve, Running, Erase, EnvOf, Decode, Strays;
    EnvFields(l.w, inst, g, n);
    EnvFields(Interpreted(l.w, checks), inst, Mild(g, checks), n);
    var i := Decode(f.code, pc).value;
    DecodedAt(f.code, pc);
    if IsIntOp(i.op) {
      if Reg(i, 1) < |regs| && Reg(i, 2) < |regs| { ArithAgrees(i.op, regs[Reg(i, 1)], regs[Reg(i, 2)]); }
    } else if InFrame(regs, Sources(i)) {
      var ns := NamesOf(l.w, inst);
      if i.op == SPAWN { SpawnMatches(inst.m, ns, f, pc); }
      ServeAgrees(l, s, checks, g, inst, n, Req(i.op, Imms(ns, i), BlobOf(i), Fetch(regs, Sources(i))), log', log);
    }
  }

  /** A frame, run by its engine in this world and interpreted in the other. */
  lemma {:induction false} FrameAgrees(s: Option<set<nat>>, checks: bool, fuel: nat, n: nat, l: Link, g: Engine,
                                       inst: Instance, f: Function, pc: nat, regs: seq<Term>, log': seq<Req>,
                                       log: seq<Req>)
    requires Linked(l) && Known(l, inst, log) && Verified(inst.m) && Erase(log') == Erase(log)
    requires Ready(inst.m, f, pc, regs) && Clean(regs) && fuel <= n
    requires Calm(l, s, inst, s.Some? && Within(s.value, f), log', log)
    ensures Goes(s, checks, inst, g.Native?, log', Exec(fuel, EnvOf(l.w, inst, g, n), f, pc, regs, log'),
                 Exec(fuel, EnvOf(Interpreted(l.w, checks), inst, Mild(g, checks), n), f, pc, regs, log))
    decreases fuel, 0, |f.code| - pc, 1
  {
    hide Linked, Known, Verified, Accepted, Good, Simple, Sources, Imms, Starts, Target, Decode, Roles, EnvOf, Calm,
      Erase, Running, Stash, Goes;
    var p := Interpreted(l.w, checks);
    var e', e := EnvOf(l.w, inst, g, n), EnvOf(p, inst, Mild(g, checks), n);
    EnvFields(l.w, inst, g, n);
    EnvFields(p, inst, Mild(g, checks), n);
    Leads(inst.m, f, pc, regs);
    GoodRegs(inst.m, f, pc, regs);
    GoodRoles(inst.m, f, pc);
    DecodedAt(f.code, pc);
    var i := Decode(f.code, pc).value;
    if i.op !in {NOP, JMP, TAIL_CALL, TAIL_CALL_EXT} { RegisterOperands(i.op); }
    if !IsControl(i.op) {
      StraightAgrees(s, checks, fuel, n, l, g, inst, f, pc, regs, log', log);
    } else if Jumped(i, regs) {
      assert Exec(fuel, e, f, pc, regs, log) == Jump(fuel, e, f, i, regs, log);
      assert Exec(fuel, e', f, pc, regs, log') == Jump(fuel, e', f, i, regs, log');
      if fuel > 0 {
        FrameAgrees(s, checks, fuel - 1, n, l, g, inst, f, Target(i), regs, log', log);
      } else {
        EndsAlike(s, checks, inst, g.Native?, log', Spent(log'), Spent(log));
      }
    } else if i.op == JMP_IF && IsInt(regs[Reg(i, 0)]) {
      FrameAgrees(s, checks, fuel, n, l, g, inst, f, i.next, regs, log', log);
    } else if (i.op == CALL || i.op == CALL_EXT) && fuel > 0 {
      if i.op == CALL {
        SiblingAgrees(s, checks, fuel, n, l, g, inst, f, pc, regs, log', log);
      } else {
        SiteAgrees(s, checks, fuel, n, l, g, inst, f, pc, regs, log', log);
      }
    } else if TailOp(i.op) {
      TailAgrees(s, checks, fuel, n, l, g, inst, f, pc, regs, log', log);
    } else {
      if i.op == RET { ReturnsClean(e, f, pc, regs); }
      var got, want := Control(fuel, e', f, pc, i, regs, log'), Control(fuel, e, f, pc, i, regs, log);
      assert Exec(fuel, e', f, pc, regs, log') == got && Exec(fuel, e, f, pc, regs, log) == want;
      EndsAlike(s, checks, inst, g.Native?, log', got, want);
    }
  }

  /** Ending without a word more in the log. */
  lemma EndsAlike(s: Option<set<nat>>, checks: bool, inst: Instance, native: bool, log': seq<Req>, got: Outcome,
                  want: Outcome)
    requires Alike(got, want) && got.log == log' && !Sent(got)
    ensures Goes(s, checks, inst, native, log', got, want)
  {
  }

  lemma CalmLater(l: Link, s: Option<set<nat>>, inst: Instance, within: bool, log': seq<Req>, log: seq<Req>,
                  mid': seq<Req>, mid: seq<Req>)
    requires Linked(l) && Known(l, inst, log) && Calm(l, s, inst, within, log', log) && log <= mid
    requires s.Some? ==> Running(mid') == Running(log') || Running(mid') == Some(Id(inst))
    ensures Known(l, inst, mid) && Calm(l, s, inst, within, mid', mid)
  {
    hide Linked, Known, Running, Tame, Spawnless;
    KnownLater(l, inst, log, mid);
    if s.Some? { RunLater(l, log', log, mid); }
  }

  /** Where the registry names another instance, the instruction neither spawns nor leads to
      what does. */
  lemma CalmAt(l: Link, s: Option<set<nat>>, inst: Instance, f: Function, pc: nat, regs: seq<Term>, log': seq<Req>,
               log: seq<Req>)
    requires Calm(l, s, inst, s.Some? && Within(s.value, f), log', log) && Ready(inst.m, f, pc, regs)
    ensures s.Some? ==> Tame(l) && (Running(log') == Some(Id(inst)) || StaysAt(s.value, f.code, pc))
  {
    hide Tame, StaysAt, Running, Spawnless, Starts, Accepted;
  }

  lemma {:induction false} StraightAgrees(s: Option<set<nat>>, checks: bool, fuel: nat, n: nat, l: Link, g: Engine,
                                          inst: Instance, f: Function, pc: nat, regs: seq<Term>, log': seq<Req>,
                                          log: seq<Req>)
    requires Linked(l) && Known(l, inst, log) && Verified(inst.m) && Erase(log') == Erase(log)
    requires Ready(inst.m, f, pc, regs) && Clean(regs) && fuel <= n
    requires Calm(l, s, inst, s.Some? && Within(s.value, f), log', log)
    requires Decode(f.code, pc).Some? && !IsControl(Decode(f.code, pc).value.op)
    ensures Goes(s, checks, inst, g.Native?, log', Exec(fuel, EnvOf(l.w, inst, g, n), f, pc, regs, log'),
                 Exec(fuel, EnvOf(Interpreted(l.w, checks), inst, Mild(g, checks), n), f, pc, regs, log))
    decreases fuel, 0, |f.code| - pc, 0
  {
    hide Linked, Known, Verified, Accepted, Good, Simple, Starts, Decode, EnvOf, Calm, Erase, Running, LeavesAs,
      Sane, Alternates, Tame, Within;
    var p := Interpreted(l.w, checks);
    var e', e := EnvOf(l.w, inst, g, n), EnvOf(p, inst, Mild(g, checks), n);
    EnvFields(p, inst, Mild(g, checks), n);
    LinkedTerms(l);
    Leads(inst.m, f, pc, regs);
    DecodedAt(f.code, pc);
    CalmAt(l, s, inst, f, pc, regs, log', log);
    SimpleAgrees(l, s, checks, g, inst, n, f, pc, regs, log', log);
    SimpleClean(e, Decode(f.code, pc).value, regs, log);
    SimpleSafe(e, f, pc, regs, log);
    SimpleLogs(e, Decode(f.code, pc).value, regs, log);
    var i := Decode(f.code, pc).value;
    var a, b := Simple(e', i, regs, log'), Simple(e, i, regs, log);
    EnvExtends(false, l.w, inst, g, n);
    SimpleExtends(false, e', i, regs, log');
    if a.Next? { ExecExtends(false, fuel, e', f, i.next, a.regs, a.log); }
    var got, want := Exec(fuel, e', f, pc, regs, log'), Exec(fuel, e, f, pc, regs, log);
    if a.Next? && b.Next? && a.regs == b.regs && Erase(a.log) == Erase(b.log) && Running(a.log) == Running(log') {
      CalmLater(l, s, inst, s.Some? && Within(s.value, f), log', log, a.log, b.log);
      FrameAgrees(s, checks, fuel, n, l, g, inst, f, i.next, b.regs, a.log, b.log);
      GoesFrom(s, checks, inst, g.Native?, log', a.log, got, want);
    } else if !(a.Stop? && b.Stop? && Alike(a.outcome, b.outcome)) {
      FlowParts(s, checks, log', a, b, got, want);
    }
  }

  lemma FlowParts(s: Option<set<nat>>, checks: bool, log': seq<Req>, a: Flow, b: Flow, got: Outcome, want: Outcome)
    requires FlowGoes(s, checks, log', a, b) && FlowLog(a) <= got.log && (b.Stop? ==> want == b.outcome)
    requires a.Next? && b.Next? && a.regs == b.regs && Erase(a.log) == Erase(b.log) ==> Running(a.log) != Running(log')
    requires !(a.Stop? && b.Stop? && Alike(a.outcome, b.outcome))
    ensures Parts(s, checks, |log'|, got, want)
  {
    hide Erase, Running;
    ErasePrefix(FlowLog(a), got.log);
    if Strays(FlowLog(a), |log'|) {
      var k :| |log'| <= k < |FlowLog(a)| && FlowLog(a)[k].op == STRAY;
      assert got.log[k].op == STRAY;
    }
  }

  lemma TailAgrees(s: Option<set<nat>>, checks: bool, fuel: nat, n: nat, l: Link, g: Engine, inst: Instance,
                   f: Function, pc: nat, regs: seq<Term>, log': seq<Req>, log: seq<Req>)
    requires Linked(l) && Known(l, inst, log) && Verified(inst.m) && Erase(log') == Erase(log)
    requires Ready(inst.m, f, pc, regs) && Clean(regs)
    requires Calm(l, s, inst, s.Some? && Within(s.value, f), log', log)
    requires Decode(f.code, pc).Some? && TailOp(Decode(f.code, pc).value.op)
    ensures Goes(s, checks, inst, g.Native?, log', Exec(fuel, EnvOf(l.w, inst, g, n), f, pc, regs, log'),
                 Exec(fuel, EnvOf(Interpreted(l.w, checks), inst, Mild(g, checks), n), f, pc, regs, log))
  {
    hide Linked, Known, Verified, Accepted, Good, Sources, Imms, Starts, Decode, EnvOf, Calm, Erase, Tame, Within;
    EnvFields(l.w, inst, g, n);
    EnvFields(Interpreted(l.w, checks), inst, Mild(g, checks), n);
    Leads(inst.m, f, pc, regs);
    GoodRegs(inst.m, f, pc, regs);
    CalmAt(l, s, inst, f, pc, regs, log', log);
    var i, ns := Decode(f.code, pc).value, NamesOf(l.w, inst);
    TailMatches(inst.m, ns, f, pc);
    var r := Req(i.op, Imms(ns, i), [], Fetch(regs, Sources(i)));
    EraseMore(log', r);
    EraseMore(log, r);
    RunningMore(log', r);
    var e', e := EnvOf(l.w, inst, g, n), EnvOf(Interpreted(l.w, checks), inst, Mild(g, checks), n);
    var got := Exec(fuel, e', f, pc, regs, log');
    assert Control(fuel, e', f, pc, i, regs, log') == Done(TAIL_SENTINEL, log' + [r], fuel) == got;
    assert Control(fuel, e, f, pc, i, regs, log) == Done(TAIL_SENTINEL, log + [r], fuel);
    assert Stash(got.log) == Some(r);
  }

  /** After a call that went as it should. */
  lemma {:induction false} CallGoes(s: Option<set<nat>>, checks: bool, fuel: nat, n: nat, l: Link, g: Engine,
                                    inst: Instance, f: Function, pc: nat, regs: seq<Term>, log': seq<Req>,
                                    log: seq<Req>, r': Outcome, r: Outcome)
    requires Linked(l) && Known(l, inst, log) && Verified(inst.m) && Ready(inst.m, f, pc, regs) && Clean(regs)
    requires Calm(l, s, inst, s.Some? && Within(s.value, f), log', log)
    requires Decode(f.code, pc).Some?
    requires var i := Decode(f.code, pc).value; FallsThrough(i.op) && Reg(i, 0) < |regs| && fuel > 0 && fuel <= n
    requires Goes(s, checks, inst, g.Native?, log', r', r) && log <= r.log && log' <= r'.log
    requires r.Done? && !Sent(r) && Alike(r', r) && r.left < fuel
    requires s.Some? ==> LeavesAs(s.value, inst, g.Native?, log', r')
    ensures var e' := EnvOf(l.w, inst, g, n); var e := EnvOf(Interpreted(l.w, checks), inst, Mild(g, checks), n);
      var i := Decode(f.code, pc).value; var regs' := regs[Reg(i, 0) := r.w];
      Goes(s, checks, inst, g.Native?, log', Exec(r.left, e', f, i.next, regs', r'.log),
           Exec(r.left, e, f, i.next, regs', r.log))
    decreases fuel, 0, 0, 0
  {
    hide Linked, Known, Verified, Accepted, Good, Starts, Decode, EnvOf, Calm, Erase, Running, Within, Exec, Stash;
    var i := Decode(f.code, pc).value;
    Leads(inst.m, f, pc, regs);
    CalmLater(l, s, inst, s.Some? && Within(s.value, f), log', log, r'.log, r.log);
    var regs' := regs[Reg(i, 0) := r.w];
    FrameAgrees(s, checks, r.left, n, l, g, inst, f, i.next, regs', r'.log, r.log);
    GoesFrom(s, checks, inst, g.Native?, log', r'.log, Exec(r.left, EnvOf(l.w, inst, g, n), f, i.next, regs', r'.log),
             Exec(r.left, EnvOf(Interpreted(l.w, checks), inst, Mild(g, checks), n), f, i.next, regs', r.log));
  }

  lemma {:induction false} SiblingAgrees(s: Option<set<nat>>, checks: bool, fuel: nat, n: nat, l: Link, g: Engine,
                                         inst: Instance, f: Function, pc: nat, regs: seq<Term>, log': seq<Req>,
                                         log: seq<Req>)
    requires Linked(l) && Known(l, inst, log) && Verified(inst.m) && Erase(log') == Erase(log)
    requires Ready(inst.m, f, pc, regs) && Clean(regs) && 0 < fuel <= n
    requires Calm(l, s, inst, s.Some? && Within(s.value, f), log', log)
    requires Decode(f.code, pc).Some? && Decode(f.code, pc).value.op == CALL
    ensures Goes(s, checks, inst, g.Native?, log', Exec(fuel, EnvOf(l.w, inst, g, n), f, pc, regs, log'),
                 Exec(fuel, EnvOf(Interpreted(l.w, checks), inst, Mild(g, checks), n), f, pc, regs, log))
    decreases fuel, 0, |f.code| - pc, 0
  {
    hide Linked, Known, Verified, Accepted, Good, Sources, Starts, Decode, Roles, EnvOf, Calm, Erase, Running, LeavesAs,
      Sane, Alternates, Tame, Within, Frame, Parts, TargetOk;
    var p := Interpreted(l.w, checks);
    var e', e := EnvOf(l.w, inst, g, n), EnvOf(p, inst, Mild(g, checks), n);
    InterpretedSane(l, checks);
    EnvFields(l.w, inst, g, n);
    EnvFields(p, inst, Mild(g, checks), n);
    Leads(inst.m, f, pc, regs);
    GoodRoles(inst.m, f, pc);
    GoodRegs(inst.m, f, pc, regs);
    RegisterOperands(CALL);
    CallMatches(inst.m, f, pc);
    var i := Decode(f.code, pc).value;
    var callee, args := Reg(i, 1), Fetch(regs, Sources(i));
    var h := inst.m.functions[callee];
    Enters(inst.m, callee, args);
    FrameClean(h, args);
    CalmCallee(l, s, inst, f, pc, regs, log', log);
    FrameAgrees(s, checks, fuel - 1, n, l, g, inst, h, 0, Frame(h, args), log', log);
    EnvServes(p, inst, Mild(g, checks), n);
    LinkedTerms(l);
    RunPairs(fuel - 1, n, e, h, 0, Frame(h, args), log);
    EnvExtends(false, l.w, inst, g, n);
    FunctionExtends(false, fuel - 1, e', callee, args, log');
    var r', r := RunFunction(fuel - 1, e', callee, args, log'), RunFunction(fuel - 1, e, callee, args, log);
    assert r == Exec(fuel - 1, e, h, 0, Frame(h, args), log) && r' == Exec(fuel - 1, e', h, 0, Frame(h, args), log');
    var got, want := Exec(fuel, e', f, pc, regs, log'), Exec(fuel, e, f, pc, regs, log);
    assert got == Control(fuel, e', f, pc, i, regs, log') && want == Control(fuel, e, f, pc, i, regs, log);
    if r'.Done? && !Sent(r') { ExecExtends(false, r'.left, e', f, i.next, regs[Reg(i, 0) := r'.w], r'.log); }
    if Parts(s, checks, |log'|, r', r) {
      PartsOn(s, checks, |log'|, |log'|, r', r, got, want);
    } else if r.Done? && !Sent(r) {
      CallGoes(s, checks, fuel, n, l, g, inst, f, pc, regs, log', log, r', r);
    }
  }

  lemma CalmCallee(l: Link, s: Option<set<nat>>, inst: Instance, f: Function, pc: nat, regs: seq<Term>,
                   log': seq<Req>, log: seq<Req>)
    requires Calm(l, s, inst, s.Some? && Within(s.value, f), log', log) && Ready(inst.m, f, pc, regs)
    requires Decode(f.code, pc).Some? && Decode(f.code, pc).value.op == CALL
    requires Reg(Decode(f.code, pc).value, 1) < |inst.m.functions|
    ensures var h := inst.m.functions[Reg(Decode(f.code, pc).value, 1)];
      Calm(l, s, inst, s.Some? && Within(s.value, h), log', log)
  {
    hide Tame, Running, Starts, Accepted, Decode;
    CalmAt(l, s, inst, f, pc, regs, log', log);
  }

  lemma {:induction false} SiteAgrees(s: Option<set<nat>>, checks: bool, fuel: nat, n: nat, l: Link, g: Engine,
                                      inst: Instance, f: Function, pc: nat, regs: seq<Term>, log': seq<Req>,
                                      log: seq<Req>)
    requires Linked(l) && Known(l, inst, log) && Verified(inst.m) && Erase(log') == Erase(log)
    requires Ready(inst.m, f, pc, regs) && Clean(regs) && 0 < fuel <= n
    requires Calm(l, s, inst, s.Some? && Within(s.value, f), log', log)
    requires Decode(f.code, pc).Some? && Decode(f.code, pc).value.op == CALL_EXT
    ensures Goes(s, checks, inst, g.Native?, log', Exec(fuel, EnvOf(l.w, inst, g, n), f, pc, regs, log'),
                 Exec(fuel, EnvOf(Interpreted(l.w, checks), inst, Mild(g, checks), n), f, pc, regs, log))
    decreases fuel, 0, |f.code| - pc, 0
  {
    hide Linked, Known, Verified, Accepted, Good, Sources, Starts, Decode, Roles, EnvOf, Calm, Erase, Running, LeavesAs,
      Tame, Within, Parts, Global, CallOut;
    var p := Interpreted(l.w, checks);
    var e', e := EnvOf(l.w, inst, g, n), EnvOf(p, inst, Mild(g, checks), n);
    EnvFields(l.w, inst, g, n);
    EnvFields(p, inst, Mild(g, checks), n);
    Leads(inst.m, f, pc, regs);
    GoodRoles(inst.m, f, pc);
    GoodRegs(inst.m, f, pc, regs);
    RegisterOperands(CALL_EXT);
    var i := Decode(f.code, pc).value;
    var x := ExtOf(e, f.code, i, Fetch(regs, Sources(i)));
    assert x == ExtOf(e', f.code, i, Fetch(regs, Sources(i)));
    SiteCalled(s, checks, fuel, n, l, g, inst, s.Some? && Within(s.value, f), x, log', log);
    EnvExtends(false, l.w, inst, g, n);
    CallOutExtends(false, fuel - 1, e', x, log');
    var r', r := CallOut(fuel - 1, e', x, log'), CallOut(fuel - 1, e, x, log);
    var got, want := Exec(fuel, e', f, pc, regs, log'), Exec(fuel, e, f, pc, regs, log);
    assert got == Control(fuel, e', f, pc, i, regs, log') && want == Control(fuel, e, f, pc, i, regs, log);
    if r'.Done? { ExecExtends(false, r'.left, e', f, i.next, regs[Reg(i, 0) := r'.w], r'.log); }
    if Parts(s, checks, |log'|, r', r) {
      PartsOn(s, checks, |log'|, |log'|, r', r, got, want);
    } else if r.Done? {
      CallGoes(s, checks, fuel, n, l, g, inst, f, pc, regs, log', log, r', r);
    }
  }

  /** An external call as a frame makes it. */
  lemma {:induction false} SiteCalled(s: Option<set<nat>>, checks: bool, fuel: nat, n: nat, l: Link, g: Engine,
                                      inst: Instance, within: bool, x: Ext, log': seq<Req>, log: seq<Req>)
    requires Linked(l) && Known(l, inst, log) && Erase(log') == Erase(log) && Clean(x.args) && 0 < fuel <= n
    requires Calm(l, s, inst, within, log', log)
    ensures var r := CallOut(fuel - 1, EnvOf(Interpreted(l.w, checks), inst, Mild(g, checks), n), x, log);
      && Goes(s, checks, inst, g.Native?, log', CallOut(fuel - 1, EnvOf(l.w, inst, g, n), x, log'), r)
      && log <= r.log && !Sent(r)
    decreases fuel - 1, 3, 0
  {
    hide Linked, Known, Erase, Running, Tame, Extern, Dynamic, LeavesAs, Sane, Alternates, EnvOf;
    var p, mid', mid := Interpreted(l.w, checks), log' + [Called(x)], log + [Called(x)];
    EraseMore(log', Called(x));
    EraseMore(log, Called(x));
    RunningMore(log', Called(x));
    KnownLater(l, inst, log, mid);
    if s.Some? { RunLater(l, log', log, mid); }
    ExternAgrees(s, checks, fuel - 1, l, inst, g.Native?, x, mid', mid);
    InterpretedSane(l, checks);
    EnvServes(p, inst, Mild(g, checks), n);
    CallOutSettles(fuel - 1, n, EnvOf(p, inst, Mild(g, checks), n), x, log);
    EnvFields(l.w, inst, g, n);
    PlainWorld(p, inst, Mild(g, checks), n);
    var o' := Extern(fuel - 1, l.w, inst, g.Native?, x, mid');
    var o := Back(Dynamic(fuel - 1, p, x, mid), Some(inst));
    GoesFrom(s, checks, inst, g.Native?, log', mid', o', o);
    if o'.Broken? { PartsOn(s, checks, |log'|, |log'|, o', o, Broken(Elsewhere, o'.log), o); }
  }

  /** Calling back after a nested call, notes aside. */
  lemma BackAlike(o': Outcome, c': Option<Instance>, o: Outcome, c: Option<Instance>)
    ensures Alike(o', o) ==> Alike(Back(o', c'), Back(o, c))
    ensures o'.log <= Back(o', c').log
    ensures o'.Done? && c'.Some? ==> Running(Back(o', c').log) == Some(Id(c'.value))
  {
    hide Erase, Running;
    if o'.Done? && c'.Some? {
      EraseMore(o'.log, Note(c'.value));
      RunningMore(o'.log, Note(c'.value));
    }
    if o.Done? && c.Some? { EraseMore(o.log, Note(c.value)); }
  }

  /** One external call, bound directly or dispatched. */
  lemma {:induction false} ExternAgrees(s: Option<set<nat>>, checks: bool, fuel: nat, l: Link, inst: Instance,
                                        native: bool, x: Ext, log': seq<Req>, log: seq<Req>)
    requires Linked(l) && Known(l, inst, log) && Clean(x.args) && Erase(log') == Erase(log)
    requires s.Some? ==> Tame(l) && RunKnown(l, log', log)
    ensures Goes(s, checks, inst, native, log', Extern(fuel, l.w, inst, native, x, log'),
                 Back(Dynamic(fuel, Interpreted(l.w, checks), x, log), Some(inst)))
    decreases fuel, 2, 1
  {
    hide Linked, Known, Erase, Running, Tame, RunOnce, Resume, Lookup, Dynamic, Direct, Stash, Sane, Alternates;
    var p, bound := Interpreted(l.w, checks), l.w.bind(inst, x.site, x.module_, x.name);
    if native && bound.Some? && bound.value.arity == |x.args| <= 16 {
      DirectAgrees(s, checks, fuel, l, inst, x, log', log);
    } else {
      DispatchAgrees(s, checks, fuel, l, x, log', log);
      SameReplies(l, log', log);
      if s.Some? { HelperFinds(l, log', log, log); }
      var c := if native then Lookup(l.w.table(log'), Running(log')) else Some(inst);
      var o', o := Dynamic(fuel, l.w, x, log'), Dynamic(fuel, p, x, log);
      BackAlike(o', c, o, Some(inst));
      if Parts(s, checks, |log'|, o', o) {
        PartsOn(s, checks, |log'|, |log'|, o', o, Back(o', c), Back(o, Some(inst)));
      }
    }
  }

  /** A bound call does what dispatching it does. */
  lemma {:induction false} DirectAgrees(s: Option<set<nat>>, checks: bool, fuel: nat, l: Link, inst: Instance,
                                        x: Ext, log': seq<Req>, log: seq<Req>)
    requires Linked(l) && Known(l, inst, log) && Clean(x.args) && Erase(log') == Erase(log)
    requires s.Some? ==> Tame(l) && RunKnown(l, log', log)
    requires var t := l.w.bind(inst, x.site, x.module_, x.name); t.Some? && t.value.arity == |x.args| <= 16
    ensures var t := l.w.bind(inst, x.site, x.module_, x.name).value;
      Goes(s, checks, inst, true, log', Direct(fuel, l.w, t, x.args, log'),
           Back(Dynamic(fuel, Interpreted(l.w, checks), x, log), Some(inst)))
    decreases fuel, 2, 0
  {
    hide Linked, Known, Erase, Running, RunOnce, Resume, Lookup, Stash, Sane, Alternates, Resolve, MayTail, TargetOk,
      NeverSpawns, Lasting, Parts;
    var p, t := Interpreted(l.w, checks), l.w.bind(inst, x.site, x.module_, x.name).value;
    BoundStays(l, inst, x, log);
    var log2 := log + [Note(t.inst)];
    EraseMore(log, Note(t.inst));
    KnownLater(l, t.inst, log, log2);
    if s.Some? { RunLater(l, log', log, log2); }
    var s2 := Reached(l, s, inst, x);
    OnceAgrees(s2, checks, fuel, l, t.inst, t.fi, x.args, log', log2);
    InterpretedSane(l, checks);
    EntryPairs(fuel, p, t.inst, t.fi, x.args, log2);
    OnceExtends(false, fuel, l.w, t.inst, t.fi, x.args, log');
    var o', o := RunOnce(fuel, l.w, t.inst, t.fi, x.args, log'), RunOnce(fuel, p, t.inst, t.fi, x.args, log2);
    var got, want := Direct(fuel, l.w, t, x.args, log'), Back(Dynamic(fuel, p, x, log), Some(inst));
    assert Dynamic(fuel, p, x, log) == Invoked(fuel, p, t.inst, t.fi, x.args, log2);
    if o'.Done? {
      ResumeExtends(false, o'.left, l.w, t.inst, o'.log);
      BackAlike(Resume(o'.left, l.w, t.inst, o'.log), Lookup(l.w.table(o'.log), Running(o'.log)), o, None);
    }
    if Parts(s2, checks, |log'|, o', o) {
      PartsAs(s2, s, checks, |log'|, o', o);
      PartsOn(s, checks, |log'|, |log'|, o', o, got, want);
    } else if Sent(o) {
      if !MayTail(t.inst.m, t.fi) { NeverTails(fuel, p, t.inst, t.fi, x.args, log2); }
      SentOn(l, s2, t.inst, true, log', log2, o', o);
      DirectResumes(s2, s, checks, o.left, l, inst, t.inst, log2, o'.log, o.log, log');
    } else {
      BackAlike(o', None, o, Some(inst));
    }
  }

  lemma PartsAs(s2: Option<set<nat>>, s: Option<set<nat>>, checks: bool, from: nat, got: Outcome, want: Outcome)
    requires Parts(s2, checks, from, got, want) && s2.Some? == s.Some?
    ensures Parts(s, checks, from, got, want)
  {
  }

  /** The functions a bound target reaches. */
  lemma Reached(l: Link, s: Option<set<nat>>, inst: Instance, x: Ext) returns (s2: Option<set<nat>>)
    requires l.w.bind(inst, x.site, x.module_, x.name).Some? && (s.Some? ==> Tame(l))
    ensures s2.Some? == s.Some?
    ensures var t := l.w.bind(inst, x.site, x.module_, x.name).value;
      s2.Some? ==> t.fi in s2.value && Spawnless(t.inst.m, s2.value)
  {
    hide Spawnless, Lasting;
    var t := l.w.bind(inst, x.site, x.module_, x.name).value;
    if s.Some? {
      assert NeverSpawns(t.inst.m, t.fi);
      var set_ :| t.fi in set_ && Spawnless(t.inst.m, set_);
      s2 := Some(set_);
    } else {
      s2 := None;
    }
  }

  /** A bound call whose callee tail-called out: the chain is resumed from its instance. */
  lemma {:induction false} DirectResumes(s2: Option<set<nat>>, s: Option<set<nat>>, checks: bool, fuel: nat, l: Link,
                                         inst: Instance, callee: Instance, log0: seq<Req>, log': seq<Req>,
                                         log: seq<Req>, from: seq<Req>)
    requires Linked(l) && Known(l, callee, log0) && Verified(callee.m) && Erase(log') == Erase(log)
    requires log0 <= log && Alternates(log, |log0|, true) && TargetOk(callee.m, log[|log| - 1])
    requires s2.Some? == s.Some? && |from| <= |log'|
    requires s.Some? ==> Tame(l) && RunKnown(l, log', log) && Spawnless(callee.m, s2.value)
    requires s.Some? ==> Running(log') == Running(from)
    requires s.Some? && Running(log') != Some(Id(callee)) && log[|log| - 1].op == TAIL_CALL ==>
      log[|log| - 1].imms[0] in s2.value
    ensures Goes(s, checks, inst, true, from,
                 Back(Resume(fuel, l.w, callee, log'), Lookup(l.w.table(log'), Running(log'))),
                 Back(Resume(fuel, Interpreted(l.w, checks), callee, log), Some(inst)))
    decreases fuel, 1, 3
  {
    hide Linked, Known, Erase, Running, Resume, Lookup, Stash, Alternates, TargetOk, Tame, Parts, Spawnless, Verified;
    var p, c := Interpreted(l.w, checks), Lookup(l.w.table(log'), Running(log'));
    ResumeAgrees(s2, checks, fuel, l, callee, log0, log', log);
    var o', o := Resume(fuel, l.w, callee, log'), Resume(fuel, p, callee, log);
    SameReplies(l, log', log);
    if s.Some? { HelperFinds(l, log', log, log); }
    BackAlike(o', c, o, Some(inst));
    if Parts(s2, checks, |log'|, o', o) {
      PartsAs(s2, s, checks, |log'|, o', o);
      PartsOn(s, checks, |log'|, |from|, o', o, Back(o', c), Back(o, Some(inst)));
    }
  }

  /** The chain of hops from a filled stash. */
  lemma {:induction false} ResumeAgrees(s: Option<set<nat>>, checks: bool, fuel: nat, l: Link, inst: Instance,
                                        log0: seq<Req>, log': seq<Req>, log: seq<Req>)
    requires Linked(l) && Known(l, inst, log0) && Verified(inst.m) && Erase(log') == Erase(log)
    requires log0 <= log && Alternates(log, |log0|, true) && TargetOk(inst.m, log[|log| - 1])
    requires s.Some? ==> Tame(l) && RunKnown(l, log', log) && Spawnless(inst.m, s.value)
    requires s.Some? && Running(log') != Some(Id(inst)) && log[|log| - 1].op == TAIL_CALL ==>
      log[|log| - 1].imms[0] in s.value
    ensures Ends(s, checks, |log'|, Resume(fuel, l.w, inst, log'), Resume(fuel, Interpreted(l.w, checks), inst, log))
    decreases fuel, 1, 0
  {
    hide Linked, Known, Verified, Erase, Running, Stash, Alternates, Tame, Invoked, Resolve, Spawnless, Parts;
    var p, mid', mid := Interpreted(l.w, checks), log' + [Took], log + [Took];
    AlternatesTaken(log, |log0|);
    StashErased(log');
    StashErased(log);
    EraseMore(log', Took);
    EraseMore(log, Took);
    RunningMore(log', Took);
    InterpretedSane(l, checks);
    KnownLater(l, inst, log0, mid);
    if s.Some? { RunLater(l, log', log, mid); }
    SameReplies(l, mid', mid);
    var target := log[|log| - 1];
    HopCallable(p, inst, target, mid);
    HopAgrees(l, checks, inst, target, mid', mid);
    var h := NextTarget(p, inst, target, mid);
    if h.Enter? {
      var next', next := Entering(target, h.inst, mid'), Entering(target, h.inst, mid);
      EraseMore(mid', Note(h.inst));
      EraseMore(mid, Note(h.inst));
      RunningMore(mid', Note(h.inst));
      KnownLater(l, h.inst, mid, next);
      var s' := if target.op == TAIL_CALL then s else if s.Some? then Some({}) else None;
      if s.Some? { HopCalm(l, s.value, inst, target, h, mid', mid); }
      if fuel > 0 {
        InvokeAgrees(s', checks, fuel - 1, l, h.inst, h.fi, h.args, next', next);
        var a := Invoked(fuel - 1, l.w, h.inst, h.fi, h.args, next');
        var b := Invoked(fuel - 1, p, h.inst, h.fi, h.args, next);
        if Parts(s', checks, |next'|, a, b) {
          PartsAs(s', s, checks, |next'|, a, b);
          PartsOn(s, checks, |next'|, |log'|, a, b, a, b);
        }
      }
    }
  }

  lemma HopAgrees(l: Link, checks: bool, inst: Instance, target: Req, log': seq<Req>, log: seq<Req>)
    requires Linked(l) && Erase(log') == Erase(log) && Known(l, inst, log)
    ensures var h := NextTarget(Interpreted(l.w, checks), inst, target, log);
      NextTarget(l.w, inst, target, log') == h && (h.Enter? ==> Known(l, h.inst, log))
  {
    hide Linked, Known, Erase, Resolve;
    SameReplies(l, log', log);
    if target.op != TAIL_CALL && |target.imms| == 2 {
      ResolvedKnown(l, target.imms[0], target.imms[1], target.args, log);
    }
  }

  /** After a hop the registry names its target, or the target is a sibling that stays calm. */
  lemma HopCalm(l: Link, s: set<nat>, inst: Instance, target: Req, h: Hop, mid': seq<Req>, mid: seq<Req>)
    requires Linked(l) && h.Enter? && Known(l, h.inst, mid) && RunKnown(l, mid', mid) && Tame(l) && Spawnless(inst.m, s)
    requires target.op == TAIL_CALL ==> h.inst == inst && (h.fi in s || Running(mid') == Some(Id(inst)))
    ensures Calm(l, Some(if target.op == TAIL_CALL then s else {}), h.inst, target.op == TAIL_CALL && h.fi in s,
                 Entering(target, h.inst, mid'), Entering(target, h.inst, mid))
  {
    hide Linked, Known, Tame, Running;
    RunningMore(mid', Note(h.inst));
    KnownLater(l, h.inst, mid, mid + [Note(h.inst)]);
  }

  /** An invocation, compiled and bound or interpreted and dispatched. */
  lemma {:induction false} InvokeAgrees(s: Option<set<nat>>, checks: bool, fuel: nat, l: Link, inst: Instance, fi: nat,
                                        args: seq<Term>, log': seq<Req>, log: seq<Req>)
    requires Linked(l) && Known(l, inst, log) && Callable(inst, fi, args) && Erase(log') == Erase(log)
    requires Calm(l, s, inst, s.Some? && fi in s.value, log', log)
    ensures Ends(s, checks, |log'|, Invoked(fuel, l.w, inst, fi, args, log'),
                 Invoked(fuel, Interpreted(l.w, checks), inst, fi, args, log))
    decreases fuel, 1, 1
  {
    hide Linked, Known, RunOnce, Resume, Erase, Running, Stash, Alternates, TargetOk, Tame, Parts, Spawnless, Verified;
    var p := Interpreted(l.w, checks);
    OnceAgrees(s, checks, fuel, l, inst, fi, args, log', log);
    InterpretedSane(l, checks);
    EntryPairs(fuel, p, inst, fi, args, log);
    OnceExtends(false, fuel, l.w, inst, fi, args, log');
    var o', o := RunOnce(fuel, l.w, inst, fi, args, log'), RunOnce(fuel, p, inst, fi, args, log);
    if o'.Done? { ResumeExtends(false, o'.left, l.w, inst, o'.log); }
    var got, want := Invoked(fuel, l.w, inst, fi, args, log'), Invoked(fuel, p, inst, fi, args, log);
    if Parts(s, checks, |log'|, o', o) {
      PartsOn(s, checks, |log'|, |log'|, o', o, got, want);
    } else if Sent(o) {
      SentOn(l, s, inst, EngineFor(l.w, inst, args).Native?, log', log, o', o);
      ResumeAgrees(s, checks, o.left, l, inst, log, o'.log, o.log);
      if Parts(s, checks, |o'.log|, got, want) { PartsOn(s, checks, |o'.log|, |log'|, got, want, got, want); }
    }
  }

  /** What holds where a run has just returned the sentinel. */
  lemma SentOn(l: Link, s: Option<set<nat>>, inst: Instance, native: bool, log': seq<Req>, log: seq<Req>, o': Outcome,
               o: Outcome)
    requires Linked(l) && Known(l, inst, log) && Sent(o) && Alike(o', o) && RunOk(inst.m, log, o)
    requires s.Some? ==> RunKnown(l, log', log) && LeavesAs(s.value, inst, native, log', o')
    ensures s.Some? ==> RunKnown(l, o'.log, o.log)
    ensures var target := o.log[|o.log| - 1];
      s.Some? && Running(o'.log) != Some(Id(inst)) && target.op == TAIL_CALL ==>
        |target.imms| == 1 && target.imms[0] in s.value
  {
    hide Linked, Known, Erase, Running, Stash, Alternates;
    AlternatesTaken(o.log, |log|);
    StashErased(o'.log);
    StashErased(o.log);
    KnownLater(l, inst, log, o.log);
    if s.Some? { RunLater(l, log', log, o.log); }
  }

  lemma {:induction false} DispatchAgrees(s: Option<set<nat>>, checks: bool, fuel: nat, l: Link, x: Ext,
                                          log': seq<Req>, log: seq<Req>)
    requires Linked(l) && Clean(x.args) && Erase(log') == Erase(log) && (s.Some? ==> Tame(l))
    ensures Ends(s, checks, |log'|, Dynamic(fuel, l.w, x, log'), Dynamic(fuel, Interpreted(l.w, checks), x, log))
    decreases fuel, 1, 2
  {
    hide Linked, Known, Verified, Invoked, Erase, Running, Tame, Parts;
    var p := Interpreted(l.w, checks);
    SameReplies(l, log', log);
    InterpretedSane(l, checks);
    ResolvedKnown(l, x.module_, x.name, x.args, log);
    var h := Resolve(p.table(log), x.module_, x.name, x.args);
    if h.Enter? {
      var next', next := log' + [Note(h.inst)], log + [Note(h.inst)];
      EraseMore(log', Note(h.inst));
      EraseMore(log, Note(h.inst));
      RunningMore(log', Note(h.inst));
      KnownLater(l, h.inst, log, next);
      var s' := if s.Some? then Some({}) else None;
      InvokeAgrees(s', checks, fuel, l, h.inst, h.fi, h.args, next', next);
      var a, b := Invoked(fuel, l.w, h.inst, h.fi, h.args, next'), Invoked(fuel, p, h.inst, h.fi, h.args, next);
      if Parts(s', checks, |next'|, a, b) {
        PartsAs(s', s, checks, |next'|, a, b);
        PartsOn(s, checks, |next'|, |log'|, a, b, a, b);
      }
    }
  }

  /** One engine entry; compiled code is its own wrapping interpretation. */
  lemma {:induction false} OnceAgrees(s: Option<set<nat>>, checks: bool, fuel: nat, l: Link, inst: Instance, fi: nat,
                                      args: seq<Term>, log': seq<Req>, log: seq<Req>)
    requires Linked(l) && Known(l, inst, log) && Callable(inst, fi, args) && Erase(log') == Erase(log)
    requires Calm(l, s, inst, s.Some? && fi in s.value, log', log)
    ensures Goes(s, checks, inst, EngineFor(l.w, inst, args).Native?, log', RunOnce(fuel, l.w, inst, fi, args, log'),
                 RunOnce(fuel, Interpreted(l.w, checks), inst, fi, args, log))
    decreases fuel, 1, 0
  {
    hide Linked, Known, Verified, Frame, Exec, RunCompiled, EnvOf, IsProgram, Erase, Running, Tame, Goes, Within;
    var p, g := Interpreted(l.w, checks), EngineFor(l.w, inst, args);
    var f, e', e := inst.m.functions[fi], EnvOf(l.w, inst, g, fuel), EnvOf(p, inst, Mild(g, checks), fuel);
    EnvFields(l.w, inst, g, fuel);
    EnvFields(p, inst, Mild(g, checks), fuel);
    assert p.code(inst) == Mild(l.w.code(inst), checks);
    Enters(inst.m, fi, args);
    FrameClean(f, args);
    FrameAgrees(s, checks, fuel, fuel, l, g, inst, f, 0, Frame(f, args), log', log);
    if g.Native? {
      ProgramOf(l, inst);
      ProgramAgrees(fuel, e', g.prog, fi, args, log');
    }
  }

  lemma ProgramOf(l: Link, inst: Instance)
    requires Linked(l) && l.w.code(inst).Native?
    ensures IsProgram(inst.m, NamesOf(l.w, inst), l.w.code(inst).prog)
  {
    hide IsProgram, BoundBy, Follows, CurrentAt, Ever;
  }

  /** Compiled and bound, or interpreted with the same arithmetic and dispatched: the same
      result, traps and requests at the same cost, for every history of the table, if and only
      if no SPAWN was made where the registry names another instance than the executing one. */
  lemma LinkedAgrees(fuel: nat, l: Link, inst: Instance, fi: nat, args: seq<Term>, log: seq<Req>)
    requires Linked(l) && Known(l, inst, log) && Callable(inst, fi, args)
    ensures var got := Invoked(fuel, l.w, inst, fi, args, log);
      Alike(got, Invoked(fuel, Interpreted(l.w, false), inst, fi, args, log)) <==> !Strays(got.log, |log|)
  {
    hide Linked, Known, Callable, Invoked, Erase, Running, Sane;
    var p := Interpreted(l.w, false);
    InvokeAgrees(None, false, fuel, l, inst, fi, args, log, log);
    InterpretedSane(l, false);
    InvokedExtends(true, fuel, p, inst, fi, args, log);
    InvokedExtends(false, fuel, l.w, inst, fi, args, log);
    var got, want := Invoked(fuel, l.w, inst, fi, args, log), Invoked(fuel, p, inst, fi, args, log);
    assert got.log[..|log|] == log && want.log[..|log|] == log;
    EraseKeeps(got.log, |log|);
    EraseKeeps(want.log, |log|);
  }

  /** Against the interpreter that checks every product, the one other way to part is an
      overflow there; up to it the requests are the same. */
  lemma LinkedChecks(fuel: nat, l: Link, inst: Instance, fi: nat, args: seq<Term>, log: seq<Req>)
    requires Linked(l) && Known(l, inst, log) && Callable(inst, fi, args)
    ensures var got := Invoked(fuel, l.w, inst, fi, args, log);
      var want := Invoked(fuel, Interpreted(l.w, true), inst, fi, args, log);
      Alike(got, want) || Strays(got.log, |log|) || (want.Overflow? && Erase(want.log) <= Erase(got.log))
  {
    hide Linked, Known, Callable, Invoked, Erase, Running;
    InvokeAgrees(None, true, fuel, l, inst, fi, args, log, log);
  }

  /** Checked beforehand: where no bound function reaches a SPAWN and versions stay in their
      slots, a process whose entry names the instance it starts in never spawns astray. */
  lemma TameAgrees(fuel: nat, l: Link, inst: Instance, fi: nat, args: seq<Term>, log: seq<Req>)
    requires Linked(l) && Known(l, inst, log) && Callable(inst, fi, args)
    requires Tame(l) && Running(log) == Some(Id(inst))
    ensures var got := Invoked(fuel, l.w, inst, fi, args, log);
      !Strays(got.log, |log|) && Alike(got, Invoked(fuel, Interpreted(l.w, false), inst, fi, args, log))
  {
    hide Linked, Known, Callable, Invoked, Erase, Running, Tame, Strays;
    InvokeAgrees(Some({}), false, fuel, l, inst, fi, args, log, log);
    LinkedAgrees(fuel, l, inst, fi, args, log);
  }

  /** With the registry naming the executing instance, a compiled SPAWN starts there exactly
      while that is in a slot of its name; a version in neither is taken for the current. */
  lemma HelperAtHome(w: World, inst: Instance, k: nat, log: seq<Req>)
    requires inst.name in w.table(log) && SlotOk(inst.name, w.table(log)[inst.name])
    requires Running(log) == Some(Id(inst))
    ensures var slot := w.table(log)[inst.name];
      && (HelperHome(w, inst, k, log).here <==> slot.current == inst || slot.previous == Some(inst))
      && (slot.current.version != inst.version && (slot.previous.Some? ==> slot.previous.value.version != inst.version)
          ==> Lookup(w.table(log), Running(log)) == Some(slot.current) && slot.current != inst)
  {
  }
}
