/** Where bound calls part from dispatched ones: a compiled caller bound to a sealed function
    that spawns. The helper looks the child up in the caller's module. */
module StraySpawn {
  import opened Basics
  import opened Bytecode
  import opened Verifier
  import opened Interp
  import opened Blocks
  import opened Simulation
  import opened Sentinels
  import opened Trampoline
  import opened StashSafety
  import opened LogErasure
  import opened ModuleTable
  import opened Linking
  import ByteChecks
  import Unwinding

  /** r0 = call b:f(); return r0 */
  const CALLER: seq<Byte> := [27, 0, 0, 0, 0, 0, 1, 0, 0, 0, 0, 19, 0]
  /** r0 = spawn function 1 with r0; return r0 */
  const SPAWNER: seq<Byte> := [20, 0, 1, 0, 0, 0, 0, 19, 0]
  /** return r0 */
  const CHILD: seq<Byte> := [19, 0]

  const AM: Module := Module([[98], [102]], [Function(0, 0, 1, CALLER)])
  const BM: Module := Module([[102]], [Function(0, 0, 1, SPAWNER), Function(0, 1, 1, CHILD)])

  /** Module a is atom 0, b atom 1, f atom 2. */
  function A(bits: seq<bool>): Instance { Instance(0, 1, AM, [1, 2], false, true, bits) }

  function B(bits: seq<bool>): Instance { Instance(1, 1, BM, [2], true, true, bits) }

  const PID: Term := 11

  lemma DecodeExt()
    ensures Decode(CALLER, 0) == Some(Insn(CALL_EXT, [Num(0), Num(0), Num(1), List([])], 11))
  {
    assert [U8, U32, U32, Regs][1..] == [U32, U32, Regs] && [U32, U32, Regs][1..] == [U32, Regs];
    assert [U32, Regs][1..] == [Regs] && At(CALLER, 10) == 0 && CALLER[11..11] == [];
    Unwinding.LastField(Regs, CALLER, 10);
    assert LE(CALLER, 8, 2) == 0;
    assert LE(CALLER, 6, 4) == 1;
    assert LE(CALLER, 4, 2) == 0;
    assert LE(CALLER, 2, 4) == 0;
    assert [Num(1)] + [List([])] == [Num(1), List([])];
    assert ReadFields([U32, Regs], CALLER, 6) == Got([Num(1), List([])], 11);
    assert [Num(0)] + [Num(1), List([])] == [Num(0), Num(1), List([])];
    assert ReadFields([U32, U32, Regs], CALLER, 2) == Got([Num(0), Num(1), List([])], 11);
    assert [Num(0)] + [Num(0), Num(1), List([])] == [Num(0), Num(0), Num(1), List([])];
  }

  lemma DecodeSpawn()
    ensures Decode(SPAWNER, 0) == Some(Insn(SPAWN, [Num(0), Num(1), Num(0)], 7))
  {
    assert [U8, U32, U8][1..] == [U32, U8] && [U32, U8][1..] == [U8];
    Unwinding.LastField(U8, SPAWNER, 6);
    assert LE(SPAWNER, 4, 2) == 0;
    assert LE(SPAWNER, 2, 4) == 1;
    assert [Num(1)] + [Num(0)] == [Num(1), Num(0)];
    assert ReadFields([U32, U8], SPAWNER, 2) == Got([Num(1), Num(0)], 7);
    assert [Num(0)] + [Num(1), Num(0)] == [Num(0), Num(1), Num(0)];
  }

  lemma ExtOperands(ns: Names)
    ensures Sources(Insn(CALL_EXT, [Num(0), Num(0), Num(1), List([])], 11)) == []
  {
    hide SourcesFrom, ImmsFrom;
    Operands3(ns, Insn(CALL_EXT, [Num(0), Num(0), Num(1), List([])], 11), RAtom, RAtom, RRegs, 1);
    assert [RReg, RAtom, RAtom, RRegs][1..] == [RAtom, RAtom, RRegs];
  }

  lemma SpawnOperands(ns: Names)
    ensures var i := Insn(SPAWN, [Num(0), Num(1), Num(0)], 7);
      Sources(i) == [0] && Imms(ns, i) == [1] && BlobOf(i) == []
  {
    hide SourcesFrom, ImmsFrom;
    var i := Insn(SPAWN, [Num(0), Num(1), Num(0)], 7);
    Operands2(ns, i, RSpawnee, RReg, 1);
    Operands3(ns, i, RReg, RSpawnee, RReg, 0);
    assert [RReg, RSpawnee, RReg][1..] == [RSpawnee, RReg];
  }

  const ASKED: Req := Req(SPAWN, [1], [], [NIL])

  /** The spawner returns what the system answers. */
  lemma SpawnerRuns(fuel: nat, e: Env, log: seq<Req>)
    requires e.m == BM
    ensures var s := Serve(e, ASKED, log);
      RunFunction(fuel, e, 0, [], log)
        == if s.reply.Fault? then Trapped(s.reply.trap, s.log) else Done(s.reply.w, s.log, fuel)
  {
    hide Decode, Sources, Imms, Serve;
    DecodeSpawn();
    Unwinding.OneByte(SPAWNER, 7);
    SpawnOperands(e.names);
    var f, i := BM.functions[0], Insn(SPAWN, [Num(0), Num(1), Num(0)], 7);
    assert Frame(f, []) == [NIL] && Fetch([NIL], [0]) == [NIL];
    var s := Serve(e, ASKED, log);
    if s.reply.Value? {
      assert [NIL][0 := s.reply.w] == [s.reply.w];
      assert Simple(e, i, [NIL], log) == Next([s.reply.w], s.log);
      assert Exec(fuel, e, f, 7, [s.reply.w], s.log) == Done(s.reply.w, s.log, fuel);
    }
  }

  /** The caller returns what its external call gives. */
  lemma CallerRuns(e: Env, log: seq<Req>)
    requires e.m == AM
    ensures var x := Ext(Site(CALLER, 11), Global(e.names, 0), Global(e.names, 1), []);
      RunFunction(1, e, 0, [], log) == CallOut(0, e, x, log)
  {
    hide Decode, Sources, Simple, CallOut, Global, Fetch;
    DecodeExt();
    Unwinding.OneByte(CALLER, 11);
    ExtOperands(e.names);
    Unwinding.NothingFetched([NIL]);
    var f, i := AM.functions[0], Insn(CALL_EXT, [Num(0), Num(0), Num(1), List([])], 11);
    assert Frame(f, []) == [NIL];
    var x := Ext(Site(CALLER, 11), Global(e.names, 0), Global(e.names, 1), []);
    assert ExtOf(e, f.code, i, Fetch([NIL], [])) == x;
    var r := CallOut(0, e, x, log);
    if r.Done? {
      assert [NIL][0 := r.w] == [r.w];
      assert Exec(r.left, e, f, 11, [r.w], r.log) == Done(r.w, r.log, r.left);
    }
    assert Control(1, e, f, 0, i, [NIL], log) == r;
  }

  lemma CallerAccepted()
    ensures Verified(AM)
  {
    hide Decode, Starts, Good;
    DecodeExt();
    Unwinding.OneByte(CALLER, 11);
    Unwinding.Reaches(CALLER, 0, 11);
    Unwinding.Reaches(CALLER, 11, 13);
    CallerGood();
  }

  lemma CallerGood()
    ensures Good(AM, AM.functions[0], 0) && Good(AM, AM.functions[0], 11)
  {
    hide Good, Decode;
    var f := AM.functions[0];
    ByteChecks.GoodIsSound(AM, f, 0);
    ByteChecks.GoodIsSound(AM, f, 11);
  }

  lemma SpawnerAccepted()
    ensures Verified(BM)
  {
    hide Decode, Starts, Good;
    DecodeSpawn();
    Unwinding.OneByte(SPAWNER, 7);
    Unwinding.OneByte(CHILD, 0);
    Unwinding.Reaches(SPAWNER, 0, 7);
    Unwinding.Reaches(SPAWNER, 7, 9);
    Unwinding.Reaches(CHILD, 0, 2);
    SpawnerGood();
  }

  lemma SpawnerGood()
    ensures Good(BM, BM.functions[0], 0) && Good(BM, BM.functions[0], 7) && Good(BM, BM.functions[1], 0)
  {
    hide Good, Decode;
    ByteChecks.GoodIsSound(BM, BM.functions[0], 0);
    ByteChecks.GoodIsSound(BM, BM.functions[0], 7);
    ByteChecks.GoodIsSound(BM, BM.functions[1], 0);
  }

  function TableOf(a: Instance, b: Instance): Table { map[0 := Slot(a, None), 1 := Slot(b, None)] }

  /** First b is loaded and sealed, then a, bound to it; then nothing. */
  function LinkOf(a: Instance, b: Instance, pa: seq<Compiled>, pb: seq<Compiled>): Link
    requires b.tailers != []
  {
    Link(
      World(_ => Value(PID), _ => TableOf(a, b), 0,
            (inst, site, m, name) =>
              if inst == a && m == 1 && name == 2 then Some(ExtTarget(b, 0, 0, b.tailers[0])) else None,
            inst => if inst == a then Native(pa) else if inst == b then Native(pb) else Checked),
      k => if k == 0 then map[] else if k == 1 then map[1 := Slot(b, None)] else TableOf(a, b),
      k => if k == 0 then Load(1, BM, [2], true, true, b.tailers)
           else if k == 1 then Load(0, AM, [1, 2], false, true, a.tailers) else Purge(2),
      _ => 2)
  }

  ghost predicate Made(a: Instance, b: Instance, pa: seq<Compiled>, pb: seq<Compiled>)
  {
    && b.tailers != [] && a == A(a.tailers) && b == B(b.tailers)
    && ExactBits(AM, a.tailers) && ExactBits(BM, b.tailers)
    && IsProgram(AM, Names([1, 2], 0), pa) && IsProgram(BM, Names([2], 0), pb)
  }

  lemma IsHistory(a: Instance, b: Instance, pa: seq<Compiled>, pb: seq<Compiled>)
    requires Made(a, b, pa, pb)
    ensures var l := LinkOf(a, b, pa, pb); History(l.states, l.changes)
  {
    hide IsProgram, ExactBits;
    CallerAccepted();
    SpawnerAccepted();
    var l := LinkOf(a, b, pa, pb);
    forall k: nat ensures ChangeOk(l.changes(k)) && l.states(k + 1) == Applied(l.states(k), l.changes(k)) {
      if k == 1 {
        assert Applied(map[1 := Slot(b, None)], l.changes(1)) == map[1 := Slot(b, None)][0 := Slot(a, None)];
      }
    }
  }

  lemma BoundEarly(a: Instance, b: Instance, pa: seq<Compiled>, pb: seq<Compiled>)
    requires Made(a, b, pa, pb)
    ensures DirectTarget(LinkOf(a, b, pa, pb).states(1), 1, 2) == Some(ExtTarget(b, 0, 0, b.tailers[0]))
  {
    hide IsProgram;
    assert Named(b, 0, 2) && FunctionNamed(b, 2) == Some(0);
  }

  lemma IsLinked(a: Instance, b: Instance, pa: seq<Compiled>, pb: seq<Compiled>)
    requires Made(a, b, pa, pb)
    ensures Linked(LinkOf(a, b, pa, pb))
  {
    hide IsProgram, ExactBits, History, DirectTarget;
    var l := LinkOf(a, b, pa, pb);
    IsHistory(a, b, pa, pb);
    BoundEarly(a, b, pa, pb);
    forall inst, k: nat | CurrentAt(l.states, inst, k)
      ensures BoundBy(l, inst, k) && (inst.native <==> l.w.code(inst).Native?)
    {
      assert inst == a ==> k >= 2;
    }
    assert 0 in l.states(2) && CurrentAt(l.states, a, 2);
  }

  /** Bound: the child is looked up in a, which has no function 1. */
  lemma BoundTraps(l: Link, a: Instance, b: Instance, pa: seq<Compiled>, pb: seq<Compiled>)
    requires Made(a, b, pa, pb) && l == LinkOf(a, b, pa, pb)
    ensures var o := Invoked(1, l.w, a, 0, [], [Note(a)]); o.Trapped? && o.trap == Badarg && Strays(o.log, 1)
  {
    hide IsProgram, ExactBits, EnvOf, RunFunction, RunCompiled, CallOut, Resume;
    var log, ns := [Note(a)], Names([1, 2], 0);
    var x := Ext(Site(CALLER, 11), 1, 2, []);
    var e := EnvOf(l.w, a, l.w.code(a), 1);
    EnvFields(l.w, a, l.w.code(a), 1);
    ProgramAgrees(1, e, pa, 0, [], log);
    CallerRuns(e, log);
    DirectTraps(l, a, b, pa, pb, log + [Called(x)]);
    assert CallOut(0, e, x, log) == Direct(0, l.w, ExtTarget(b, 0, 0, b.tailers[0]), [], log + [Called(x)]) by {
      CallsDirectly(e, l.w, a, ExtTarget(b, 0, 0, b.tailers[0]), x, log);
    }
    assert CallOut(0, e, x, log).log[3].op == STRAY;
  }

  lemma CallsDirectly(e: Env, w: World, a: Instance, t: ExtTarget, x: Ext, log: seq<Req>)
    requires e.ext(0, x, log + [Called(x)]) == Extern(0, w, a, true, x, log + [Called(x)])
    requires w.bind(a, x.site, x.module_, x.name) == Some(t) && t.arity == |x.args| == 0
    requires !Direct(0, w, t, x.args, log + [Called(x)]).Broken?
    ensures CallOut(0, e, x, log) == Direct(0, w, t, x.args, log + [Called(x)])
  {
    hide Direct;
  }

  lemma DirectTraps(l: Link, a: Instance, b: Instance, pa: seq<Compiled>, pb: seq<Compiled>, log: seq<Req>)
    requires Made(a, b, pa, pb) && l == LinkOf(a, b, pa, pb) && Running(log) == Some(Id(a))
    ensures Direct(0, l.w, ExtTarget(b, 0, 0, b.tailers[0]), [], log)
      == Trapped(Badarg, log + [ASKED] + [Req(STRAY, [], [], [])])
  {
    hide IsProgram, ExactBits, EnvOf, RunFunction, RunCompiled, Running;
    var e := EnvOf(l.w, b, l.w.code(b), 0);
    EnvFields(l.w, b, l.w.code(b), 0);
    ProgramAgrees(0, e, pb, 0, [], log);
    SpawnerRuns(0, e, log);
    RunningMore(log, ASKED);
    assert e.home(1, log + [ASKED]) == Nowhere(Badarg, false);
  }

  /** Dispatched: the child is looked up in b. */
  lemma DispatchedSpawns(l: Link, checks: bool, a: Instance, b: Instance, pa: seq<Compiled>, pb: seq<Compiled>)
    requires Made(a, b, pa, pb) && l == LinkOf(a, b, pa, pb)
    ensures var o := Invoked(1, Interpreted(l.w, checks), a, 0, [], [Note(a)]); o.Done? && o.w == PID
  {
    hide IsProgram, ExactBits, EnvOf, RunFunction, CallOut, Resume, Dynamic, Back;
    var p, log := Interpreted(l.w, checks), [Note(a)];
    var g, x := p.code(a), Ext(Site(CALLER, 11), 1, 2, []);
    assert g == Mild(l.w.code(a), checks);
    var e := EnvOf(p, a, g, 1);
    PlainWorld(p, a, g, 1);
    CallerRuns(e, log);
    DynamicSpawns(l, checks, a, b, pa, pb, x, log + [Called(x)]);
    assert CallOut(0, e, x, log).Done? && CallOut(0, e, x, log).w == PID by {
      ComesBack(e, Dynamic(0, p, x, log + [Called(x)]), a, x, log);
    }
  }

  lemma ComesBack(e: Env, o: Outcome, a: Instance, x: Ext, log: seq<Req>)
    requires e.ext(0, x, log + [Called(x)]) == Back(o, Some(a)) && o.Done?
    ensures CallOut(0, e, x, log).Done? && CallOut(0, e, x, log).w == o.w
  {
  }

  lemma DynamicSpawns(l: Link, checks: bool, a: Instance, b: Instance, pa: seq<Compiled>, pb: seq<Compiled>, x: Ext,
                      log: seq<Req>)
    requires Made(a, b, pa, pb) && l == LinkOf(a, b, pa, pb) && x.module_ == 1 && x.name == 2 && x.args == []
    ensures var o := Dynamic(0, Interpreted(l.w, checks), x, log); o.Done? && o.w == PID
  {
    hide IsProgram, ExactBits, EnvOf, RunFunction, Resume;
    var p, log' := Interpreted(l.w, checks), log + [Note(b)];
    var g := p.code(b);
    assert g == Mild(l.w.code(b), checks);
    var e := EnvOf(p, b, g, 0);
    PlainWorld(p, b, g, 0);
    assert Named(b, 0, 2) && FunctionNamed(b, 2) == Some(0);
    assert Resolve(p.table(log), 1, 2, []) == Enter(b, 0, []);
    SpawnerRuns(0, e, log');
    assert e.home(1, log' + [ASKED]) == In(1, 1, true);
  }

  /** In a linked world, started as the scheduler starts it, the bound program traps where the
      dispatched one gets its child. */
  method SpawnStrays() returns (l: Link, a: Instance, got: Outcome, want: Outcome)
    ensures Linked(l) && Known(l, a, [Note(a)]) && Callable(a, 0, []) && Running([Note(a)]) == Some(Id(a))
    ensures got == Invoked(1, l.w, a, 0, [], [Note(a)]) && got.Trapped? && got.trap == Badarg && Strays(got.log, 1)
    ensures want == Invoked(1, Interpreted(l.w, true), a, 0, [], [Note(a)]) && want.Done? && want.w == PID
  {
    hide IsProgram, Linked, Invoked, MayTail;
    CallerAccepted();
    SpawnerAccepted();
    var ba := SentinelReturners(AM);
    var bb := SentinelReturners(BM);
    var pa := CompileModule(AM, Names([1, 2], 0));
    var pb := CompileModule(BM, Names([2], 0));
    a := A(ba);
    var b := B(bb);
    l := LinkOf(a, b, pa, pb);
    IsLinked(a, b, pa, pb);
    assert 0 in l.states(2) && CurrentAt(l.states, a, 2);
    got, want := Invoked(1, l.w, a, 0, [], [Note(a)]), Invoked(1, Interpreted(l.w, true), a, 0, [], [Note(a)]);
    BoundTraps(l, a, b, pa, pb);
    DispatchedSpawns(l, true, a, b, pa, pb);
  }
}
