/** A tail call is a call and a return. First what a hop enters, from the bytes of the
    instruction; then, in worlds that do not look at the marks calls leave in the log, that the
    two come to the same. */
module TailIsCall {
  import opened Bytecode
  import opened Verifier
  import opened Interp
  import opened InterpSafety
  import opened ByteMeaning
  import opened ByteControl
  import opened Sentinels
  import opened Trampoline
  import opened StashSafety
  import opened TailReading

  /** Ended by a TAIL_CALL, a run goes on in the same instance, in the function its four bytes
      number, on the values of the listed registers in order. */
  lemma TailCallHops(fuel: nat, n: nat, w: World, g: Engine, inst: Instance, f: Function, pc: nat, regs: seq<Term>,
                     log: seq<Req>)
    requires pc < |f.code| && f.code[pc] == 49 && ArgsAt(f.code, pc + 5).Some? && fuel > 0
    requires var rs := ArgsAt(f.code, pc + 5).value; forall j :: 0 <= j < |rs| ==> rs[j] < |regs|
    ensures var k, args := Word32(f.code, pc + 1), Values(regs, ArgsAt(f.code, pc + 5).value);
      var log' := log + [Req(49, [k], [], args)] + [Req(256, [], [], [])];
      Finish(w, inst, Exec(fuel, EnvOf(w, inst, g, n), f, pc, regs, log)) == Invoked(fuel - 1, w, inst, k, args, log')
  {
    hide Exec, EnvOf, Invoked, Values, ArgsAt, Word32;
    TailRuns(fuel, EnvOf(w, inst, g, n), f, pc, regs, log);
  }

  /** Ended by a TAIL_CALL_EXT, it goes on as the dynamic call of those two atoms on those
      values. */
  lemma TailCallExtHops(fuel: nat, n: nat, w: World, g: Engine, inst: Instance, f: Function, pc: nat, regs: seq<Term>,
                        log: seq<Req>, site: Site)
    requires pc < |f.code| && f.code[pc] == 47 && ArgsAt(f.code, pc + 9).Some? && fuel > 0
    requires var rs := ArgsAt(f.code, pc + 9).value; forall j :: 0 <= j < |rs| ==> rs[j] < |regs|
    ensures var ns, args := Names(inst.atoms, w.unknown), Values(regs, ArgsAt(f.code, pc + 9).value);
      var m, k := AtomIn(ns, Word32(f.code, pc + 1)), AtomIn(ns, Word32(f.code, pc + 5));
      var log' := log + [Req(47, [m, k], [], args)] + [Req(256, [], [], [])];
      Finish(w, inst, Exec(fuel, EnvOf(w, inst, g, n), f, pc, regs, log))
        == Dynamic(fuel - 1, w, Ext(site, m, k, args), log')
  {
    hide Exec, Invoked, Values, ArgsAt, Word32, Resolve;
    TailExtRuns(fuel, EnvOf(w, inst, g, n), f, pc, regs, log);
  }

  /** Entries that only calls, tail calls and the registry leave. */
  predicate IsMark(r: Req) { r.op in {CALL_EXT, TAIL_CALL, TAIL_CALL_EXT, TAKE, NOTE} }

  function Bare(log: seq<Req>): seq<Req>
  {
    if log == [] then []
    else
      var last := log[|log| - 1];
      Bare(log[..|log| - 1]) + if IsMark(last) then [] else [last]
  }

  lemma BareMore(log: seq<Req>, r: Req)
    ensures Bare(log + [r]) == Bare(log) + if IsMark(r) then [] else [r]
  {
    assert (log + [r])[..|log|] == log;
  }

  /** A world whose replies and module table do not depend on the marks. */
  ghost predicate Deaf(w: World)
  {
    forall a, b :: Bare(a) == Bare(b) ==> w.sys(a) == w.sys(b) && w.table(a) == w.table(b)
  }

  ghost predicate SameEnd(a: Outcome, b: Outcome) { a.(log := Bare(a.log)) == b.(log := Bare(b.log)) }

  lemma SimpleDeaf(w: World, g: Engine, inst: Instance, i: Insn, regs: seq<Term>, log: seq<Req>, log': seq<Req>)
    requires Deaf(w) && !g.Native? && Bare(log) == Bare(log')
    ensures var e := EnvOf(w, inst, g, 0); var s, s' := Simple(e, i, regs, log), Simple(e, i, regs, log');
      && (s.Next? <==> s'.Next?)
      && (s.Next? ==> s'.regs == s.regs && Bare(s.log) == Bare(s'.log))
      && (s.Stop? ==> SameEnd(s.outcome, s'.outcome))
  {
    hide Sources, Imms, Arith, Serve, Bare, EnvOf;
    var e := EnvOf(w, inst, g, 0);
    if InFrame(regs, Sources(i)) {
      ServeDeaf(w, g, inst, Req(i.op, Imms(e.names, i), BlobOf(i), Fetch(regs, Sources(i))), log, log');
    }
  }

  lemma ServeDeaf(w: World, g: Engine, inst: Instance, r: Req, log: seq<Req>, log': seq<Req>)
    requires Deaf(w) && !g.Native? && Bare(log) == Bare(log')
    ensures var e := EnvOf(w, inst, g, 0);
      Serve(e, r, log).reply == Serve(e, r, log').reply && Bare(Serve(e, r, log).log) == Bare(Serve(e, r, log').log)
  {
    hide Bare;
    BareMore(log, r);
    BareMore(log', r);
    var h := OwnHome(inst, if |r.imms| == 1 then r.imms[0] else 0);
    var last := Req(if h.here then START else STRAY, if h.In? then [h.name, h.version] else [], [], []);
    BareMore(log + [r], last);
    BareMore(log' + [r], last);
  }

  lemma {:induction false} OnceDeaf(fuel: nat, w: World, unwinds: bool, g: Engine, inst: Instance, fi: nat,
                                    args: seq<Term>, log: seq<Req>, log': seq<Req>)
    requires Deaf(w) && Plain(w) && !g.Native? && Bare(log) == Bare(log')
    ensures var r, r' := ReadOnce(fuel, w, unwinds, g, inst, fi, args, log),
      ReadOnce(fuel, w, unwinds, g, inst, fi, args, log'); SameEnd(r.o, r'.o) && r.tailed == r'.tailed
    decreases fuel, 1, 0
  {
    hide Deaf, Plain, ReadFrame, Frame, Bare;
    if fi < |inst.m.functions| {
      var f := inst.m.functions[fi];
      if |args| == f.arity && f.nregs >= |args| {
        FrameDeaf(fuel, w, unwinds, g, inst, f, 0, Frame(f, args), log, log');
      }
    }
  }

  lemma {:induction false} FrameDeaf(fuel: nat, w: World, unwinds: bool, g: Engine, inst: Instance, f: Function,
                                     pc: nat, regs: seq<Term>, log: seq<Req>, log': seq<Req>)
    requires Deaf(w) && Plain(w) && !g.Native? && Bare(log) == Bare(log')
    ensures var r, r' := ReadFrame(fuel, w, unwinds, g, inst, f, pc, regs, log),
      ReadFrame(fuel, w, unwinds, g, inst, f, pc, regs, log'); SameEnd(r.o, r'.o) && r.tailed == r'.tailed
    decreases fuel, 0, |f.code| - pc, 1
  {
    hide Deaf, Plain, Bare, Simple, Sources, Imms, Target, Decode, EnvOf, ReadOnce, ReadOut, ReadExt, EngineFor, Fetch;
    var d := Decode(f.code, pc);
    if d.Some? {
      var i := d.value;
      assert i.next <= |f.code| && pc < i.next by { Advances(f.code, pc); }
      if !IsControl(i.op) {
        SimpleDeaf(w, g, inst, i, regs, log, log');
        var s, s' := Simple(EnvOf(w, inst, g, 0), i, regs, log), Simple(EnvOf(w, inst, g, 0), i, regs, log');
        if s.Next? { FrameDeaf(fuel, w, unwinds, g, inst, f, i.next, s.regs, s.log, s'.log); }
      } else if i.op == JMP || i.op == JMP_IF {
        JumpDeaf(fuel, w, unwinds, g, inst, f, pc, regs, log, log');
      } else if i.op == TAIL_CALL || i.op == TAIL_CALL_EXT {
        TailDeaf(fuel, w, unwinds, g, inst, f, pc, regs, log, log');
      } else if (i.op == CALL || i.op == CALL_EXT) && fuel > 0 {
        CallDeaf(fuel, w, unwinds, g, inst, f, pc, regs, log, log');
      }
    }
  }

  lemma Advances(code: seq<Byte>, pc: nat)
    requires Decode(code, pc).Some?
    ensures pc < Decode(code, pc).value.next <= |code|
  {
  }

  lemma {:induction false} JumpDeaf(fuel: nat, w: World, unwinds: bool, g: Engine, inst: Instance, f: Function,
                                      pc: nat, regs: seq<Term>, log: seq<Req>, log': seq<Req>)
    requires Deaf(w) && Plain(w) && !g.Native? && Bare(log) == Bare(log')
    requires Decode(f.code, pc).Some? && Decode(f.code, pc).value.op in {JMP, JMP_IF}
    ensures var r, r' := ReadFrame(fuel, w, unwinds, g, inst, f, pc, regs, log),
      ReadFrame(fuel, w, unwinds, g, inst, f, pc, regs, log'); SameEnd(r.o, r'.o) && r.tailed == r'.tailed
    decreases fuel, 0, |f.code| - pc, 0
  {
    hide Deaf, Plain, Bare, Target, Decode, EnvOf, Simple, Sources, Fetch, ReadOnce, ReadOut, ReadExt, EngineFor,
      Control;
    var i := Decode(f.code, pc).value;
    Advances(f.code, pc);
    if i.op == JMP_IF && Reg(i, 0) < |regs| && IsInt(regs[Reg(i, 0)]) && IntOf(regs[Reg(i, 0)]) == 0 {
      FrameDeaf(fuel, w, unwinds, g, inst, f, i.next, regs, log, log');
    } else if fuel > 0 && 0 <= Target(i) <= |f.code| {
      FrameDeaf(fuel - 1, w, unwinds, g, inst, f, Target(i), regs, log, log');
    }
  }

  lemma {:induction false} CallDeaf(fuel: nat, w: World, unwinds: bool, g: Engine, inst: Instance, f: Function,
                                    pc: nat, regs: seq<Term>, log: seq<Req>, log': seq<Req>)
    requires Deaf(w) && Plain(w) && !g.Native? && Bare(log) == Bare(log') && fuel > 0
    requires Decode(f.code, pc).Some? && Decode(f.code, pc).value.op in {CALL, CALL_EXT}
    ensures var r, r' := ReadFrame(fuel, w, unwinds, g, inst, f, pc, regs, log),
      ReadFrame(fuel, w, unwinds, g, inst, f, pc, regs, log'); SameEnd(r.o, r'.o) && r.tailed == r'.tailed
    decreases fuel, 0, |f.code| - pc, 0
  {
    hide Deaf, Plain, Bare, Sources, Decode, EnvOf, ReadOnce, ReadOut, ReadExt, Fetch, Simple, Control, EngineFor;
    var i := Decode(f.code, pc).value;
    Advances(f.code, pc);
    if InFrame(regs, Sources(i)) {
      var args := Fetch(regs, Sources(i));
      if i.op == CALL {
        OnceDeaf(fuel - 1, w, unwinds, g, inst, Reg(i, 1), args, log, log');
        var r := ReadOnce(fuel - 1, w, unwinds, g, inst, Reg(i, 1), args, log);
        var r' := ReadOnce(fuel - 1, w, unwinds, g, inst, Reg(i, 1), args, log');
        if r.o.Done? && Reg(i, 0) < |regs| {
          FrameDeaf(r.o.left, w, unwinds, g, inst, f, i.next, regs[Reg(i, 0) := r.o.w], r.o.log, r'.o.log);
        }
      } else {
        var x := ExtOf(EnvOf(w, inst, g, 0), f.code, i, args);
        ExtDeaf(fuel - 1, w, unwinds, inst, x, log, log');
        var o, o' := ReadExt(fuel - 1, w, unwinds, inst, x, log), ReadExt(fuel - 1, w, unwinds, inst, x, log');
        if o.Done? && Reg(i, 0) < |regs| {
          FrameDeaf(o.left, w, unwinds, g, inst, f, i.next, regs[Reg(i, 0) := o.w], o.log, o'.log);
        }
      }
    }
  }

  lemma {:induction false} ExtDeaf(fuel: nat, w: World, unwinds: bool, caller: Instance, x: Ext, log: seq<Req>,
                                   log': seq<Req>)
    requires Deaf(w) && Plain(w) && Bare(log) == Bare(log')
    ensures SameEnd(ReadExt(fuel, w, unwinds, caller, x, log), ReadExt(fuel, w, unwinds, caller, x, log'))
    decreases fuel, 2
  {
    hide Bare, ReadOnce, Resolve, EngineFor;
    BareMore(log, Called(x));
    BareMore(log', Called(x));
    var a, b := log + [Called(x)], log' + [Called(x)];
    var h := Resolve(w.table(a), x.module_, x.name, x.args);
    if h.Enter? {
      var g := EngineFor(w, h.inst, h.args);
      BareMore(a, Note(h.inst));
      BareMore(b, Note(h.inst));
      PlainEngine(w, h.inst, h.args);
      OnceDeaf(fuel, w, unwinds, g, h.inst, h.fi, h.args, a + [Note(h.inst)], b + [Note(h.inst)]);
      BareMore(ReadOnce(fuel, w, unwinds, g, h.inst, h.fi, h.args, a + [Note(h.inst)]).o.log, Note(caller));
      BareMore(ReadOnce(fuel, w, unwinds, g, h.inst, h.fi, h.args, b + [Note(h.inst)]).o.log, Note(caller));
    }
  }

  lemma {:induction false} OutDeaf(fuel: nat, w: World, unwinds: bool, m: nat, k: nat, args: seq<Term>, log: seq<Req>,
                                   log': seq<Req>)
    requires Deaf(w) && Plain(w) && Bare(log) == Bare(log')
    ensures SameEnd(ReadOut(fuel, w, unwinds, m, k, args, log), ReadOut(fuel, w, unwinds, m, k, args, log'))
    decreases fuel, 0, 0
  {
    hide Bare, ReadOnce, Resolve, EngineFor;
    var h := Resolve(w.table(log), m, k, args);
    if h.Enter? {
      BareMore(log, Note(h.inst));
      BareMore(log', Note(h.inst));
      PlainEngine(w, h.inst, h.args);
      if fuel > 0 {
        OnceDeaf(fuel - 1, w, unwinds, EngineFor(w, h.inst, h.args), h.inst, h.fi, h.args, log + [Note(h.inst)],
          log' + [Note(h.inst)]);
      }
    }
  }

  lemma {:induction false} TailDeaf(fuel: nat, w: World, unwinds: bool, g: Engine, inst: Instance, f: Function,
                                    pc: nat, regs: seq<Term>, log: seq<Req>, log': seq<Req>)
    requires Deaf(w) && Plain(w) && !g.Native? && Bare(log) == Bare(log')
    requires Decode(f.code, pc).Some? && Decode(f.code, pc).value.op in {TAIL_CALL, TAIL_CALL_EXT}
    ensures var r, r' := ReadFrame(fuel, w, unwinds, g, inst, f, pc, regs, log),
      ReadFrame(fuel, w, unwinds, g, inst, f, pc, regs, log'); SameEnd(r.o, r'.o) && r.tailed == r'.tailed
    decreases fuel, 0, |f.code| - pc, 0
  {
    hide Deaf, Plain, Bare, Sources, Decode, EnvOf, ReadOnce, ReadOut, Fetch, EngineFor;
    var i := Decode(f.code, pc).value;
    Advances(f.code, pc);
    if InFrame(regs, Sources(i)) {
      var e, args := EnvOf(w, inst, g, 0), Fetch(regs, Sources(i));
      var r := if i.op == TAIL_CALL then Req(TAIL_CALL, [Reg(i, 0)], [], args)
        else Req(TAIL_CALL_EXT, [Global(e.names, Reg(i, 0)), Global(e.names, Reg(i, 1))], [], args);
      HopMarks(log, r);
      HopMarks(log', r);
      PlainEngine(w, inst, args);
      if i.op == TAIL_CALL {
        if fuel > 0 {
          OnceDeaf(fuel - 1, w, unwinds, EngineFor(w, inst, args), inst, Reg(i, 0), args, log + [r] + [Took],
            log' + [r] + [Took]);
        }
      } else {
        OutDeaf(fuel, w, unwinds, r.imms[0], r.imms[1], args, log + [r] + [Took], log' + [r] + [Took]);
      }
    }
  }

  lemma HopMarks(log: seq<Req>, r: Req)
    requires IsMark(r)
    ensures Bare(log + [r] + [Took]) == Bare(log)
  {
    BareMore(log, r);
    BareMore(log + [r], Took);
  }

  /** At `pc`, CALL rd, k, rs or CALL_EXT rd, m, k, rs, then RET rd, `rs` listed after `at` bytes. */
  ghost predicate ReturnsCall(f: Function, pc: nat, at: nat, op: nat, regs: seq<Term>)
  {
    && pc < |f.code| && f.code[pc] == op && ArgsAt(f.code, pc + at).Some? && 0 < at
    && (var end := pc + at + 1 + f.code[pc + at] as int;
        end + 2 <= |f.code| && f.code[end] == 19 && f.code[end + 1] == f.code[pc + 1])
    && f.code[pc + 1] < |regs| && Framed(regs, ArgsAt(f.code, pc + at).value)
  }

  ghost predicate Framed(regs: seq<Term>, rs: seq<nat>) { forall j :: 0 <= j < |rs| ==> rs[j] < |regs| }

  /** The same end, marks aside; code at fault is at fault either way. */
  ghost predicate ComesTo(a: Outcome, b: Outcome) { if a.Broken? then b.Broken? else SameEnd(a, b) }

  lemma ReturnReads(fuel: nat, w: World, unwinds: bool, g: Engine, inst: Instance, f: Function, pc: nat,
                    regs: seq<Term>, log: seq<Req>)
    requires pc + 2 <= |f.code| && f.code[pc] == 19 && f.code[pc + 1] < |regs|
    ensures ReadFrame(fuel, w, unwinds, g, inst, f, pc, regs, log)
      == Reading(Done(regs[f.code[pc + 1]], log, fuel), false)
  {
    hide Decode;
    BytesDecode(f.code, pc, 1);
  }

  /** TAIL_CALL k, rs comes to CALL rd, k, rs; RET rd. */
  lemma TailIsCallReturn(fuel: nat, w: World, unwinds: bool, g: Engine, inst: Instance, f: Function, pc: nat,
                         f': Function, pc': nat, regs: seq<Term>, log: seq<Req>)
    requires Deaf(w) && Plain(w) && fuel > 0 && ReturnsCall(f', pc', 6, 18, regs)
    requires pc < |f.code| && f.code[pc] == 49 && ArgsAt(f.code, pc + 5) == ArgsAt(f'.code, pc' + 6)
    requires Word32(f.code, pc + 1) == Word32(f'.code, pc' + 2)
    requires g == EngineFor(w, inst, Values(regs, ArgsAt(f.code, pc + 5).value))
    ensures ComesTo(ReadFrame(fuel, w, unwinds, g, inst, f, pc, regs, log).o,
                    ReadFrame(fuel, w, unwinds, g, inst, f', pc', regs, log).o)
  {
    hide Deaf, Plain, Bare, Sources, Imms, Decode, EnvOf, ReadOnce, Fetch, EngineFor, ArgsAt, Values, Word32;
    var rs, k, rd := ArgsAt(f.code, pc + 5).value, Word32(f.code, pc + 1), f'.code[pc' + 1];
    TailOperandsAt(f.code, pc);
    CallDecodes(f'.code, pc');
    FetchIsValues(regs, rs);
    var args := Values(regs, rs);
    var hop := Req(TAIL_CALL, [k], [], args);
    HopMarks(log, hop);
    PlainEngine(w, inst, args);
    OnceDeaf(fuel - 1, w, unwinds, g, inst, k, args, log + [hop] + [Took], log);
    var r := ReadOnce(fuel - 1, w, unwinds, g, inst, k, args, log);
    if r.o.Done? {
      var end := pc' + 7 + f'.code[pc' + 6] as int;
      ReturnReads(r.o.left, w, unwinds, g, inst, f', end, regs[rd := r.o.w], r.o.log);
    }
  }

  lemma TailOperandsAt(code: seq<Byte>, pc: nat)
    requires pc < |code| && code[pc] == 49 && ArgsAt(code, pc + 5).Some?
    ensures var d := Decode(code, pc);
      && d.Some? && d.value.op == 49 && Reg(d.value, 0) == Word32(code, pc + 1)
      && Sources(d.value) == ArgsAt(code, pc + 5).value
  {
    hide Decode, Sources, Imms, ArgsAt, Word32;
    TailDecodes(Names([], 0), code, pc);
    CallOperands(Names([], 0), Decode(code, pc).value);
  }

  lemma TailExtOperandsAt(ns: Names, code: seq<Byte>, pc: nat)
    requires pc < |code| && code[pc] == 47 && ArgsAt(code, pc + 9).Some?
    ensures var d := Decode(code, pc);
      && d.Some? && d.value.op == 47 && Sources(d.value) == ArgsAt(code, pc + 9).value
      && Global(ns, Reg(d.value, 0)) == AtomIn(ns, Word32(code, pc + 1))
      && Global(ns, Reg(d.value, 1)) == AtomIn(ns, Word32(code, pc + 5))
  {
    hide Decode, Sources, Imms, ArgsAt, Word32;
    TailExtDecodes(ns, code, pc);
    ExternOperands(ns, Decode(code, pc).value);
  }

  lemma HopReads(fuel: nat, w: World, unwinds: bool, g: Engine, inst: Instance, f: Function, pc: nat,
                 regs: seq<Term>, log: seq<Req>)
    requires pc < |f.code| && f.code[pc] == 47 && ArgsAt(f.code, pc + 9).Some?
    requires Framed(regs, ArgsAt(f.code, pc + 9).value)
    ensures var ns, args := NamesOf(w, inst), Values(regs, ArgsAt(f.code, pc + 9).value);
      var m, k := AtomIn(ns, Word32(f.code, pc + 1)), AtomIn(ns, Word32(f.code, pc + 5));
      ReadFrame(fuel, w, unwinds, g, inst, f, pc, regs, log).o
        == ReadOut(fuel, w, unwinds, m, k, args, log + [Req(TAIL_CALL_EXT, [m, k], [], args)] + [Took])
  {
    hide Sources, Imms, Decode, ReadOut, ReadExt, ReadOnce, Fetch, Simple, Control, ArgsAt, Values, Word32;
    TailExtOperandsAt(NamesOf(w, inst), f.code, pc);
    FetchIsValues(regs, ArgsAt(f.code, pc + 9).value);
  }

  lemma CallReturnReads(fuel: nat, w: World, unwinds: bool, g: Engine, inst: Instance, f: Function, pc: nat,
                        regs: seq<Term>, log: seq<Req>)
    requires fuel > 0 && ReturnsCall(f, pc, 10, 27, regs)
    ensures var ns, args := NamesOf(w, inst), Values(regs, ArgsAt(f.code, pc + 10).value);
      var m, k := AtomIn(ns, Word32(f.code, pc + 2)), AtomIn(ns, Word32(f.code, pc + 6));
      var x := Ext(Site(f.code, pc + 11 + f.code[pc + 10] as int), m, k, args);
      var o := ReadExt(fuel - 1, w, unwinds, inst, x, log);
      ReadFrame(fuel, w, unwinds, g, inst, f, pc, regs, log).o == if o.Broken? then Broken(Elsewhere, o.log) else o
  {
    hide Sources, Imms, Decode, ReadOut, ReadExt, ReadOnce, Fetch, Simple, Control, ArgsAt, Values, Word32;
    var ns, rs, end := NamesOf(w, inst), ArgsAt(f.code, pc + 10).value, pc + 11 + f.code[pc + 10] as int;
    CallExtDecodes(f.code, pc);
    FetchIsValues(regs, rs);
    var m, k := AtomIn(ns, Word32(f.code, pc + 2)), AtomIn(ns, Word32(f.code, pc + 6));
    var o := ReadExt(fuel - 1, w, unwinds, inst, Ext(Site(f.code, end), m, k, Values(regs, rs)), log);
    if o.Done? { ReturnReads(o.left, w, unwinds, g, inst, f, end, regs[f.code[pc + 1] := o.w], o.log); }
  }

  /** TAIL_CALL_EXT m, k, rs comes to CALL_EXT rd, m, k, rs; RET rd. */
  lemma TailExtIsCallReturn(fuel: nat, w: World, unwinds: bool, g: Engine, inst: Instance, f: Function, pc: nat,
                            f': Function, pc': nat, regs: seq<Term>, log: seq<Req>)
    requires Deaf(w) && Plain(w) && !g.Native? && fuel > 0 && ReturnsCall(f', pc', 10, 27, regs)
    requires pc < |f.code| && f.code[pc] == 47 && ArgsAt(f.code, pc + 9) == ArgsAt(f'.code, pc' + 10)
    requires Word32(f.code, pc + 1) == Word32(f'.code, pc' + 2) && Word32(f.code, pc + 5) == Word32(f'.code, pc' + 6)
    ensures ComesTo(ReadFrame(fuel, w, unwinds, g, inst, f, pc, regs, log).o,
                    ReadFrame(fuel, w, unwinds, g, inst, f', pc', regs, log).o)
  {
    hide Deaf, Plain, Bare, ReadFrame, ReadOut, ReadExt, ArgsAt, Values, Word32;
    HopReads(fuel, w, unwinds, g, inst, f, pc, regs, log);
    CallReturnReads(fuel, w, unwinds, g, inst, f', pc', regs, log);
    var ns, args := NamesOf(w, inst), Values(regs, ArgsAt(f.code, pc + 9).value);
    var m, k := AtomIn(ns, Word32(f.code, pc + 1)), AtomIn(ns, Word32(f.code, pc + 5));
    OutIsExt(fuel, w, unwinds, inst, Ext(Site(f'.code, pc' + 11 + f'.code[pc' + 10] as int), m, k, args), log);
  }

  /** A hop out and an external call for the same fuel. */
  lemma OutIsExt(fuel: nat, w: World, unwinds: bool, caller: Instance, x: Ext, log: seq<Req>)
    requires Deaf(w) && Plain(w) && fuel > 0
    ensures var log' := log + [Req(TAIL_CALL_EXT, [x.module_, x.name], [], x.args)] + [Took];
      SameEnd(ReadOut(fuel, w, unwinds, x.module_, x.name, x.args, log'),
              ReadExt(fuel - 1, w, unwinds, caller, x, log))
  {
    hide Bare, ReadOnce, Resolve, EngineFor, Plain;
    var hop := Req(TAIL_CALL_EXT, [x.module_, x.name], [], x.args);
    var a, b := log + [hop] + [Took], log + [Called(x)];
    HopMarks(log, hop);
    BareMore(log, Called(x));
    var h := Resolve(w.table(a), x.module_, x.name, x.args);
    if h.Enter? {
      var g := EngineFor(w, h.inst, h.args);
      BareMore(a, Note(h.inst));
      BareMore(b, Note(h.inst));
      PlainEngine(w, h.inst, h.args);
      OnceDeaf(fuel - 1, w, unwinds, g, h.inst, h.fi, h.args, a + [Note(h.inst)], b + [Note(h.inst)]);
      BareMore(ReadOnce(fuel - 1, w, unwinds, g, h.inst, h.fi, h.args, b + [Note(h.inst)]).o.log, Note(caller));
    }
  }

  /** So it is for the trampoline: a verified frame about to make the tail call, finished, ends
      as the one about to make the call and return, in everything but marks. */
  lemma TailFinishesAsCall(fuel: nat, w: World, g: Engine, inst: Instance, f: Function, pc: nat, f': Function, pc': nat,
                           regs: seq<Term>, log: seq<Req>)
    requires Sane(w) && Deaf(w) && Plain(w) && !g.Native? && fuel > 0
    requires Verified(inst.m) && Ready(inst.m, f, pc, regs) && Ready(inst.m, f', pc', regs) && Clean(regs)
    requires
      || (&& pc < |f.code| && f.code[pc] == 49 && ReturnsCall(f', pc', 6, 18, regs)
          && ArgsAt(f.code, pc + 5) == ArgsAt(f'.code, pc' + 6)
          && Word32(f.code, pc + 1) == Word32(f'.code, pc' + 2)
          && g == EngineFor(w, inst, Values(regs, ArgsAt(f.code, pc + 5).value)))
      || (&& pc < |f.code| && f.code[pc] == 47 && ReturnsCall(f', pc', 10, 27, regs)
          && ArgsAt(f.code, pc + 9) == ArgsAt(f'.code, pc' + 10)
          && Word32(f.code, pc + 1) == Word32(f'.code, pc' + 2)
          && Word32(f.code, pc + 5) == Word32(f'.code, pc' + 6))
    ensures var e := EnvOf(w, inst, g, fuel);
      ComesTo(Finish(w, inst, Exec(fuel, e, f, pc, regs, log)), Finish(w, inst, Exec(fuel, e, f', pc', regs, log)))
  {
    hide Sane, Deaf, Plain, Verified, Ready, Clean, Exec, EnvOf, ReadFrame, EngineFor, ComesTo, ArgsAt, Word32, Values;
    FrameReads(fuel, fuel, w, g, inst, f, pc, regs, log);
    FrameReads(fuel, fuel, w, g, inst, f', pc', regs, log);
    if f.code[pc] == 49 {
      TailIsCallReturn(fuel, w, true, g, inst, f, pc, f', pc', regs, log);
    } else {
      TailExtIsCallReturn(fuel, w, true, g, inst, f, pc, f', pc', regs, log);
    }
  }
}
