/** The interpreter over a system it can only see through requests and replies.

    `fuel` pays for taken jumps and calls, one each over the whole run, and what is left is
    handed back; a run that uses it up ends as `Spent`. Straight-line code needs none.
    Statements here hold for every fuel, so for every finite run and every prefix of an
    endless one. */
module Interp {
  import opened Basics
  import opened Bytecode

  const TWO64: nat := 0x1_0000_0000_0000_0000

  /** A tagged 64-bit word. */
  type Term = w: nat | w < TWO64

  const NIL: Term := 5
  /** A word with tag 7, never a term: the function ended in a tail call. */
  const TAIL_SENTINEL: Term := 7

  datatype Trap = Badarg | BadCode | HeapFull | Exit(atom: nat)

  /** What an instruction asks of the system: heap building and reading, messages, ports,
      tail-call stashes. */
  datatype Req = Req(op: nat, imms: seq<nat>, blob: seq<Byte>, args: seq<Term>)

  datatype Reply = Value(w: Term) | Fault(trap: Trap)

  /** An external call instruction: the code it is in and where it ends. */
  datatype Site = Site(code: seq<Byte>, next: nat)

  /** An external call: its site, global module and function atoms, arguments. */
  datatype Ext = Ext(site: Site, module_: nat, name: nat, args: seq<Term>)

  /** Global numbers of a module's atoms; one more stands for local atoms out of range. */
  datatype Names = Names(atoms: seq<nat>, unknown: nat)

  /** The instance a spawned function is looked up in, and whether it is the one executing. */
  datatype Home = In(name: nat, version: nat, here: bool) | Nowhere(trap: Trap, here: bool)

  /** A module instance; whether its products wrap rather than trap on overflow; the system it
      runs on, whose reply may depend on everything asked so far; where function `k` would be
      spawned; and whatever serves external calls, given fuel and the log to go on with. */
  datatype Env = Env(
    m: Module, names: Names, wraps: bool, sys: seq<Req> -> Reply, home: (nat, seq<Req>) -> Home,
    ext: (nat, Ext, seq<Req>) -> Outcome)

  /** Ways code itself, not its data, can be at fault: the engine reports the first three as
      BadCode and the next two, arguments and registers outside the frame, as Badarg. The
      last is a fault of the code an external call ran. */
  datatype Defect = BadDecode | BadJump | BadCallee | BadArity | BadFrame | Elsewhere

  /** `Overflow` is reported as Badarg; it is kept apart because wrapping code does not raise
      it. */
  datatype Outcome =
    | Done(w: Term, log: seq<Req>, left: nat)
    | Trapped(trap: Trap, log: seq<Req>)
    | Overflow(log: seq<Req>)
    | Broken(defect: Defect, log: seq<Req>)
    | Spent(log: seq<Req>)

  datatype Flow = Next(regs: seq<Term>, log: seq<Req>) | Stop(outcome: Outcome)

  predicate IsInt(w: Term) { w % 8 == 1 }

  predicate IsAtom(w: Term) { w % 8 == 2 }

  /** The low 64 bits. */
  function Word(v: int): Term { v % TWO64 }

  /** A word read as an i64. */
  function Signed(w: Term): int { if w >= TWO64 / 2 then w - TWO64 else w }

  predicate FitsI64(v: int) { -(TWO64 / 2) <= v < TWO64 / 2 }

  function IntTerm(v: int): Term { Word(8 * v + 1) }

  function AtomTerm(global: nat): Term { 8 * (global % 0x1_0000_0000) + 2 }

  /** The i64 an integer term carries: an arithmetic shift, so rounding down. */
  function IntOf(w: Term): int { Signed(w) / 8 }

  /** The 32-bit atom number an atom term carries. */
  function AtomOf(w: Term): nat { (w / 8) % 0x1_0000_0000 }

  /** i64 arithmetic that gives nothing on overflow. */
  function Checked(op: nat, a: int, b: int): Option<int>
  {
    var v := if op == ADD then a + b else if op == SUB then a - b else a * b;
    if FitsI64(v) then Some(v) else None
  }

  /** The low `n` bits of a bitwise operation on two numbers. */
  function Bitwise(op: nat, a: nat, b: nat, n: nat): nat
  {
    if n == 0 then 0
    else
      var x, y := a % 2, b % 2;
      (if op == BAND then x * y else if op == BOR then x + y - x * y else (x + y) % 2)
        + 2 * Bitwise(op, a / 2, b / 2, n - 1)
  }

  function BitOp(op: nat, a: int, b: int): int { Signed(Word(Bitwise(op, Word(a), Word(b), 64))) }

  function ShiftLeft(a: int, n: nat): int { Signed(Word(a * Pow2(n))) }

  function ShiftRight(a: int, n: nat): int { a / Pow2(n) }

  /** Shift amounts outside 0..=60 trap; the result is cut back into i61. */
  function Shift(op: nat, a: int, b: int): Option<int>
  {
    if b < 0 || b > 60 then None
    else
      var v := if op == BSL then ShiftLeft(a, b) else ShiftRight(a, b);
      Some(Signed(Word(8 * v)) / 8)
  }

  /** What an integer instruction makes of its operands. */
  datatype Computed = Result(w: Term) | BadOperand | OutOfRange

  /** Two-operand integer instructions. */
  function IntResult(op: nat, wa: Term, wb: Term): Computed
  {
    if !IsInt(wa) || !IsInt(wb) then BadOperand
    else
      var a, b := IntOf(wa), IntOf(wb);
      if op in {ADD, SUB, MUL} then
        var v := Checked(op, a, b);
        if v.Some? then Result(IntTerm(v.value)) else OutOfRange
      else if op == CMP_LT then Result(IntTerm(if a < b then 1 else 0))
      else if op in {BSL, BSR} then
        var v := Shift(op, a, b);
        if v.Some? then Result(IntTerm(v.value)) else BadOperand
      else Result(IntTerm(BitOp(op, a, b)))
  }

  /** A product out of range, with `wraps`, is cut to 64 bits. */
  function Arith(wraps: bool, op: nat, wa: Term, wb: Term): Computed
  {
    var r := IntResult(op, wa, wb);
    if wraps && r.OutOfRange? then Result(IntTerm(Signed(Word(IntOf(wa) * IntOf(wb))))) else r
  }

  predicate IsIntOp(op: nat) { op in {ADD, SUB, MUL, CMP_LT, BAND, BOR, BXOR, BSL, BSR} }

  /** Instructions with no destination among those the system carries out. */
  predicate NoResult(op: nat) { op in {SEND, PRINT, PORT_SUBMIT, PORT_SUBMIT2, SLEEP_MS} }

  /** System results that are a bare 0 or 1 for the engine to tag. */
  predicate RawResult(op: nat) { op in {CMP_EQ, IS_BINARY} }

  function Reg(i: Insn, k: nat): nat { if k < |i.args| && i.args[k].Num? then i.args[k].n else 0 }

  function Listed(i: Insn, k: nat): seq<Byte> { if k < |i.args| && i.args[k].List? then i.args[k].bytes else [] }

  /** Registers an operand names. */
  function RegsOf(i: Insn, role: Role, k: nat): seq<nat>
  {
    match role
    case RReg => [Reg(i, k)]
    case RRegs => Listed(i, k)
    case RArgs => Listed(i, k)
    case RPairs => Listed(i, k)
    case _ => []
  }

  /** Source registers of an instruction from operand `k` on, in order. */
  function SourcesFrom(i: Insn, roles: seq<Role>, k: nat): seq<nat>
    decreases |roles|
  {
    if roles == [] then [] else RegsOf(i, roles[0], k) + SourcesFrom(i, roles[1..], k + 1)
  }

  function Sources(i: Insn): seq<nat>
  {
    var roles := Roles(i.op);
    if roles.None? || roles.value == [] then []
    else if NoResult(i.op) then SourcesFrom(i, roles.value, 0)
    else SourcesFrom(i, roles.value[1..], 1)
  }

  /** The immediate an operand is, a module-local atom mapped to its global number. */
  function ImmOf(ns: Names, i: Insn, role: Role, k: nat): seq<nat>
  {
    match role
    case RByte => [Reg(i, k)]
    case RSpawnee => [Reg(i, k)]
    case RCallee => [Reg(i, k)]
    case RAtom => [Global(ns, Reg(i, k))]
    case _ => []
  }

  function ImmsFrom(ns: Names, i: Insn, roles: seq<Role>, k: nat): seq<nat>
    decreases |roles|
  {
    if roles == [] then [] else ImmOf(ns, i, roles[0], k) + ImmsFrom(ns, i, roles[1..], k + 1)
  }

  function Global(ns: Names, local: nat): nat { if local < |ns.atoms| then ns.atoms[local] else ns.unknown }

  function Imms(ns: Names, i: Insn): seq<nat>
  { if Roles(i.op).Some? then ImmsFrom(ns, i, Roles(i.op).value, 0) else [] }

  function BlobOf(i: Insn): seq<Byte> { if i.op == BIN_NEW then Listed(i, 1) else [] }

  lemma Operands1(ns: Names, i: Insn, a: Role, k: nat)
    ensures SourcesFrom(i, [a], k) == RegsOf(i, a, k) && ImmsFrom(ns, i, [a], k) == ImmOf(ns, i, a, k)
  {
    assert [a][1..] == [];
  }

  lemma Operands2(ns: Names, i: Insn, a: Role, b: Role, k: nat)
    ensures SourcesFrom(i, [a, b], k) == RegsOf(i, a, k) + RegsOf(i, b, k + 1)
    ensures ImmsFrom(ns, i, [a, b], k) == ImmOf(ns, i, a, k) + ImmOf(ns, i, b, k + 1)
  {
    assert [a, b][1..] == [b];
    Operands1(ns, i, b, k + 1);
  }

  lemma Operands3(ns: Names, i: Insn, a: Role, b: Role, c: Role, k: nat)
    ensures SourcesFrom(i, [a, b, c], k) == RegsOf(i, a, k) + (RegsOf(i, b, k + 1) + RegsOf(i, c, k + 2))
    ensures ImmsFrom(ns, i, [a, b, c], k) == ImmOf(ns, i, a, k) + (ImmOf(ns, i, b, k + 1) + ImmOf(ns, i, c, k + 2))
  {
    assert [a, b, c][1..] == [b, c];
    Operands2(ns, i, b, c, k + 1);
  }

  predicate InFrame(regs: seq<Term>, rs: seq<nat>) { forall k :: 0 <= k < |rs| ==> rs[k] < |regs| }

  function Fetch(regs: seq<Term>, rs: seq<nat>): (ws: seq<Term>)
    requires InFrame(regs, rs)
    ensures |ws| == |rs|
  {
    seq(|rs|, k requires 0 <= k < |rs| => regs[rs[k]])
  }

  function SetReg(regs: seq<Term>, r: nat, w: Term, log: seq<Req>): (s: Flow)
    ensures s.Stop? ==> !s.outcome.Done?
  {
    if r < |regs| then Next(regs[r := w], log) else Stop(Broken(BadFrame, log))
  }

  /** Log entries beside the instructions': where a spawned function starts, there where it
      was asked for or astray. */
  const START: nat := 257
  const STRAY: nat := 258

  datatype Served = Served(reply: Reply, log: seq<Req>)

  /** A request put to the system. For a SPAWN the instance is looked up first, after the
      asking, and the system is told it. */
  function Serve(e: Env, r: Req, log: seq<Req>): Served
  {
    var log' := log + [r];
    if r.op != SPAWN then Served(e.sys(log'), log')
    else
      var h := e.home(if |r.imms| == 1 then r.imms[0] else 0, log');
      var log'' := log' + [Req(if h.here then START else STRAY, if h.In? then [h.name, h.version] else [], [], [])];
      Served(if h.In? then e.sys(log'') else Fault(h.trap), log'')
  }

  /** Instructions that neither jump, call nor end the function. */
  function Simple(e: Env, i: Insn, regs: seq<Term>, log: seq<Req>): (s: Flow)
    ensures s.Stop? ==> !s.outcome.Done?
  {
    if i.op == NOP then Next(regs, log)
    else if i.op == LOAD_INT then SetReg(regs, Reg(i, 0), IntTerm(Signed(Word(Reg(i, 1)))), log)
    else if i.op == LOAD_ATOM then SetReg(regs, Reg(i, 0), AtomTerm(Global(e.names, Reg(i, 1))), log)
    else if i.op == LOAD_NIL then SetReg(regs, Reg(i, 0), NIL, log)
    else if i.op == MOVE then
      if Reg(i, 1) >= |regs| then Stop(Broken(BadFrame, log)) else SetReg(regs, Reg(i, 0), regs[Reg(i, 1)], log)
    else if IsIntOp(i.op) then
      if Reg(i, 1) >= |regs| || Reg(i, 2) >= |regs| then Stop(Broken(BadFrame, log))
      else
        match Arith(e.wraps, i.op, regs[Reg(i, 1)], regs[Reg(i, 2)])
        case BadOperand => Stop(Trapped(Badarg, log))
        case OutOfRange => Stop(Overflow(log))
        case Result(w) => SetReg(regs, Reg(i, 0), w, log)
    else if i.op == BNOT then
      if Reg(i, 1) >= |regs| then Stop(Broken(BadFrame, log))
      else if !IsInt(regs[Reg(i, 1)]) then Stop(Trapped(Badarg, log))
      else SetReg(regs, Reg(i, 0), IntTerm(-IntOf(regs[Reg(i, 1)]) - 1), log)
    else if !InFrame(regs, Sources(i)) then Stop(Broken(BadFrame, log))
    else
      var s := Serve(e, Req(i.op, Imms(e.names, i), BlobOf(i), Fetch(regs, Sources(i))), log);
      match s.reply
      case Fault(trap) => Stop(Trapped(trap, s.log))
      case Value(w) =>
        if NoResult(i.op) then Next(regs, s.log)
        else SetReg(regs, Reg(i, 0), if RawResult(i.op) then IntTerm(w) else w, s.log)
  }

  predicate IsControl(op: nat) { op in {JMP, JMP_IF, CALL, CALL_EXT, RET, EXIT_ATOM, TAIL_CALL, TAIL_CALL_EXT} }

  function Frame(f: Function, args: seq<Term>): seq<Term>
  {
    args + seq(if f.nregs > |args| then f.nregs - |args| else 0, _ => NIL)
  }

  function RunFunction(fuel: nat, e: Env, fi: nat, args: seq<Term>, log: seq<Req>): (o: Outcome)
    ensures o.Done? ==> o.left <= fuel
    decreases fuel, 1, 0
  {
    if fi >= |e.m.functions| then Broken(BadCallee, log)
    else
      var f := e.m.functions[fi];
      if |args| != f.arity || f.nregs < |args| then Broken(BadArity, log)
      else Exec(fuel, e, f, 0, Frame(f, args), log)
  }

  function Exec(fuel: nat, e: Env, f: Function, pc: nat, regs: seq<Term>, log: seq<Req>): (o: Outcome)
    ensures o.Done? ==> o.left <= fuel
    decreases fuel, 0, |f.code| - pc
  {
    var d := Decode(f.code, pc);
    if d.None? then Broken(BadDecode, log)
    else if IsControl(d.value.op) then Control(fuel, e, f, pc, d.value, regs, log)
    else
      match Simple(e, d.value, regs, log)
      case Stop(o) => o
      case Next(regs', log') => Exec(fuel, e, f, d.value.next, regs', log')
  }

  /** Jumps, calls and returns. */
  function Control(fuel: nat, e: Env, f: Function, ghost pc: nat, i: Insn, regs: seq<Term>, log: seq<Req>): (o: Outcome)
    requires Decode(f.code, pc) == Some(i)
    ensures o.Done? ==> o.left <= fuel
    decreases fuel, 0, |f.code| - pc, 0
  {
    if i.op == JMP then Jump(fuel, e, f, i, regs, log)
    else if i.op == JMP_IF then
      if Reg(i, 0) >= |regs| then Broken(BadFrame, log)
      else if !IsInt(regs[Reg(i, 0)]) then Trapped(Badarg, log)
      else if IntOf(regs[Reg(i, 0)]) != 0 then Jump(fuel, e, f, i, regs, log)
      else Exec(fuel, e, f, i.next, regs, log)
    else if i.op == RET then
      if Reg(i, 0) < |regs| then Done(regs[Reg(i, 0)], log, fuel) else Broken(BadFrame, log)
    else if i.op == EXIT_ATOM then
      if Reg(i, 0) >= |regs| then Broken(BadFrame, log)
      else if IsAtom(regs[Reg(i, 0)]) then Trapped(Exit(AtomOf(regs[Reg(i, 0)])), log)
      else Trapped(Badarg, log)
    else if !InFrame(regs, Sources(i)) then Broken(BadFrame, log)
    else if i.op == CALL then
      if fuel == 0 then Spent(log)
      else
        match RunFunction(fuel - 1, e, Reg(i, 1), Fetch(regs, Sources(i)), log)
        case Done(w, log', left) =>
          if w == TAIL_SENTINEL then Done(TAIL_SENTINEL, log', left)
          else if Reg(i, 0) < |regs| then Exec(left, e, f, i.next, regs[Reg(i, 0) := w], log')
          else Broken(BadFrame, log')
        case o => o
    else if i.op == CALL_EXT then
      if fuel == 0 then Spent(log)
      else
        match CallOut(fuel - 1, e, ExtOf(e, f.code, i, Fetch(regs, Sources(i))), log)
        case Done(w, log', left) =>
          if Reg(i, 0) < |regs| then Exec(left, e, f, i.next, regs[Reg(i, 0) := w], log') else Broken(BadFrame, log')
        case o => o
    else
      Done(TAIL_SENTINEL, log + [Req(i.op, Imms(e.names, i), [], Fetch(regs, Sources(i)))], fuel)
  }

  /** The external call an instruction makes. */
  function ExtOf(e: Env, code: seq<Byte>, i: Insn, args: seq<Term>): Ext
  {
    Ext(Site(code, i.next), Global(e.names, Reg(i, 1)), Global(e.names, Reg(i, 2)), args)
  }

  /** An external call as it stands in the log. */
  function Called(x: Ext): Req { Req(CALL_EXT, [x.module_, x.name], [], x.args) }

  /** An external call, served with the fuel given. */
  function CallOut(fuel: nat, e: Env, x: Ext, log: seq<Req>): (o: Outcome)
    ensures o.Done? ==> o.left <= fuel
    ensures o.Broken? ==> o.defect == Elsewhere
  {
    match e.ext(fuel, x, log + [Called(x)])
    case Done(w, log', left) => Done(w, log', if left < fuel then left else fuel)
    case Broken(_, log') => Broken(Elsewhere, log')
    case o => o
  }

  function Jump(fuel: nat, e: Env, f: Function, i: Insn, regs: seq<Term>, log: seq<Req>): (o: Outcome)
    ensures o.Done? ==> o.left <= fuel
    decreases fuel, 0, 0
  {
    var t := Target(i);
    if t < 0 || t > |f.code| then Broken(BadJump, log)
    else if fuel == 0 then Spent(log)
    else Exec(fuel - 1, e, f, t, regs, log)
  }

  /** The interpreter's own loop: `pc`, the registers and the request log are updated in
      place, calls recurse. */
  method Run(fuel: nat, e: Env, fi: nat, args: seq<Term>, log: seq<Req>) returns (o: Outcome)
    ensures o == RunFunction(fuel, e, fi, args, log)
    decreases fuel
  {
    hide Simple, Decode, Sources, Imms, CallOut, ExtOf;
    if fi >= |e.m.functions| { return Broken(BadCallee, log); }
    var f := e.m.functions[fi];
    if |args| != f.arity || f.nregs < |args| { return Broken(BadArity, log); }
    var left: nat, pc: nat, regs: seq<Term>, seen := fuel, 0, Frame(f, args), log;
    while true
      invariant left <= fuel
      invariant RunFunction(fuel, e, fi, args, log) == Exec(left, e, f, pc, regs, seen)
      decreases left, |f.code| - pc
    {
      var d := Decode(f.code, pc);
      if d.None? { return Broken(BadDecode, seen); }
      var i := d.value;
      if i.op == CALL {
        if !InFrame(regs, Sources(i)) { return Broken(BadFrame, seen); }
        if left == 0 { return Spent(seen); }
        var r := Run(left - 1, e, Reg(i, 1), Fetch(regs, Sources(i)), seen);
        if !r.Done? { return r; }
        if r.w == TAIL_SENTINEL { return r; }
        if Reg(i, 0) >= |regs| { return Broken(BadFrame, r.log); }
        left, pc, regs, seen := r.left, i.next, regs[Reg(i, 0) := r.w], r.log;
      } else if i.op == CALL_EXT {
        if !InFrame(regs, Sources(i)) { return Broken(BadFrame, seen); }
        if left == 0 { return Spent(seen); }
        var r := CallOut(left - 1, e, ExtOf(e, f.code, i, Fetch(regs, Sources(i))), seen);
        if !r.Done? { return r; }
        if Reg(i, 0) >= |regs| { return Broken(BadFrame, r.log); }
        left, pc, regs, seen := r.left, i.next, regs[Reg(i, 0) := r.w], r.log;
      } else if i.op == JMP || i.op == JMP_IF {
        assert IsControl(i.op);
        if i.op == JMP_IF {
          if Reg(i, 0) >= |regs| { return Broken(BadFrame, seen); }
          if !IsInt(regs[Reg(i, 0)]) { return Trapped(Badarg, seen); }
          if IntOf(regs[Reg(i, 0)]) == 0 {
            pc := i.next;
            continue;
          }
        }
        var t := Target(i);
        assert Exec(left, e, f, pc, regs, seen) == Jump(left, e, f, i, regs, seen);
        if t < 0 || t > |f.code| { return Broken(BadJump, seen); }
        if left == 0 { return Spent(seen); }
        left, pc := left - 1, t;
      } else if i.op == RET {
        if Reg(i, 0) < |regs| { return Done(regs[Reg(i, 0)], seen, left); }
        return Broken(BadFrame, seen);
      } else if i.op == EXIT_ATOM {
        if Reg(i, 0) >= |regs| { return Broken(BadFrame, seen); }
        if IsAtom(regs[Reg(i, 0)]) { return Trapped(Exit(AtomOf(regs[Reg(i, 0)])), seen); }
        return Trapped(Badarg, seen);
      } else if i.op == TAIL_CALL || i.op == TAIL_CALL_EXT {
        if !InFrame(regs, Sources(i)) { return Broken(BadFrame, seen); }
        return Done(TAIL_SENTINEL, seen + [Req(i.op, Imms(e.names, i), [], Fetch(regs, Sources(i)))], left);
      } else {
        var s := Simple(e, i, regs, seen);
        if s.Stop? { return s.outcome; }
        pc, regs, seen := i.next, s.regs, s.log;
      }
    }
  }
}
