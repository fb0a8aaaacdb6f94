/** The bytecode verifier, and what acceptance means. */
module Verifier {
  import opened Basics
  import opened Bytecode

  datatype VerifyError =
    | BadFunctionName | ArityExceedsRegs
    | UnknownOpcode(at: nat, opcode: nat) | TruncatedInstruction(at: nat)
    | BadRegister(at: nat, reg: nat) | BadAtom(at: nat, atom: nat)
    | BadJumpTarget(at: nat) | BadCallTarget(at: nat, callee: nat) | BadCallArity(at: nat)
    | FallsOffEnd

  datatype Check = Pass(next: nat) | Fail(error: VerifyError)

  /** Reads `n` register bytes one at a time, checking each as it is read. */
  function CheckRegs(f: Function, start: nat, pos: nat, n: nat): (c: Check)
    decreases n
  {
    if n == 0 then Pass(pos)
    else if pos >= |f.code| then Fail(TruncatedInstruction(start))
    else if f.code[pos] >= f.nregs then Fail(BadRegister(start, f.code[pos]))
    else CheckRegs(f, start, pos + 1, n - 1)
  }

  /** One operand: read it, then check it. `callee` is the function index read before. */
  function CheckRole(m: Module, f: Function, start: nat, role: Role, pos: nat, callee: nat): Check
  {
    var code := f.code;
    match role
    case RReg => CheckRegs(f, start, pos, 1)
    case RByte => if pos + 1 <= |code| then Pass(pos + 1) else Fail(TruncatedInstruction(start))
    case RWide => if pos + 8 <= |code| then Pass(pos + 8) else Fail(TruncatedInstruction(start))
    case RAtom =>
      if pos + 4 > |code| then Fail(TruncatedInstruction(start))
      else if LE(code, pos, 4) >= |m.atoms| then Fail(BadAtom(start, LE(code, pos, 4)))
      else Pass(pos + 4)
    case ROffset => if pos + 4 <= |code| then Pass(pos + 4) else Fail(TruncatedInstruction(start))
    case RCallee => if pos + 4 <= |code| then Pass(pos + 4) else Fail(TruncatedInstruction(start))
    case RArgs =>
      if pos >= |code| then Fail(TruncatedInstruction(start))
      else if callee >= |m.functions| then Fail(BadCallTarget(start, callee))
      else if m.functions[callee].arity != code[pos] then Fail(BadCallArity(start))
      else CheckRegs(f, start, pos + 1, At(code, pos))
    case RSpawnee =>
      if pos + 4 > |code| then Fail(TruncatedInstruction(start))
      else if LE(code, pos, 4) >= |m.functions| then Fail(BadCallTarget(start, LE(code, pos, 4)))
      else if m.functions[LE(code, pos, 4)].arity != 1 then Fail(BadCallArity(start))
      else Pass(pos + 4)
    case RRegs =>
      if pos >= |code| then Fail(TruncatedInstruction(start)) else CheckRegs(f, start, pos + 1, At(code, pos))
    case RPairs =>
      if pos >= |code| then Fail(TruncatedInstruction(start)) else CheckRegs(f, start, pos + 1, 2 * At(code, pos))
    case RBlob =>
      if pos + 4 > |code| || pos + 4 + LE(code, pos, 4) > |code| then Fail(TruncatedInstruction(start))
      else Pass(pos + 4 + LE(code, pos, 4))
  }

  function CheckRoles(m: Module, f: Function, start: nat, roles: seq<Role>, pos: nat, callee: nat): Check
    decreases |roles|
  {
    if roles == [] then Pass(pos)
    else
      match CheckRole(m, f, start, roles[0], pos, callee)
      case Fail(e) => Fail(e)
      case Pass(mid) =>
        CheckRoles(m, f, start, roles[1..], mid,
          if roles[0].RCallee? && pos + 4 <= |f.code| then LE(f.code, pos, 4) else callee)
  }

  function CheckInsn(m: Module, f: Function, at: nat): Check
    requires at < |f.code|
  {
    if Roles(f.code[at]).None? then Fail(UnknownOpcode(at, f.code[at]))
    else CheckRoles(m, f, at, Roles(f.code[at]).value, at + 1, 0)
  }

  ghost predicate AllRegs(f: Function, bytes: seq<Byte>) { forall i :: 0 <= i < |bytes| ==> bytes[i] < f.nregs }

  /** Operand `v` is what its role allows; `callee` is the function index read before it. */
  ghost predicate RoleOk(m: Module, f: Function, role: Role, v: Operand, callee: nat)
  {
    match role
    case RReg => v.Num? && v.n < f.nregs
    case RAtom => v.Num? && v.n < |m.atoms|
    case RArgs => v.List? && AllRegs(f, v.bytes) && callee < |m.functions| && |v.bytes| == m.functions[callee].arity
    case RSpawnee => v.Num? && v.n < |m.functions| && m.functions[v.n].arity == 1
    case RRegs => v.List? && AllRegs(f, v.bytes)
    case RPairs => v.List? && AllRegs(f, v.bytes) && |v.bytes| % 2 == 0
    case RBlob => v.List?
    case _ => v.Num?
  }

  ghost predicate OperandsOk(m: Module, f: Function, roles: seq<Role>, vs: seq<Operand>, callee: nat)
    decreases |roles|
  {
    |roles| == |vs| &&
    (roles != [] ==>
       && RoleOk(m, f, roles[0], vs[0], callee)
       && OperandsOk(m, f, roles[1..], vs[1..], if roles[0].RCallee? && vs[0].Num? then vs[0].n else callee))
  }

  lemma {:induction false} RegsChecked(f: Function, start: nat, pos: nat, n: nat)
    requires pos <= |f.code|
    ensures CheckRegs(f, start, pos, n).Pass? <==> pos + n <= |f.code| && AllRegs(f, f.code[pos..pos + n])
    ensures CheckRegs(f, start, pos, n).Pass? ==> CheckRegs(f, start, pos, n).next == pos + n
    decreases n
  {
    if n > 0 && pos < |f.code| {
      RegsChecked(f, start, pos + 1, n - 1);
      if pos + n <= |f.code| {
        assert f.code[pos..pos + n] == [f.code[pos]] + f.code[pos + 1..pos + n];
      }
    }
  }

  lemma RoleChecked(m: Module, f: Function, start: nat, role: Role, pos: nat, callee: nat)
    requires pos <= |f.code|
    ensures var c, r := CheckRole(m, f, start, role, pos, callee), ReadField(FieldOf(role), f.code, pos);
      && (c.Pass? <==> r.Got? && RoleOk(m, f, role, r.value, callee))
      && (c.Pass? ==> c.next == r.next)
  {
    hide LE, CheckRegs;
    if pos < |f.code| {
      if role.RReg? {
        RegsChecked(f, start, pos, 1);
        assert f.code[pos..pos + 1] == [f.code[pos]];
      } else if role.RArgs? || role.RRegs? || role.RPairs? {
        RegsChecked(f, start, pos + 1, (if role.RPairs? then 2 else 1) * At(f.code, pos));
      }
    } else if role.RReg? {
      RegsChecked(f, start, pos, 1);
    }
  }

  /** The checker passes an operand list exactly when it can be read and every operand is
      what its role allows, and then it stops where the reader does. */
  lemma {:induction false} RolesChecked(m: Module, f: Function, start: nat, roles: seq<Role>, pos: nat, callee: nat)
    requires pos <= |f.code|
    ensures var c, r := CheckRoles(m, f, start, roles, pos, callee), ReadFields(FieldsOf(roles), f.code, pos);
      && (c.Pass? <==> r.Got? && OperandsOk(m, f, roles, r.value, callee))
      && (c.Pass? ==> c.next == r.next)
    decreases |roles|
  {
    hide CheckRole, RoleOk, ReadField, LE;
    if roles != [] {
      assert FieldsOf(roles)[1..] == FieldsOf(roles[1..]);
      RoleChecked(m, f, start, roles[0], pos, callee);
      var r := ReadField(FieldOf(roles[0]), f.code, pos);
      if r.Got? {
        var callee' := if roles[0].RCallee? && pos + 4 <= |f.code| then LE(f.code, pos, 4) else callee;
        CalleeRead(roles[0], f.code, pos, callee);
        RolesChecked(m, f, start, roles[1..], r.next, callee');
        var rest := ReadFields(FieldsOf(roles[1..]), f.code, r.next);
        if rest.Got? { assert ([r.value] + rest.value)[1..] == rest.value; }
      }
    }
  }

  lemma CalleeRead(role: Role, code: seq<Byte>, pos: nat, callee: nat)
    requires pos <= |code| && ReadField(FieldOf(role), code, pos).Got?
    ensures var v := ReadField(FieldOf(role), code, pos).value;
      (if role.RCallee? && pos + 4 <= |code| then LE(code, pos, 4) else callee)
        == (if role.RCallee? && v.Num? then v.n else callee)
  {
  }

  /** The instruction at `at` decodes and every operand is within bounds. */
  ghost predicate Good(m: Module, f: Function, at: nat)
  {
    var d := Decode(f.code, at);
    d.Some? && Roles(d.value.op).Some? && OperandsOk(m, f, Roles(d.value.op).value, d.value.args, 0)
  }

  lemma InsnChecked(m: Module, f: Function, at: nat)
    requires at < |f.code|
    ensures CheckInsn(m, f, at).Pass? <==> Good(m, f, at)
    ensures CheckInsn(m, f, at).Pass? ==> CheckInsn(m, f, at).next == Decode(f.code, at).value.next
  {
    hide CheckRoles, OperandsOk, Roles, InterpFields;
    var op := f.code[at];
    TablesAgree(op);
    if Roles(op).Some? { RolesChecked(m, f, at, Roles(op).value, at + 1, 0); }
  }

  /** `e` is a fault of the instruction at `start`, of the kind it says: the instruction cannot be
      read, or names a register, atom or function that does not exist. */
  ghost predicate Blames(m: Module, f: Function, start: nat, e: VerifyError)
  {
    match e
    case UnknownOpcode(at, op) => at == start < |f.code| && op == f.code[at] && Roles(op).None?
    case TruncatedInstruction(at) => at == start && Decode(f.code, at).None?
    case BadRegister(at, reg) => at == start && reg >= f.nregs && exists p :: start < p < |f.code| && f.code[p] == reg
    case BadAtom(at, atom) => at == start && atom >= |m.atoms| && Holds32(f, start, atom)
    case BadCallTarget(at, callee) =>
      at == start && callee >= |m.functions| && (callee == 0 || Holds32(f, start, callee))
    case BadCallArity(at) => at == start
    case _ => false
  }

  ghost predicate Holds32(f: Function, start: nat, x: nat)
  {
    exists p: nat :: start < p && p + 4 <= |f.code| && LE(f.code, p, 4) == x
  }

  lemma {:induction false} RegsBlamed(m: Module, f: Function, start: nat, pos: nat, n: nat)
    requires start < pos
    ensures var c := CheckRegs(f, start, pos, n);
      c.Fail? ==>
        || (c.error == TruncatedInstruction(start) && pos + n > |f.code|)
        || (c.error.BadRegister? && Blames(m, f, start, c.error))
    decreases n
  {
    if n > 0 && pos < |f.code| { RegsBlamed(m, f, start, pos + 1, n - 1); }
  }

  lemma RoleBlamed(m: Module, f: Function, start: nat, role: Role, pos: nat, callee: nat)
    requires start < pos <= |f.code| && (callee == 0 || Holds32(f, start, callee))
    ensures var c := CheckRole(m, f, start, role, pos, callee);
      c.Fail? ==>
        || (c.error == TruncatedInstruction(start) && ReadField(FieldOf(role), f.code, pos).Truncated?)
        || (!c.error.TruncatedInstruction? && Blames(m, f, start, c.error))
  {
    hide LE, CheckRegs, Decode;
    RegsBlamed(m, f, start, pos, 1);
    if pos < |f.code| {
      RegsBlamed(m, f, start, pos + 1, At(f.code, pos));
      RegsBlamed(m, f, start, pos + 1, 2 * At(f.code, pos));
    }
    if pos + 4 <= |f.code| { assert Holds32(f, start, LE(f.code, pos, 4)); }
  }

  lemma {:induction false} RolesBlamed(m: Module, f: Function, start: nat, roles: seq<Role>, pos: nat, callee: nat)
    requires start < pos <= |f.code| && (callee == 0 || Holds32(f, start, callee))
    ensures var c := CheckRoles(m, f, start, roles, pos, callee);
      c.Fail? ==>
        || (c.error == TruncatedInstruction(start) && ReadFields(FieldsOf(roles), f.code, pos).Truncated?)
        || (!c.error.TruncatedInstruction? && Blames(m, f, start, c.error))
    decreases |roles|
  {
    hide CheckRole, RoleOk, ReadField, LE, Blames;
    if roles != [] {
      assert FieldsOf(roles)[1..] == FieldsOf(roles[1..]);
      RoleBlamed(m, f, start, roles[0], pos, callee);
      RoleChecked(m, f, start, roles[0], pos, callee);
      var c := CheckRole(m, f, start, roles[0], pos, callee);
      if c.Pass? {
        var callee' := if roles[0].RCallee? && pos + 4 <= |f.code| then LE(f.code, pos, 4) else callee;
        if pos + 4 <= |f.code| { assert Holds32(f, start, LE(f.code, pos, 4)); }
        RolesBlamed(m, f, start, roles[1..], c.next, callee');
      }
    }
  }

  /** The error of a refused instruction is true of it. */
  lemma InsnBlamed(m: Module, f: Function, at: nat)
    requires at < |f.code| && CheckInsn(m, f, at).Fail?
    ensures Blames(m, f, at, CheckInsn(m, f, at).error)
  {
    hide CheckRoles, ReadFields, Roles, InterpFields;
    var op := f.code[at];
    TablesAgree(op);
    if Roles(op).Some? { RolesBlamed(m, f, at, Roles(op).value, at + 1, 0); }
  }

  /** Control leaves the instruction at `b` only to instruction boundaries. */
  ghost predicate Flows(f: Function, b: nat)
  {
    var d := Decode(f.code, b);
    d.Some? ==>
      && (FallsThrough(d.value.op) ==> d.value.next in Starts(f.code, 0))
      && (Jumps(d.value.op) ==> 0 <= Target(d.value) && Target(d.value) as nat in Starts(f.code, 0))
  }

  ghost predicate Accepted(m: Module, f: Function)
  {
    && f.nameAtom < |m.atoms|
    && f.arity <= f.nregs
    && f.code != []
    && forall b :: b in Starts(f.code, 0) ==> Good(m, f, b) && Flows(f, b)
  }

  lemma {:induction false} StartsBelow(code: seq<Byte>, at: nat, b: nat)
    requires b in Starts(code, at)
    ensures at <= b < |code|
    decreases |code| - at
  {
    if b != at { StartsBelow(code, Decode(code, at).value.next, b); }
  }

  /** What the scan has established of the boundaries before `at`. */
  ghost predicate Scanned(m: Module, f: Function, done: set<nat>, jumps: seq<(nat, int)>, at: nat, fell: bool)
  {
    && at <= |f.code|
    && Starts(f.code, 0) == done + Starts(f.code, at)
    && (forall b :: b in done ==> b < at && Good(m, f, b) && FlowSeen(f, done, jumps, b, at, fell))
    && (forall k :: 0 <= k < |jumps| ==> jumps[k].0 in done && JumpSeen(f, jumps[k]))
    && (done == {} ==> at == 0 && fell)
    && (done != {} ==> exists b :: b in done && EndsAt(f, b, at, fell))
  }

  /** The boundary before `at` is the instruction at `b`, and `fell` says if it falls on. */
  ghost predicate EndsAt(f: Function, b: nat, at: nat, fell: bool)
  {
    var d := Decode(f.code, b);
    d.Some? && d.value.next == at && FallsThrough(d.value.op) == fell
  }

  ghost predicate FlowSeen(f: Function, done: set<nat>, jumps: seq<(nat, int)>, b: nat, at: nat, fell: bool)
  {
    var d := Decode(f.code, b);
    d.Some? ==>
      && (FallsThrough(d.value.op) ==> d.value.next in done || (d.value.next == at && fell))
      && (Jumps(d.value.op) ==> (b, Target(d.value)) in jumps)
  }

  ghost predicate JumpSeen(f: Function, j: (nat, int))
  {
    var d := Decode(f.code, j.0);
    d.Some? && Jumps(d.value.op) && Target(d.value) == j.1
  }

  lemma ScanStep(m: Module, f: Function, done: set<nat>, jumps: seq<(nat, int)>, jumps': seq<(nat, int)>, at: nat,
      fell: bool)
    requires Scanned(m, f, done, jumps, at, fell) && at < |f.code| && Good(m, f, at)
    requires var d := Decode(f.code, at).value; jumps' == if Jumps(d.op) then jumps + [(at, Target(d))] else jumps
    ensures var d := Decode(f.code, at).value; Scanned(m, f, done + {at}, jumps', d.next, FallsThrough(d.op))
  {
    hide Good, Decode, Target, FlowSeen, JumpSeen, Starts, FallsThrough, Jumps;
    GoodDecodes(m, f, at);
    var d := Decode(f.code, at).value;
    var done' := done + {at};
    StartsStep(f.code, at);
    assert Starts(f.code, 0) == done' + Starts(f.code, d.next);
    NewJump(f, jumps, jumps', at);
    forall b | b in done' ensures Good(m, f, b) && FlowSeen(f, done', jumps', b, d.next, FallsThrough(d.op)) {
      if b != at {
        FlowKept(f, done, jumps, jumps', b, at, fell, d.next, FallsThrough(d.op));
      } else {
        NewFlow(f, done, jumps', at);
      }
    }
    assert EndsAt(f, at, d.next, FallsThrough(d.op));
  }

  lemma StartsStep(code: seq<Byte>, at: nat)
    requires at < |code| && Decode(code, at).Some?
    ensures Starts(code, at) == {at} + Starts(code, Decode(code, at).value.next)
  {
  }

  lemma NewJump(f: Function, jumps: seq<(nat, int)>, jumps': seq<(nat, int)>, at: nat)
    requires Decode(f.code, at).Some?
    requires var d := Decode(f.code, at).value; jumps' == if Jumps(d.op) then jumps + [(at, Target(d))] else jumps
    ensures forall j :: j in jumps ==> j in jumps'
    ensures Jumps(Decode(f.code, at).value.op) ==> (at, Target(Decode(f.code, at).value)) in jumps'
    ensures forall k :: 0 <= k < |jumps'| ==>
      (k < |jumps| && jumps'[k] == jumps[k]) || (jumps'[k].0 == at && JumpSeen(f, jumps'[k]))
  {
    hide Decode, Target;
    if Jumps(Decode(f.code, at).value.op) { assert jumps'[|jumps|] == (at, Target(Decode(f.code, at).value)); }
  }

  lemma NewFlow(f: Function, done: set<nat>, jumps: seq<(nat, int)>, at: nat)
    requires Decode(f.code, at).Some?
    requires Jumps(Decode(f.code, at).value.op) ==> (at, Target(Decode(f.code, at).value)) in jumps
    ensures var d := Decode(f.code, at).value; FlowSeen(f, done + {at}, jumps, at, d.next, FallsThrough(d.op))
  {
    hide Decode, Target;
  }

  lemma FlowKept(f: Function, done: set<nat>, jumps: seq<(nat, int)>, jumps': seq<(nat, int)>, b: nat, at: nat,
      fell: bool, at': nat, fell': bool)
    requires FlowSeen(f, done, jumps, b, at, fell) && forall j :: j in jumps ==> j in jumps'
    ensures FlowSeen(f, done + {at}, jumps', b, at', fell')
  {
    hide Decode, Target, FallsThrough;
  }

  lemma GoodDecodes(m: Module, f: Function, at: nat)
    requires Good(m, f, at)
    ensures Decode(f.code, at).Some?
  {
  }

  lemma NotAccepted(m: Module, f: Function, done: set<nat>, jumps: seq<(nat, int)>, at: nat, fell: bool)
    requires Scanned(m, f, done, jumps, at, fell) && at < |f.code| && !Good(m, f, at)
    ensures !Accepted(m, f)
  {
    assert at in Starts(f.code, at);
  }

  lemma FallsOff(m: Module, f: Function, done: set<nat>, jumps: seq<(nat, int)>)
    requires Scanned(m, f, done, jumps, |f.code|, true)
    ensures !Accepted(m, f)
  {
    hide Good;
    if done != {} {
      var b :| b in done && EndsAt(f, b, |f.code|, true);
      if Accepted(m, f) {
        assert Flows(f, b);
        StartsBelow(f.code, 0, |f.code|);
      }
    }
  }

  lemma JumpsDecide(m: Module, f: Function, done: set<nat>, jumps: seq<(nat, int)>)
    requires Scanned(m, f, done, jumps, |f.code|, false)
    requires f.nameAtom < |m.atoms| && f.arity <= f.nregs
    ensures Accepted(m, f) <==> forall k :: 0 <= k < |jumps| ==> 0 <= jumps[k].1 && jumps[k].1 as nat in done
  {
    hide Good;
    assert Starts(f.code, |f.code|) == {};
    assert Starts(f.code, 0) == done;
    if Accepted(m, f) {
      forall k | 0 <= k < |jumps| ensures 0 <= jumps[k].1 && jumps[k].1 as nat in done {
        assert JumpSeen(f, jumps[k]) && Flows(f, jumps[k].0);
      }
    }
    if forall k :: 0 <= k < |jumps| ==> 0 <= jumps[k].1 && jumps[k].1 as nat in done {
      forall b | b in done ensures Flows(f, b) {
        assert FlowSeen(f, done, jumps, b, |f.code|, false);
        var d := Decode(f.code, b);
        if d.Some? && Jumps(d.value.op) {
          var k :| 0 <= k < |jumps| && jumps[k] == (b, Target(d.value));
        }
      }
    }
  }

  /** Why `f` is refused, and the first fault of the scan: what comes before it is in order. */
  ghost predicate Refuses(m: Module, f: Function, e: VerifyError)
  {
    match e
    case BadFunctionName => f.nameAtom >= |m.atoms|
    case ArityExceedsRegs => f.nameAtom < |m.atoms| && f.arity > f.nregs
    case FallsOffEnd => AllGood(m, f, |f.code|) && (f.code == [] || exists b :: EndsAt(f, b, |f.code|, true))
    case BadJumpTarget(at) => AllGood(m, f, |f.code|) && JumpsAstray(f, at)
    case _ => exists at :: at in Starts(f.code, 0) && AllGood(m, f, at) && Blames(m, f, at, e)
  }

  ghost predicate AllGood(m: Module, f: Function, at: nat)
  {
    forall b :: b in Starts(f.code, 0) && b < at ==> Good(m, f, b)
  }

  ghost predicate JumpsAstray(f: Function, at: nat)
  {
    var d := Decode(f.code, at);
    at in Starts(f.code, 0) && d.Some? && Jumps(d.value.op)
      && (Target(d.value) < 0 || Target(d.value) as nat !in Starts(f.code, 0))
  }

  lemma {:induction false} StartsFrom(code: seq<Byte>, at: nat)
    ensures forall b :: b in Starts(code, at) ==> at <= b < |code|
  {
    forall b | b in Starts(code, at) ensures at <= b < |code| { StartsBelow(code, at, b); }
  }

  lemma ScannedGood(m: Module, f: Function, done: set<nat>, jumps: seq<(nat, int)>, at: nat, fell: bool)
    requires Scanned(m, f, done, jumps, at, fell)
    ensures AllGood(m, f, at) && (at < |f.code| ==> at in Starts(f.code, 0))
    ensures at == |f.code| && fell ==> f.code == [] || exists b :: EndsAt(f, b, |f.code|, true)
  {
    hide Good, FlowSeen, JumpSeen, EndsAt;
    StartsFrom(f.code, at);
  }

  lemma Astray(m: Module, f: Function, done: set<nat>, jumps: seq<(nat, int)>, k: nat)
    requires Scanned(m, f, done, jumps, |f.code|, false) && k < |jumps|
    requires jumps[k].1 < 0 || jumps[k].1 as nat !in done
    ensures JumpsAstray(f, jumps[k].0)
  {
    hide Good, FlowSeen;
    assert JumpSeen(f, jumps[k]) && jumps[k].0 in done;
    assert Starts(f.code, |f.code|) == {};
  }

  /** One linear scan that checks operands, collects boundaries and jump targets, and
      decides acceptance. */
  method VerifyFn(m: Module, f: Function) returns (error: Option<VerifyError>)
    ensures error.None? <==> Accepted(m, f)
    ensures error.Some? ==> Refuses(m, f, error.value)
  {
    hide Accepted, Scanned, Good, CheckInsn, Blames, AllGood, JumpsAstray, EndsAt, Starts;
    AcceptedHeader(m, f);
    if f.nameAtom >= |m.atoms| { return Some(BadFunctionName); }
    if f.arity > f.nregs { return Some(ArityExceedsRegs); }
    var boundaries: set<nat>, jumps: seq<(nat, int)>, at, fell := {}, [], 0, true;
    ScanStart(m, f);
    while at < |f.code|
      invariant 0 <= at <= |f.code| && Scanned(m, f, boundaries, jumps, at, fell)
    {
      InsnChecked(m, f, at);
      var check := CheckInsn(m, f, at);
      if check.Fail? {
        NotAccepted(m, f, boundaries, jumps, at, fell);
        ScannedGood(m, f, boundaries, jumps, at, fell);
        InsnBlamed(m, f, at);
        InsnError(m, f, at, check.error);
        return Some(check.error);
      }
      GoodDecodes(m, f, at);
      ghost var before := jumps;
      var insn := Decode(f.code, at).value;
      if Jumps(insn.op) { jumps := jumps + [(at, Target(insn))]; }
      ScanStep(m, f, boundaries, before, jumps, at, fell);
      boundaries := boundaries + {at};
      fell := FallsThrough(insn.op);
      at := check.next;
    }
    ScannedGood(m, f, boundaries, jumps, at, fell);
    if fell {
      FallsOff(m, f, boundaries, jumps);
      return Some(FallsOffEnd);
    }
    JumpsDecide(m, f, boundaries, jumps);
    for k := 0 to |jumps|
      invariant forall i :: 0 <= i < k ==> 0 <= jumps[i].1 && jumps[i].1 as nat in boundaries
    {
      if jumps[k].1 < 0 || jumps[k].1 as nat !in boundaries {
        Astray(m, f, boundaries, jumps, k);
        return Some(BadJumpTarget(jumps[k].0));
      }
    }
    return None;
  }

  lemma InsnError(m: Module, f: Function, at: nat, e: VerifyError)
    requires Blames(m, f, at, e) && AllGood(m, f, at) && at in Starts(f.code, 0)
    ensures Refuses(m, f, e)
  {
  }

  lemma ScanStart(m: Module, f: Function)
    ensures Scanned(m, f, {}, [], 0, true)
  {
  }

  lemma AcceptedHeader(m: Module, f: Function)
    ensures Accepted(m, f) ==> f.nameAtom < |m.atoms| && f.arity <= f.nregs
  {
  }

  ghost predicate Verified(m: Module) { forall i :: 0 <= i < |m.functions| ==> Accepted(m, m.functions[i]) }

  method Verify(m: Module) returns (error: Option<(nat, VerifyError)>)
    ensures error.None? <==> Verified(m)
    ensures error.Some? ==>
      && error.value.0 < |m.functions| && Refuses(m, m.functions[error.value.0], error.value.1)
      && forall k :: 0 <= k < error.value.0 ==> Accepted(m, m.functions[k])
  {
    hide Accepted, Refuses;
    for i := 0 to |m.functions|
      invariant forall k :: 0 <= k < i ==> Accepted(m, m.functions[k])
    {
      var e := VerifyFn(m, m.functions[i]);
      if e.Some? { return Some((i, e.value)); }
    }
    return None;
  }
}
