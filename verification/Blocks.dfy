/** Cutting bytecode into basic blocks, and running the blocks. */
module Blocks {
  import opened Basics
  import opened Bytecode
  import opened Verifier
  import opened Interp
  import opened Lowering

  /** A jump target as an unsigned offset. */
  function TargetKey(i: Insn): nat { if Target(i) >= 0 then Target(i) else Word(Target(i)) }

  predicate EndsBlock(op: nat) { Jumps(op) || !FallsThrough(op) }

  /** Block leaders an instruction gives rise to: its target and what follows it. */
  function Made(i: Insn): set<nat>
  {
    (if Jumps(i.op) then {TargetKey(i)} else {}) + (if EndsBlock(i.op) then {i.next} else {})
  }

  ghost function LeadersFrom(code: seq<Byte>, at: nat): set<nat>
    decreases |code| - at
  {
    if Decode(code, at).None? then {} else Made(Decode(code, at).value) + LeadersFrom(code, Decode(code, at).value.next)
  }

  ghost function Leaders(code: seq<Byte>): set<nat> { ({0} + LeadersFrom(code, 0)) - {|code|} }

  /** A linear scan from `at` reaches the end. */
  ghost predicate Scans(code: seq<Byte>, at: nat)
    decreases |code| - at
  {
    at >= |code| || (Decode(code, at).Some? && Scans(code, Decode(code, at).value.next))
  }

  /** The first pass, with its own decoder. */
  method FindLeaders(code: seq<Byte>) returns (leaders: Option<set<nat>>)
    ensures leaders.Some? <==> Scans(code, 0)
    ensures leaders.Some? ==> leaders.value == Leaders(code)
  {
    hide InterpFields, LeaderFields, ReadFields, Made;
    var found: set<nat>, pc: nat := {0}, 0;
    while pc < |code|
      invariant pc <= |code|
      invariant Scans(code, 0) <==> Scans(code, pc)
      invariant found + LeadersFrom(code, pc) == {0} + LeadersFrom(code, 0)
      decreases |code| - pc
    {
      var fields := LeaderFields(code[pc]);
      TablesAgree(code[pc]);
      if fields.None? { return None; }
      var operands := ReadFields(fields.value, code, pc + 1);
      if operands.Truncated? { return None; }
      var i := Insn(code[pc], operands.value, operands.next);
      assert Decode(code, pc) == Some(i);
      found := found + Made(i);
      pc := i.next;
    }
    assert LeadersFrom(code, pc) == {};
    return Some(found - {|code|});
  }

  lemma {:induction false} LeaderOrigin(code: seq<Byte>, at: nat, x: nat)
    requires x in LeadersFrom(code, at)
    ensures exists b :: b in Starts(code, at) && Decode(code, b).Some? && x in Made(Decode(code, b).value)
    decreases |code| - at
  {
    var i := Decode(code, at).value;
    if x in Made(i) {
      assert at in Starts(code, at);
    } else {
      LeaderOrigin(code, i.next, x);
      var b :| b in Starts(code, i.next) && Decode(code, b).Some? && x in Made(Decode(code, b).value);
      assert b in Starts(code, at);
    }
  }

  lemma {:induction false} MadeIsLeader(code: seq<Byte>, at: nat, b: nat)
    requires b in Starts(code, at) && Decode(code, b).Some?
    ensures Made(Decode(code, b).value) <= LeadersFrom(code, at)
    decreases |code| - at
  {
    if b != at { MadeIsLeader(code, Decode(code, at).value.next, b); }
  }

  /** On verified code every leader is an instruction boundary, and every jump target and
      every instruction after a block end that is not the end of the code is a leader. */
  lemma LeadersAreBoundaries(m: Module, f: Function)
    requires Accepted(m, f)
    ensures Leaders(f.code) <= Starts(f.code, 0)
    ensures forall b :: b in Starts(f.code, 0) ==> BranchesLead(f, b)
  {
    hide Good, Made;
    forall x | x in Leaders(f.code) ensures x in Starts(f.code, 0) {
      if x != 0 {
        LeaderOrigin(f.code, 0, x);
        var b :| b in Starts(f.code, 0) && Decode(f.code, b).Some? && x in Made(Decode(f.code, b).value);
        MadeBounded(m, f, b);
      }
    }
    forall b | b in Starts(f.code, 0) ensures BranchesLead(f, b) {
      MadeBounded(m, f, b);
      MadeIsLeader(f.code, 0, b);
      BranchMade(m, f, b);
    }
  }

  /** Where the instruction at `b` may send control, a block starts. */
  ghost predicate BranchesLead(f: Function, b: nat)
  {
    var d := Decode(f.code, b);
    d.Some? ==>
      && (Jumps(d.value.op) ==> TargetKey(d.value) in Leaders(f.code) && TargetKey(d.value) == Target(d.value))
      && (EndsBlock(d.value.op) ==> d.value.next in Leaders(f.code) || d.value.next == |f.code|)
  }

  lemma MadeBounded(m: Module, f: Function, b: nat)
    requires Accepted(m, f) && b in Starts(f.code, 0)
    ensures Decode(f.code, b).Some?
    ensures forall x :: x in Made(Decode(f.code, b).value) && x != |f.code| ==> x in Starts(f.code, 0)
  {
    hide Good;
    GoodDecodes(m, f, b);
    assert Flows(f, b);
    NextStarts(f.code, 0, b);
  }

  lemma {:induction false} NextStarts(code: seq<Byte>, at: nat, b: nat)
    requires b in Starts(code, at) && Decode(code, b).Some?
    ensures Decode(code, b).value.next == |code| || Decode(code, b).value.next in Starts(code, at)
    decreases |code| - at
  {
    if b != at { NextStarts(code, Decode(code, at).value.next, b); }
  }

  lemma BranchMade(m: Module, f: Function, b: nat)
    requires Accepted(m, f) && b in Starts(f.code, 0) && Decode(f.code, b).Some?
    requires Made(Decode(f.code, b).value) <= LeadersFrom(f.code, 0)
    ensures BranchesLead(f, b)
  {
    hide Good;
    assert Flows(f, b);
    var i := Decode(f.code, b).value;
    if Jumps(i.op) { StartsBelow(f.code, 0, Target(i)); }
  }

  datatype Compiled = Compiled(arity: nat, nregs: nat, size: nat, blocks: map<nat, seq<Ir>>)

  /** The operation that ends a block. */
  function EmitLast(ns: Names, i: Insn): Ir
  {
    if i.op == JMP then Goto(TargetKey(i))
    else if i.op == JMP_IF then Branch(Reg(i, 0), TargetKey(i), i.next)
    else if i.op == RET then Return(Reg(i, 0))
    else if i.op == EXIT_ATOM then ExitWith(Reg(i, 0))
    else if i.op == TAIL_CALL then TailOut(HTailCallLocal, [Reg(i, 0)], Listed(i, 1))
    else TailOut(HTailCallExt, [Global(ns, Reg(i, 0)), Global(ns, Reg(i, 1))], Listed(i, 2))
  }

  function EmitAll(ns: Names, code: seq<Byte>, i: Insn): seq<Ir>
  {
    if i.op == NOP then []
    else if i.op == CALL then [CallSibling(Reg(i, 0), Reg(i, 1), Listed(i, 2))]
    else if i.op == CALL_EXT then
      [CallExtern(Reg(i, 0), Site(code, i.next), Global(ns, Reg(i, 1)), Global(ns, Reg(i, 2)), Listed(i, 3))]
    else if EndsBlock(i.op) then [EmitLast(ns, i)]
    else [Emit(ns, i)]
  }

  /** What a block holds from the instruction at `pc` on. */
  ghost function OpsFrom(ns: Names, code: seq<Byte>, leaders: set<nat>, pc: nat): seq<Ir>
    decreases |code| - pc, 0
  {
    var d := Decode(code, pc);
    if d.None? then []
    else EmitAll(ns, code, d.value) + if EndsBlock(d.value.op) then [] else Rest(ns, code, leaders, d.value.next)
  }

  ghost function Rest(ns: Names, code: seq<Byte>, leaders: set<nat>, pc: nat): seq<Ir>
    decreases |code| - pc, 1
  {
    if pc >= |code| then [] else if pc in leaders then [Fall(pc)] else OpsFrom(ns, code, leaders, pc)
  }

  /** The lookups a translation needs: global atoms, and the blocks it jumps to. */
  predicate Resolves(ns: Names, i: Insn, leaders: set<nat>)
  {
    && (i.op == LOAD_ATOM || i.op == CALL_EXT ==> Reg(i, 1) < |ns.atoms|)
    && (i.op == CALL_EXT ==> Reg(i, 2) < |ns.atoms|)
    && (i.op == TAIL_CALL_EXT ==> Reg(i, 0) < |ns.atoms| && Reg(i, 1) < |ns.atoms|)
    && (Jumps(i.op) ==> TargetKey(i) in leaders)
    && (i.op == JMP_IF ==> i.next in leaders)
  }

  ghost predicate ResolvesAt(ns: Names, code: seq<Byte>, b: nat)
  {
    Decode(code, b).Some? && Resolves(ns, Decode(code, b).value, Leaders(code))
  }

  ghost predicate HasBlock(ns: Names, code: seq<Byte>, blocks: map<nat, seq<Ir>>, l: nat)
  {
    l in blocks && blocks[l] == OpsFrom(ns, code, Leaders(code), l)
  }

  /** A translation in which every leader of an instruction has its block. */
  ghost predicate IsCompiled(ns: Names, f: Function, c: Compiled)
  {
    && c.arity == f.arity && c.nregs == f.nregs && c.size == |f.code|
    && forall l :: l in Leaders(f.code) && l in Starts(f.code, 0) ==> HasBlock(ns, f.code, c.blocks, l)
  }

  /** The block-building loop before the instruction at `pc`: blocks of the leaders `done` are
      built, but for the one at `cur`, of which `ops` is built, if no block end was emitted. */
  ghost predicate Building(ns: Names, code: seq<Byte>, done: set<nat>, blocks: map<nat, seq<Ir>>, cur: nat,
      ops: seq<Ir>, filled: bool, pc: nat)
  {
    && pc <= |code| && Scans(code, pc)
    && Starts(code, 0) == done + Starts(code, pc)
    && (forall b :: b in done ==> ResolvesAt(ns, code, b))
    && (forall l :: l in Leaders(code) && l in done && (filled || l != cur) ==> HasBlock(ns, code, blocks, l))
    && (filled ==> pc in Leaders(code) || pc == |code|)
    && (!filled ==> OpsFrom(ns, code, Leaders(code), cur) == ops + Rest(ns, code, Leaders(code), pc))
  }

  /** As above, with the block that holds `pc` open. */
  ghost predicate Open(ns: Names, code: seq<Byte>, done: set<nat>, blocks: map<nat, seq<Ir>>, cur: nat, ops: seq<Ir>,
      pc: nat)
  {
    && pc < |code| && Scans(code, pc)
    && Starts(code, 0) == done + Starts(code, pc)
    && (forall b :: b in done ==> ResolvesAt(ns, code, b))
    && (forall l :: l in Leaders(code) && (l in done || l == pc) && l != cur ==> HasBlock(ns, code, blocks, l))
    && OpsFrom(ns, code, Leaders(code), cur) == ops + OpsFrom(ns, code, Leaders(code), pc)
  }

  lemma BuildingStarts(ns: Names, code: seq<Byte>)
    requires Scans(code, 0)
    ensures Building(ns, code, {}, map[], 0, [], true, 0)
  {
  }

  /** Starting a new block at a leader. */
  lemma OpenNew(ns: Names, code: seq<Byte>, done: set<nat>, blocks: map<nat, seq<Ir>>, blocks': map<nat, seq<Ir>>,
      cur: nat, ops: seq<Ir>, filled: bool, pc: nat)
    requires Building(ns, code, done, blocks, cur, ops, filled, pc) && pc < |code| && pc in Leaders(code)
    requires blocks' == if filled then blocks else blocks[cur := ops + [Fall(pc)]]
    ensures Open(ns, code, done, blocks', pc, [], pc)
  {
    hide OpsFrom, Leaders, Scans, Starts, ResolvesAt;
    forall l | l in Leaders(code) && l in done && l != pc ensures HasBlock(ns, code, blocks', l) {
      if filled || l != cur { assert HasBlock(ns, code, blocks, l); }
    }
  }

  lemma OpenOld(ns: Names, code: seq<Byte>, done: set<nat>, blocks: map<nat, seq<Ir>>, cur: nat, ops: seq<Ir>,
      filled: bool, pc: nat)
    requires Building(ns, code, done, blocks, cur, ops, filled, pc) && pc < |code| && pc !in Leaders(code)
    ensures !filled && Open(ns, code, done, blocks, cur, ops, pc)
  {
    hide OpsFrom, Leaders, Scans, Starts, ResolvesAt;
  }

  lemma EmitStep(ns: Names, code: seq<Byte>, done: set<nat>, blocks: map<nat, seq<Ir>>, cur: nat, ops: seq<Ir>, pc: nat)
    requires Open(ns, code, done, blocks, cur, ops, pc) && ResolvesAt(ns, code, pc)
    ensures var i := Decode(code, pc).value; var ops' := ops + EmitAll(ns, code, i);
      Building(ns, code, done + {pc}, if EndsBlock(i.op) then blocks[cur := ops'] else blocks, cur, ops',
        EndsBlock(i.op), i.next)
  {
    hide EmitAll, Leaders, Resolves, Rest, OpsFrom, Starts, Scans, EndsBlock, Decode;
    var i := Decode(code, pc).value;
    var L := Leaders(code);
    var ops' := ops + EmitAll(ns, code, i);
    Unfold(ns, code, L, pc);
    if EndsBlock(i.op) {
      assert OpsFrom(ns, code, L, cur) == ops';
      EndLeads(code, pc);
    } else {
      assert OpsFrom(ns, code, L, cur) == ops' + Rest(ns, code, L, i.next);
    }
    var blocks' := if EndsBlock(i.op) then blocks[cur := ops'] else blocks;
    forall l | l in L && l in done + {pc} && (EndsBlock(i.op) || l != cur) ensures HasBlock(ns, code, blocks', l) {
      if l != cur { assert HasBlock(ns, code, blocks, l); }
    }
  }

  lemma Unfold(ns: Names, code: seq<Byte>, leaders: set<nat>, pc: nat)
    requires Decode(code, pc).Some? && Scans(code, pc)
    ensures var i := Decode(code, pc).value;
      && Starts(code, pc) == {pc} + Starts(code, i.next)
      && Scans(code, i.next) && i.next <= |code|
      && OpsFrom(ns, code, leaders, pc) == EmitAll(ns, code, i) +
        if EndsBlock(i.op) then [] else Rest(ns, code, leaders, i.next)
  {
    hide EmitAll, Rest;
  }

  lemma EndLeads(code: seq<Byte>, pc: nat)
    requires pc in Starts(code, 0) && Decode(code, pc).Some? && EndsBlock(Decode(code, pc).value.op)
    ensures Decode(code, pc).value.next in Leaders(code) || Decode(code, pc).value.next == |code|
  {
    MadeIsLeader(code, 0, pc);
  }

  /** One pass that opens a block at every leader, emits every instruction into the open
      block and closes it at a block end or at the next leader. It gives up exactly when the
      code does not scan or some instruction's lookup fails. */
  method Compile(ns: Names, f: Function) returns (c: Option<Compiled>)
    ensures c.Some? <==> Scans(f.code, 0) && forall b :: b in Starts(f.code, 0) ==> ResolvesAt(ns, f.code, b)
    ensures c.Some? ==> IsCompiled(ns, f, c.value)
  {
    hide Building, Open, Resolves, EmitAll, Decode, Leaders, EndsBlock, OpsFrom, Rest;
    var leaders := FindLeaders(f.code);
    if leaders.None? { return None; }
    var blocks: map<nat, seq<Ir>>, cur: nat, ops: seq<Ir>, filled, pc: nat := map[], 0, [], true, 0;
    ghost var done: set<nat> := {};
    BuildingStarts(ns, f.code);
    while pc < |f.code|
      invariant pc <= |f.code|
      invariant Building(ns, f.code, done, blocks, cur, ops, filled, pc)
    {
      if pc in leaders.value {
        var closed := if filled then blocks else blocks[cur := ops + [Fall(pc)]];
        OpenNew(ns, f.code, done, blocks, closed, cur, ops, filled, pc);
        blocks, cur, ops, filled := closed, pc, [], false;
      } else {
        OpenOld(ns, f.code, done, blocks, cur, ops, filled, pc);
      }
      assert !filled;
      OpenDecodes(ns, f.code, done, blocks, cur, ops, pc);
      var i := Decode(f.code, pc).value;
      if !Resolves(ns, i, leaders.value) {
        assert pc in Starts(f.code, 0) && !ResolvesAt(ns, f.code, pc);
        return None;
      }
      EmitStep(ns, f.code, done, blocks, cur, ops, pc);
      ops := ops + EmitAll(ns, f.code, i);
      if EndsBlock(i.op) { blocks, filled := blocks[cur := ops], true; }
      done, pc := done + {pc}, i.next;
    }
    BuildingEnds(ns, f.code, done, blocks, cur, ops, filled);
    if !filled { blocks := blocks[cur := ops]; }
    return Some(Compiled(f.arity, f.nregs, |f.code|, blocks));
  }

  lemma OpenDecodes(ns: Names, code: seq<Byte>, done: set<nat>, blocks: map<nat, seq<Ir>>, cur: nat, ops: seq<Ir>,
      pc: nat)
    requires Open(ns, code, done, blocks, cur, ops, pc)
    ensures Decode(code, pc).Some? && pc in Starts(code, 0)
  {
    assert pc in Starts(code, pc);
  }

  lemma BuildingEnds(ns: Names, code: seq<Byte>, done: set<nat>, blocks: map<nat, seq<Ir>>, cur: nat, ops: seq<Ir>,
      filled: bool)
    requires Building(ns, code, done, blocks, cur, ops, filled, |code|)
    ensures Starts(code, 0) == done && forall b :: b in done ==> ResolvesAt(ns, code, b)
    ensures var all := if filled then blocks else blocks[cur := ops];
      forall l :: l in Leaders(code) && l in done ==> HasBlock(ns, code, all, l)
  {
    hide Leaders, ResolvesAt, OpsFrom;
    assert Starts(code, |code|) == {};
    var all := if filled then blocks else blocks[cur := ops];
    assert Rest(ns, code, Leaders(code), |code|) == [];
    forall l | l in Leaders(code) && l in done ensures HasBlock(ns, code, all, l) {
      if filled || l != cur { assert HasBlock(ns, code, blocks, l); }
    }
  }
}
