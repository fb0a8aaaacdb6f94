/** Which functions can hand the tail sentinel to a native caller. */
module Sentinels {
  import opened Bytecode
  import opened Verifier
  import opened Interp
  import opened InterpSafety

  predicate TailOp(op: nat) { op == TAIL_CALL || op == TAIL_CALL_EXT }

  /** The instruction at `b` may make its function return anything: it is a tail call, or it
      cannot be read. */
  ghost predicate LeavesAt(code: seq<Byte>, b: nat) { b < |code| && (Decode(code, b).None? || TailOp(code[b])) }

  ghost predicate CallsAt(code: seq<Byte>, b: nat, callee: nat)
  {
    Decode(code, b).Some? && code[b] == CALL && Reg(Decode(code, b).value, 1) == callee
  }

  ghost predicate Leaves(m: Module, i: nat)
  {
    i >= |m.functions| || exists b :: b in Starts(m.functions[i].code, 0) && LeavesAt(m.functions[i].code, b)
  }

  ghost predicate Calls(m: Module, i: nat, j: nat)
  {
    i < |m.functions| && exists b :: b in Starts(m.functions[i].code, 0) && CallsAt(m.functions[i].code, b, j)
  }

  /** A chain of sibling calls from `p[0]` to a function that leaves. */
  ghost predicate Chain(m: Module, p: seq<nat>)
  {
    && p != []
    && (forall k :: 0 <= k < |p| - 1 ==> Calls(m, p[k], p[k + 1]))
    && Leaves(m, p[|p| - 1])
  }

  ghost predicate MayTail(m: Module, i: nat) { exists p :: Chain(m, p) && p[0] == i }

  lemma CallExtends(m: Module, i: nat, j: nat)
    requires Calls(m, i, j) && MayTail(m, j)
    ensures MayTail(m, i)
  {
    var p :| Chain(m, p) && p[0] == j;
    var q := [i] + p;
    forall k | 0 <= k < |q| - 1 ensures Calls(m, q[k], q[k + 1]) {
      if k > 0 { assert Calls(m, p[k - 1], p[k]); }
    }
    assert Chain(m, q);
  }

  lemma LeavingMayTail(m: Module, i: nat)
    requires Leaves(m, i)
    ensures MayTail(m, i)
  {
    assert Chain(m, [i]);
  }

  /** The skipper moves as the decoder does. */
  lemma SkipDecodes(code: seq<Byte>, at: nat)
    requires at < |code|
    ensures var next := SkipOperands(code[at], code, at + 1); var d := Decode(code, at);
      (next.Some? <==> d.Some?) && (d.Some? ==> d.value.next == next.value && d.value.op == code[at])
  {
    hide InterpFields, SkipOperands, ReadFields;
    SkipAgrees(code[at], code, at + 1);
  }

  /** The callee index sits two bytes after a CALL. */
  lemma CalleeField(code: seq<Byte>, at: nat)
    requires at < |code| && code[at] == CALL && Decode(code, at).Some?
    ensures at + 6 <= |code| && Reg(Decode(code, at).value, 1) == LE(code, at + 2, 4)
  {
    hide LE;
    var fs := [U8, U32, Regs];
    assert InterpFields(CALL).value == fs && fs[1..] == [U32, Regs] && fs[1..][1..] == [Regs];
    var i := Decode(code, at).value;
    var r1 := ReadFields(fs[1..], code, at + 2);
    var r2 := ReadFields(fs[1..][1..], code, at + 6);
    assert i.args == [Num(code[at + 1])] + r1.value;
    assert r1.value == [Num(LE(code, at + 2, 4))] + r2.value;
  }

  /** One function's scan: whether it leaves, and if not, exactly whom it calls. */
  method ScanFunction(f: Function) returns (leaves: bool, callees: seq<nat>)
    ensures leaves <==> exists b :: b in Starts(f.code, 0) && LeavesAt(f.code, b)
    ensures !leaves ==> forall c :: c in callees <==> exists b :: b in Starts(f.code, 0) && CallsAt(f.code, b, c)
  {
    hide Decode, SkipOperands, LE;
    leaves, callees := false, [];
    var at := 0;
    ghost var done: set<nat> := {};
    while at < |f.code|
      invariant at <= |f.code| && Starts(f.code, 0) == done + Starts(f.code, at)
      invariant forall b :: b in done ==> Decode(f.code, b).Some?
      invariant leaves <==> exists b :: b in done && LeavesAt(f.code, b)
      invariant forall c :: c in callees <==> exists b :: b in done && CallsAt(f.code, b, c)
    {
      var opcode: nat := f.code[at];
      SkipDecodes(f.code, at);
      ghost var was := callees;
      if TailOp(opcode) { leaves := true; }
      if opcode == CALL && at + 6 <= |f.code| { callees := callees + [LE(f.code, at + 2, 4)]; }
      assert at in Starts(f.code, at);
      var next := SkipOperands(opcode, f.code, at + 1);
      if next.None? {
        assert LeavesAt(f.code, at);
        leaves := true;
        return;
      }
      if opcode == CALL { CalleeField(f.code, at); }
      ScanOn(f.code, done, at, was, callees);
      done := done + {at};
      at := next.value;
    }
    assert Starts(f.code, at) == {};
  }

  lemma ScanOn(code: seq<Byte>, done: set<nat>, at: nat, was: seq<nat>, callees: seq<nat>)
    requires at < |code| && Decode(code, at).Some?
    requires forall c :: c in was <==> exists b :: b in done && CallsAt(code, b, c)
    requires callees == if code[at] == CALL then was + [Reg(Decode(code, at).value, 1)] else was
    ensures forall c :: c in callees <==> exists b :: b in done + {at} && CallsAt(code, b, c)
  {
    hide Decode;
    forall c ensures c in callees <==> exists b :: b in done + {at} && CallsAt(code, b, c) {
      if c in callees {
        if c in was {
          var b :| b in done && CallsAt(code, b, c);
          assert b in done + {at};
        } else {
          assert CallsAt(code, at, c);
        }
      }
      if b :| b in done + {at} && CallsAt(code, b, c) {
        if b == at { assert c == Reg(Decode(code, at).value, 1); }
      }
    }
  }

  predicate Bit(bits: seq<bool>, i: nat) { i >= |bits| || bits[i] }

  function Falses(bits: seq<bool>): nat { if bits == [] then 0 else (if bits[0] then 0 else 1) + Falses(bits[1..]) }

  lemma {:induction false} SettingCounts(bits: seq<bool>, i: nat)
    requires i < |bits| && !bits[i]
    ensures Falses(bits[i := true]) == Falses(bits) - 1
  {
    if i > 0 {
      assert bits[i := true][1..] == bits[1..][i - 1 := true];
      SettingCounts(bits[1..], i - 1);
    } else {
      assert bits[i := true][1..] == bits[1..];
    }
  }

  ghost predicate CalleesKnown(m: Module, callees: seq<seq<nat>>)
  {
    |callees| == |m.functions| && forall i :: 0 <= i < |callees| && !Leaves(m, i) ==> Exactly(m, i, callees[i])
  }

  ghost predicate Exactly(m: Module, i: nat, cs: seq<nat>) { forall c :: c in cs <==> Calls(m, i, c) }

  /** Bits are set only where they may be, and wherever the scan alone says so. */
  ghost predicate Between(m: Module, bits: seq<bool>)
  {
    |bits| == |m.functions| && forall i :: 0 <= i < |bits| ==> (Leaves(m, i) ==> bits[i]) && (bits[i] ==> MayTail(m, i))
  }

  predicate AnyBit(bits: seq<bool>, cs: seq<nat>) { exists c :: c in cs && Bit(bits, c) }

  lemma PropagationSound(m: Module, bits: seq<bool>, callees: seq<seq<nat>>, i: nat)
    requires CalleesKnown(m, callees) && Between(m, bits) && i < |bits| && !bits[i] && AnyBit(bits, callees[i])
    ensures Between(m, bits[i := true])
  {
    hide Calls, Leaves, MayTail;
    var c: nat :| c in callees[i] && Bit(bits, c);
    assert Exactly(m, i, callees[i]);
    if c >= |bits| { OutOfRangeLeaves(m, c); }
    CallExtends(m, i, c);
  }

  lemma OutOfRangeLeaves(m: Module, c: nat)
    requires c >= |m.functions|
    ensures MayTail(m, c)
  {
    LeavingMayTail(m, c);
  }

  lemma {:induction false} ChainSet(m: Module, bits: seq<bool>, callees: seq<seq<nat>>, p: seq<nat>, k: nat)
    requires CalleesKnown(m, callees) && Between(m, bits) && Chain(m, p) && k < |p|
    requires forall i :: 0 <= i < |bits| ==> bits[i] || !AnyBit(bits, callees[i])
    ensures Bit(bits, p[k])
    decreases |p| - k
  {
    hide Calls, Leaves;
    if k < |p| - 1 {
      ChainSet(m, bits, callees, p, k + 1);
      if p[k] < |bits| && !Leaves(m, p[k]) {
        assert Calls(m, p[k], p[k + 1]) && Exactly(m, p[k], callees[p[k]]);
        assert AnyBit(bits, callees[p[k]]);
      }
    }
  }

  /** The analysis is exactly reachability: a bit is set iff sibling calls lead from that
      function to one holding a tail call (or code that cannot be read). */
  method SentinelReturners(m: Module) returns (bits: seq<bool>)
    ensures |bits| == |m.functions| && forall i :: 0 <= i < |bits| ==> (bits[i] <==> MayTail(m, i))
  {
    hide Leaves, Calls, MayTail, CalleesKnown, Between, AnyBit;
    var callees;
    bits, callees := ScanModule(m);
    var changed := true;
    while changed
      invariant CalleesKnown(m, callees) && Between(m, bits) && |callees| == |bits| == |m.functions|
      invariant !changed ==> forall i :: 0 <= i < |bits| ==> bits[i] || !AnyBit(bits, callees[i])
      decreases Falses(bits) + (if changed then 1 else 0)
    {
      changed := false;
      ghost var before := bits;
      for i := 0 to |bits|
        invariant Between(m, bits) && |bits| == |before|
        invariant !changed ==> bits == before && forall j :: 0 <= j < i ==> bits[j] || !AnyBit(bits, callees[j])
        invariant changed ==> Falses(bits) < Falses(before)
      {
        if !bits[i] && AnyBit(bits, callees[i]) {
          PropagationSound(m, bits, callees, i);
          SettingCounts(bits, i);
          bits := bits[i := true];
          changed := true;
        }
      }
    }
    forall i | 0 <= i < |bits| ensures bits[i] <==> MayTail(m, i) { FixpointExact(m, bits, callees, i); }
  }

  lemma FixpointExact(m: Module, bits: seq<bool>, callees: seq<seq<nat>>, i: nat)
    requires CalleesKnown(m, callees) && Between(m, bits) && i < |bits|
    requires forall i :: 0 <= i < |bits| ==> bits[i] || !AnyBit(bits, callees[i])
    ensures bits[i] <==> MayTail(m, i)
  {
    hide AnyBit, Leaves, Calls;
    if p :| Chain(m, p) && p[0] == i { ChainSet(m, bits, callees, p, 0); }
  }

  method ScanModule(m: Module) returns (bits: seq<bool>, callees: seq<seq<nat>>)
    ensures CalleesKnown(m, callees) && Between(m, bits) && |bits| == |callees| == |m.functions|
  {
    hide MayTail, Calls, LeavesAt, CallsAt;
    bits, callees := [], [];
    for i := 0 to |m.functions|
      invariant |bits| == |callees| == i
      invariant forall k :: 0 <= k < i ==> (bits[k] <==> Leaves(m, k)) && (!bits[k] ==> Exactly(m, k, callees[k]))
    {
      var leaves, cs := ScanFunction(m.functions[i]);
      assert leaves <==> Leaves(m, i);
      assert !leaves ==> Exactly(m, i, cs) by { CallsListed(m, i, cs); }
      bits, callees := bits + [leaves], callees + [cs];
    }
    forall i | 0 <= i < |bits| && bits[i] ensures MayTail(m, i) { LeavingMayTail(m, i); }
  }

  lemma CallsListed(m: Module, i: nat, cs: seq<nat>)
    requires i < |m.functions|
    ensures (forall c ::
      c in cs <==> exists b :: b in Starts(m.functions[i].code, 0) && CallsAt(m.functions[i].code, b, c))
      ==> Exactly(m, i, cs)
  {
  }

  /** In a verified module only tail calls leave, and calls stay in the module. */
  lemma VerifiedLeaves(m: Module, i: nat)
    requires Verified(m) && i < |m.functions|
    ensures Leaves(m, i) <==> exists b :: b in Starts(m.functions[i].code, 0) && TailOp(m.functions[i].code[b])
    ensures forall j: nat :: Calls(m, i, j) ==> j < |m.functions|
  {
    hide Good;
    var f := m.functions[i];
    assert Accepted(m, f);
    forall b | b in Starts(f.code, 0) ensures b < |f.code| && Decode(f.code, b).Some? {
      StartsBelow(f.code, 0, b);
      GoodDecodes(m, f, b);
    }
    if b :| b in Starts(f.code, 0) && TailOp(f.code[b]) { assert LeavesAt(f.code, b); }
    forall j: nat | Calls(m, i, j) ensures j < |m.functions| {
      var b :| b in Starts(f.code, 0) && CallsAt(f.code, b, j);
      CallMatches(m, f, b);
    }
  }

  /** The system answers with terms, never with the reserved word. */
  ghost predicate TermsOnly(sys: seq<Req> -> Reply) { forall log :: sys(log).Value? ==> sys(log).w != TAIL_SENTINEL }

  ghost predicate Clean(regs: seq<Term>) { forall k :: 0 <= k < |regs| ==> regs[k] != TAIL_SENTINEL }

  /** And so do external calls with less fuel than `n`. */
  ghost predicate AnswersTerms(e: Env, n: nat)
  {
    && TermsOnly(e.sys)
    && forall k: nat, x: Ext, log :: k < n && Clean(x.args) && e.ext(k, x, log).Done? ==>
         e.ext(k, x, log).w != TAIL_SENTINEL
  }

  lemma TaggedClean(v: int, g: nat)
    ensures IntTerm(v) != TAIL_SENTINEL && AtomTerm(g) != TAIL_SENTINEL
  {
  }

  lemma SimpleClean(e: Env, i: Insn, regs: seq<Term>, log: seq<Req>)
    requires TermsOnly(e.sys) && Clean(regs)
    ensures var s := Simple(e, i, regs, log); (s.Next? ==> Clean(s.regs)) && (s.Stop? ==> !s.outcome.Done?)
  {
    hide Sources, Imms, IntTerm, AtomTerm, Checked, Shift, BitOp;
    forall v: int ensures IntTerm(v) != TAIL_SENTINEL { TaggedClean(v, 0); }
    forall g: nat ensures AtomTerm(g) != TAIL_SENTINEL { TaggedClean(0, g); }
  }

  lemma ReturnsClean(e: Env, f: Function, pc: nat, regs: seq<Term>)
    requires Ready(e.m, f, pc, regs) && Clean(regs) && Decode(f.code, pc).Some? && Decode(f.code, pc).value.op == RET
    ensures Reg(Decode(f.code, pc).value, 0) < |regs| && regs[Reg(Decode(f.code, pc).value, 0)] != TAIL_SENTINEL
  {
    hide Good, Starts;
    Leads(e.m, f, pc, regs);
    GoodRegs(e.m, f, pc, regs);
    GoodRoles(e.m, f, pc);
    RegisterOperands(RET);
  }

  /** A function whose bit is clear never returns the sentinel, in any run. */
  lemma {:induction false} NeverSentinel(fuel: nat, n: nat, e: Env, fi: nat, pc: nat, regs: seq<Term>, log: seq<Req>)
    requires Verified(e.m) && AnswersTerms(e, n) && fi < |e.m.functions| && !MayTail(e.m, fi)
    requires Ready(e.m, e.m.functions[fi], pc, regs) && Clean(regs) && fuel <= n
    ensures var o := Exec(fuel, e, e.m.functions[fi], pc, regs, log); o.Done? ==> o.w != TAIL_SENTINEL
    decreases fuel, |e.m.functions[fi].code| - pc, 1
  {
    hide Verified, Accepted, Good, Simple, Sources, Imms, Starts, Target, Decode, Roles, Frame, MayTail;
    var f := e.m.functions[fi];
    Leads(e.m, f, pc, regs);
    GoodRoles(e.m, f, pc);
    GoodRegs(e.m, f, pc, regs);
    var i := Decode(f.code, pc).value;
    NotLeaving(e.m, fi, pc);
    if !IsControl(i.op) {
      SimpleClean(e, i, regs, log);
      SimpleSafe(e, f, pc, regs, log);
      var s := Simple(e, i, regs, log);
      if s.Next? { NeverSentinel(fuel, n, e, fi, i.next, s.regs, s.log); }
    } else if Jumped(i, regs) {
      assert Exec(fuel, e, f, pc, regs, log) == Jump(fuel, e, f, i, regs, log);
      if fuel > 0 { NeverSentinel(fuel - 1, n, e, fi, Target(i), regs, log); }
    } else if i.op == JMP_IF {
      NeverSentinel(fuel, n, e, fi, i.next, regs, log);
    } else if i.op == CALL {
      if fuel > 0 { CallNeverSentinel(fuel, n, e, fi, pc, regs, log); }
    } else if i.op == CALL_EXT {
      if fuel > 0 && InFrame(regs, Sources(i)) {
        var r := CallOut(fuel - 1, e, ExtOf(e, f.code, i, Fetch(regs, Sources(i))), log);
        if r.Done? && Reg(i, 0) < |regs| { NeverSentinel(r.left, n, e, fi, i.next, regs[Reg(i, 0) := r.w], r.log); }
      }
    } else if i.op == RET {
      ReturnsClean(e, f, pc, regs);
    }
  }

  lemma NotLeaving(m: Module, fi: nat, pc: nat)
    requires fi < |m.functions| && !MayTail(m, fi) && pc in Starts(m.functions[fi].code, 0)
      && Decode(m.functions[fi].code, pc).Some?
    ensures var i := Decode(m.functions[fi].code, pc).value;
      !TailOp(i.op) && (i.op == CALL ==> !MayTail(m, Reg(i, 1)))
  {
    hide MayTail, Decode, Starts;
    var code := m.functions[fi].code;
    var i := Decode(code, pc).value;
    DecodedAt(code, pc);
    if TailOp(i.op) {
      assert LeavesAt(code, pc);
      LeavingMayTail(m, fi);
    }
    if i.op == CALL && MayTail(m, Reg(i, 1)) {
      assert CallsAt(code, pc, Reg(i, 1));
      CallExtends(m, fi, Reg(i, 1));
    }
  }

  lemma DecodedAt(code: seq<Byte>, pc: nat)
    requires Decode(code, pc).Some?
    ensures pc < |code| && code[pc] == Decode(code, pc).value.op
  {
  }

  lemma {:induction false} CallNeverSentinel(fuel: nat, n: nat, e: Env, fi: nat, pc: nat, regs: seq<Term>,
                                             log: seq<Req>)
    requires Verified(e.m) && AnswersTerms(e, n) && fi < |e.m.functions| && !MayTail(e.m, fi)
    requires Ready(e.m, e.m.functions[fi], pc, regs) && Clean(regs) && 0 < fuel <= n
    requires Decode(e.m.functions[fi].code, pc).Some? && Decode(e.m.functions[fi].code, pc).value.op == CALL
    ensures var o := Exec(fuel, e, e.m.functions[fi], pc, regs, log); o.Done? ==> o.w != TAIL_SENTINEL
    decreases fuel, |e.m.functions[fi].code| - pc, 0
  {
    hide Verified, Accepted, Good, Simple, Sources, Starts, Target, Decode, Roles, Frame, MayTail;
    var f := e.m.functions[fi];
    Leads(e.m, f, pc, regs);
    var i := Decode(f.code, pc).value;
    NotLeaving(e.m, fi, pc);
    CallMatches(e.m, f, pc);
    GoodRegs(e.m, f, pc, regs);
    var callee, args := Reg(i, 1), Fetch(regs, Sources(i));
    var g := e.m.functions[callee];
    Enters(e.m, callee, args);
    FrameClean(g, args);
    NeverSentinel(fuel - 1, n, e, callee, 0, Frame(g, args), log);
    var r := RunFunction(fuel - 1, e, callee, args, log);
    assert r == Exec(fuel - 1, e, g, 0, Frame(g, args), log);
    if r.Done? && Reg(i, 0) < |regs| { NeverSentinel(r.left, n, e, fi, i.next, regs[Reg(i, 0) := r.w], r.log); }
  }

  lemma FrameClean(f: Function, args: seq<Term>)
    requires Clean(args)
    ensures Clean(Frame(f, args))
  {
  }

  /** What lets a call site skip the sentinel check. */
  lemma NoCheckNeeded(fuel: nat, n: nat, e: Env, fi: nat, args: seq<Term>, log: seq<Req>)
    requires Verified(e.m) && AnswersTerms(e, n) && fi < |e.m.functions| && !MayTail(e.m, fi)
    requires |args| == e.m.functions[fi].arity && Clean(args) && fuel <= n
    ensures var o := RunFunction(fuel, e, fi, args, log); o.Done? ==> o.w != TAIL_SENTINEL
  {
    var f := e.m.functions[fi];
    Enters(e.m, fi, args);
    FrameClean(f, args);
    NeverSentinel(fuel, n, e, fi, 0, Frame(f, args), log);
  }
}
