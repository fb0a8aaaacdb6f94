/** What the verifier asks of each instruction, read off its bytes. */
module ByteChecks {
  import opened Bytecode
  import opened Verifier
  import opened ByteMeaning
  import opened ByteControl

  /** The `n` bytes from `at` are there and are registers of the frame. */
  ghost predicate RegsBelow(f: Function, at: nat, n: nat)
  {
    at + n <= |f.code| && forall k :: at <= k < at + n ==> f.code[k] < f.nregs
  }

  /** Instructions of registers alone: how many. */
  ghost function RegistersOf(op: nat): nat
  {
    if op in {3, 5, 19, 22, 23, 24, 51, 54} then 1
    else if op in {4, 9, 10, 21, 33, 35, 36, 37, 38, 39, 43, 52} then 2
    else if op in {8, 11, 12, 13, 14, 15, 28, 29, 30, 31, 32, 41, 44, 45, 55} then 3
    else if op in {42, 46, 50, 53} then 4
    else if op == 48 then 5
    else 0
  }

  /** Function `k` exists and takes that many arguments. */
  ghost predicate Takes(m: Module, k: nat, n: nat) { k < |m.functions| && m.functions[k].arity == n }

  /** The instruction at `b` is all there, and its registers, atoms and callees exist. */
  ghost predicate SoundAt(m: Module, f: Function, b: nat)
  {
    var code, at := f.code, b + 1;
    && b < |code|
    && var op := code[b];
       if RegistersOf(op) > 0 then RegsBelow(f, at, RegistersOf(op))
       else if op == 0 then true
       else if op == 1 then at + 9 <= |code| && RegsBelow(f, at, 1)
       else if op == 2 then at + 5 <= |code| && RegsBelow(f, at, 1) && Word32(code, at + 1) < |m.atoms|
       else if op == 7 then at + 3 <= |code| && RegsBelow(f, at, 2)
       else if op == 25 then at + 2 <= |code| && RegsBelow(f, at, 1)
       else if op == 26 then at + 4 <= |code| && RegsBelow(f, at, 1) && RegsBelow(f, at + 2, 2)
       else if op == 16 then at + 4 <= |code|
       else if op == 17 then at + 5 <= |code| && RegsBelow(f, at, 1)
       else if op == 20 then
         at + 6 <= |code| && RegsBelow(f, at, 1) && RegsBelow(f, at + 5, 1) && Takes(m, Word32(code, at + 1), 1)
       else if op == 6 then at + 2 <= |code| && RegsBelow(f, at, 1) && RegsBelow(f, at + 2, code[at + 1])
       else if op == 40 then at + 2 <= |code| && RegsBelow(f, at, 1) && RegsBelow(f, at + 2, 2 * code[at + 1] as int)
       else if op == 34 then at + 5 <= |code| && RegsBelow(f, at, 1) && at + 5 + Word32(code, at + 1) <= |code|
       else if op == 18 then
         && at + 6 <= |code| && RegsBelow(f, at, 1) && RegsBelow(f, at + 6, code[at + 5])
         && Takes(m, Word32(code, at + 1), code[at + 5])
       else if op == 49 then
         at + 5 <= |code| && RegsBelow(f, at + 5, code[at + 4]) && Takes(m, Word32(code, at), code[at + 4])
       else if op == 27 then
         && at + 10 <= |code| && RegsBelow(f, at, 1) && RegsBelow(f, at + 10, code[at + 9])
         && Word32(code, at + 1) < |m.atoms| && Word32(code, at + 5) < |m.atoms|
       else if op == 47 then
         && at + 9 <= |code| && RegsBelow(f, at + 9, code[at + 8])
         && Word32(code, at) < |m.atoms| && Word32(code, at + 4) < |m.atoms|
       else false
  }

  /** An instruction can be read exactly when the skipper over it has the bytes it adds up. */
  lemma Readable(code: seq<Byte>, b: nat)
    ensures Decode(code, b).Some? <==> b < |code| && SkipOperands(code[b], code, b + 1).Some?
  {
    hide InterpFields, SkipOperands, ReadFields;
    if b < |code| { SkipAgrees(code[b], code, b + 1); }
  }

  lemma {:induction false} RegistersOk(m: Module, f: Function, roles: seq<Role>, vs: seq<Operand>, callee: nat)
    requires |vs| == |roles| && forall k :: 0 <= k < |roles| ==> roles[k].RReg?
    ensures OperandsOk(m, f, roles, vs, callee) <==> forall k :: 0 <= k < |vs| ==> vs[k].Num? && vs[k].n < f.nregs
    decreases |roles|
  {
    if roles != [] {
      RegistersOk(m, f, roles[1..], vs[1..], callee);
      if forall k :: 0 <= k < |vs[1..]| ==> vs[1..][k].Num? && vs[1..][k].n < f.nregs {
        forall k | 1 <= k < |vs| ensures vs[k].Num? && vs[k].n < f.nregs { assert vs[1..][k - 1] == vs[k]; }
      }
    }
  }

  lemma RegistersTable(op: nat)
    requires RegistersOf(op) > 0
    ensures InterpFields(op).Some? && Roles(op).Some?
    ensures |InterpFields(op).value| == |Roles(op).value| == RegistersOf(op)
    ensures forall k :: 0 <= k < RegistersOf(op) ==> InterpFields(op).value[k].U8? && Roles(op).value[k].RReg?
  {
  }

  lemma RegistersLength(op: nat, code: seq<Byte>, at: nat)
    requires RegistersOf(op) > 0
    ensures SkipOperands(op, code, at) == Fixed(code, at, RegistersOf(op))
  {
  }

  lemma RegistersSound(m: Module, f: Function, b: nat)
    requires b < |f.code| && RegistersOf(f.code[b]) > 0
    ensures Good(m, f, b) <==> SoundAt(m, f, b)
  {
    hide Decode, Roles, InterpFields, OperandsOk, SkipOperands, RegistersOf;
    var op := f.code[b];
    var n := RegistersOf(op);
    Readable(f.code, b);
    RegistersLength(op, f.code, b + 1);
    RegistersTable(op);
    if b + 1 + n <= |f.code| {
      BytesDecode(f.code, b, n);
      var i := Decode(f.code, b).value;
      RegistersOk(m, f, Roles(op).value, i.args, 0);
      if Good(m, f, b) {
        forall k | b + 1 <= k < b + 1 + n ensures f.code[k] < f.nregs { assert i.args[k - b - 1] == Num(f.code[k]); }
      }
    }
  }

  /** The function index known after an operand. */
  ghost function After(role: Role, v: Operand, callee: nat): nat { if role.RCallee? && v.Num? then v.n else callee }

  lemma Ok1(m: Module, f: Function, a: Role, x: Operand, callee: nat)
    ensures OperandsOk(m, f, [a], [x], callee) <==> RoleOk(m, f, a, x, callee)
  {
    assert [a][1..] == [] && [x][1..] == [];
  }

  lemma Ok2(m: Module, f: Function, a: Role, b: Role, x: Operand, y: Operand, callee: nat)
    ensures OperandsOk(m, f, [a, b], [x, y], callee)
      <==> RoleOk(m, f, a, x, callee) && RoleOk(m, f, b, y, After(a, x, callee))
  {
    hide RoleOk;
    assert [a, b][1..] == [b] && [x, y][1..] == [y];
    Ok1(m, f, b, y, After(a, x, callee));
  }

  lemma Ok3(m: Module, f: Function, a: Role, b: Role, c: Role, x: Operand, y: Operand, z: Operand)
    requires !a.RCallee?
    ensures OperandsOk(m, f, [a, b, c], [x, y, z], 0)
      <==> RoleOk(m, f, a, x, 0) && RoleOk(m, f, b, y, 0) && RoleOk(m, f, c, z, After(b, y, 0))
  {
    hide RoleOk;
    assert [a, b, c][1..] == [b, c] && [x, y, z][1..] == [y, z];
    Ok2(m, f, b, c, y, z, 0);
  }

  lemma Ok4(m: Module, f: Function, a: Role, b: Role, c: Role, d: Role, x: Operand, y: Operand, z: Operand, u: Operand)
    requires !a.RCallee? && !b.RCallee? && !c.RCallee?
    ensures OperandsOk(m, f, [a, b, c, d], [x, y, z, u], 0)
      <==> RoleOk(m, f, a, x, 0) && RoleOk(m, f, b, y, 0) && RoleOk(m, f, c, z, 0) && RoleOk(m, f, d, u, 0)
  {
    hide RoleOk;
    assert [a, b, c, d][1..] == [b, c, d] && [x, y, z, u][1..] == [y, z, u];
    Ok3(m, f, b, c, d, y, z, u);
  }

  lemma BytesBelow(f: Function, at: nat, n: nat)
    requires at + n <= |f.code|
    ensures AllRegs(f, f.code[at..at + n]) <==> RegsBelow(f, at, n)
  {
    if AllRegs(f, f.code[at..at + n]) {
      forall k | at <= k < at + n ensures f.code[k] < f.nregs { assert f.code[at..at + n][k - at] == f.code[k]; }
    }
  }

  lemma MixedSound(m: Module, f: Function, b: nat)
    requires b < |f.code| && f.code[b] in {7, 25, 26}
    ensures Good(m, f, b) <==> SoundAt(m, f, b)
  {
    hide Decode, OperandsOk;
    Readable(f.code, b);
    var op, code := f.code[b], f.code;
    var n := if op == 7 then 3 else if op == 25 then 2 else 4;
    if b + 1 + n <= |code| {
      BytesDecode(code, b, n);
      var vs := Decode(code, b).value.args;
      if op == 7 {
        assert vs == [vs[0], vs[1], vs[2]];
        Ok3(m, f, RReg, RReg, RByte, vs[0], vs[1], vs[2]);
      } else if op == 25 {
        assert vs == [vs[0], vs[1]];
        Ok2(m, f, RReg, RByte, vs[0], vs[1], 0);
      } else {
        assert vs == [vs[0], vs[1], vs[2], vs[3]];
        Ok4(m, f, RReg, RByte, RReg, RReg, vs[0], vs[1], vs[2], vs[3]);
      }
    }
  }

  lemma WideSound(m: Module, f: Function, b: nat)
    requires b < |f.code| && f.code[b] in {1, 2, 17}
    ensures Good(m, f, b) <==> SoundAt(m, f, b)
  {
    hide Decode, OperandsOk, LE, Word32;
    Readable(f.code, b);
    var op, code := f.code[b], f.code;
    var last, role := if op == 1 then U64 else U32, Roles(op).value[1];
    if b + 2 + Width(last) <= |code| {
      Decode2(U8, last, code, b);
      var vs := Decode(code, b).value.args;
      LE4(code, b + 2);
      Ok2(m, f, RReg, role, vs[0], vs[1], 0);
    }
  }

  lemma BareSound(m: Module, f: Function, b: nat)
    requires b < |f.code| && f.code[b] in {0, 16}
    ensures Good(m, f, b) <==> SoundAt(m, f, b)
  {
    hide LE;
    Readable(f.code, b);
    if f.code[b] == 16 && b + 5 <= |f.code| {
      One(U32, f.code, b + 1);
      Ok1(m, f, ROffset, Num(LE(f.code, b + 1, 4)), 0);
    }
  }

  lemma SpawnSound(m: Module, f: Function, b: nat)
    requires b < |f.code| && f.code[b] == 20
    ensures Good(m, f, b) <==> SoundAt(m, f, b)
  {
    hide Decode, OperandsOk, LE, Word32;
    Readable(f.code, b);
    if b + 7 <= |f.code| {
      Decode3(U8, U32, U8, f.code, b);
      var vs := Decode(f.code, b).value.args;
      LE4(f.code, b + 2);
      Ok3(m, f, RReg, RSpawnee, RReg, vs[0], vs[1], vs[2]);
    }
  }

  lemma ListSound(m: Module, f: Function, b: nat)
    requires b < |f.code| && f.code[b] in {6, 40}
    ensures Good(m, f, b) <==> SoundAt(m, f, b)
  {
    hide Decode, OperandsOk, RegsBelow, AllRegs;
    Readable(f.code, b);
    var op, code := f.code[b], f.code;
    OneBelow(f, b + 1);
    if b + 3 <= |code| {
      var k: nat := if op == 6 then At(code, b + 2) else 2 * At(code, b + 2);
      if b + 3 + k <= |code| {
        var last, role := if op == 6 then Regs else Pairs, if op == 6 then RRegs else RPairs;
        Decode2(U8, last, code, b);
        var vs := Decode(code, b).value.args;
        Ok2(m, f, RReg, role, vs[0], vs[1], 0);
        BytesBelow(f, b + 3, k);
      } else {
        TooFew(f, b + 3, k);
      }
    }
  }

  lemma OneBelow(f: Function, at: nat)
    ensures RegsBelow(f, at, 1) <==> at < |f.code| && f.code[at] < f.nregs
  {
  }

  lemma TooFew(f: Function, at: nat, n: nat)
    requires at + n > |f.code|
    ensures !RegsBelow(f, at, n)
  {
  }

  lemma BlobSound(m: Module, f: Function, b: nat)
    requires b < |f.code| && f.code[b] == 34
    ensures Good(m, f, b) <==> SoundAt(m, f, b)
  {
    hide Decode, OperandsOk, LE, Word32;
    Readable(f.code, b);
    if b + 6 <= |f.code| {
      LE4(f.code, b + 2);
      if b + 6 + LE(f.code, b + 2, 4) <= |f.code| {
        Decode2(U8, Blob, f.code, b);
        var vs := Decode(f.code, b).value.args;
        Ok2(m, f, RReg, RBlob, vs[0], vs[1], 0);
      }
    }
  }

  lemma CallSound(m: Module, f: Function, b: nat)
    requires b < |f.code| && f.code[b] == 18
    ensures Good(m, f, b) <==> SoundAt(m, f, b)
  {
    hide Decode, OperandsOk, LE, Word32, RegsBelow, AllRegs;
    Readable(f.code, b);
    var code := f.code;
    OneBelow(f, b + 1);
    if b + 7 <= |code| {
      LE4(code, b + 2);
      if b + 7 + At(code, b + 6) <= |code| {
        Decode3(U8, U32, Regs, code, b);
        var vs := Decode(code, b).value.args;
        Ok3(m, f, RReg, RCallee, RArgs, vs[0], vs[1], vs[2]);
        BytesBelow(f, b + 7, code[b + 6]);
      } else {
        TooFew(f, b + 7, code[b + 6]);
      }
    }
  }

  lemma TailSound(m: Module, f: Function, b: nat)
    requires b < |f.code| && f.code[b] == 49
    ensures Good(m, f, b) <==> SoundAt(m, f, b)
  {
    hide Decode, OperandsOk, LE, Word32, RegsBelow, AllRegs;
    Readable(f.code, b);
    var code := f.code;
    if b + 6 <= |code| {
      LE4(code, b + 1);
      if b + 6 + At(code, b + 5) <= |code| {
        Decode2(U32, Regs, code, b);
        var vs := Decode(code, b).value.args;
        Ok2(m, f, RCallee, RArgs, vs[0], vs[1], 0);
        BytesBelow(f, b + 6, code[b + 5]);
      } else {
        TooFew(f, b + 6, code[b + 5]);
      }
    }
  }

  lemma CallExtSound(m: Module, f: Function, b: nat)
    requires b < |f.code| && f.code[b] == 27
    ensures Good(m, f, b) <==> SoundAt(m, f, b)
  {
    hide Decode, OperandsOk, LE, Word32, RegsBelow, AllRegs;
    Readable(f.code, b);
    var code := f.code;
    OneBelow(f, b + 1);
    if b + 11 <= |code| {
      LE4(code, b + 2);
      LE4(code, b + 6);
      if b + 11 + At(code, b + 10) <= |code| {
        Decode4(U8, U32, U32, Regs, code, b);
        var vs := Decode(code, b).value.args;
        Ok4(m, f, RReg, RAtom, RAtom, RRegs, vs[0], vs[1], vs[2], vs[3]);
        BytesBelow(f, b + 11, code[b + 10]);
      } else {
        TooFew(f, b + 11, code[b + 10]);
      }
    }
  }

  lemma TailExtSound(m: Module, f: Function, b: nat)
    requires b < |f.code| && f.code[b] == 47
    ensures Good(m, f, b) <==> SoundAt(m, f, b)
  {
    hide Decode, OperandsOk, LE, Word32, RegsBelow, AllRegs;
    Readable(f.code, b);
    var code := f.code;
    if b + 10 <= |code| {
      LE4(code, b + 1);
      LE4(code, b + 5);
      if b + 10 + At(code, b + 9) <= |code| {
        Decode3(U32, U32, Regs, code, b);
        var vs := Decode(code, b).value.args;
        Ok3(m, f, RAtom, RAtom, RRegs, vs[0], vs[1], vs[2]);
        BytesBelow(f, b + 10, code[b + 9]);
      } else {
        TooFew(f, b + 10, code[b + 9]);
      }
    }
  }

  /** The verifier passes an instruction exactly when its bytes are sound: all 56 opcodes, every
      byte sequence, every module. */
  lemma GoodIsSound(m: Module, f: Function, b: nat)
    ensures Good(m, f, b) <==> SoundAt(m, f, b)
  {
    hide Good, SoundAt;
    if b >= |f.code| {
      NothingThere(m, f, b);
    } else if RegistersOf(f.code[b]) > 0 {
      RegistersSound(m, f, b);
    } else {
      match f.code[b]
      case 0 => BareSound(m, f, b);
      case 1 => WideSound(m, f, b);
      case 2 => WideSound(m, f, b);
      case 6 => ListSound(m, f, b);
      case 7 => MixedSound(m, f, b);
      case 16 => BareSound(m, f, b);
      case 17 => WideSound(m, f, b);
      case 18 => CallSound(m, f, b);
      case 20 => SpawnSound(m, f, b);
      case 25 => MixedSound(m, f, b);
      case 26 => MixedSound(m, f, b);
      case 27 => CallExtSound(m, f, b);
      case 34 => BlobSound(m, f, b);
      case 40 => ListSound(m, f, b);
      case 47 => TailExtSound(m, f, b);
      case 49 => TailSound(m, f, b);
      case _ => Unknown(m, f, b);
    }
  }

  lemma NothingThere(m: Module, f: Function, b: nat)
    requires b >= |f.code|
    ensures !Good(m, f, b) && !SoundAt(m, f, b)
  {
  }

  lemma Unknown(m: Module, f: Function, b: nat)
    requires b < |f.code| && RegistersOf(f.code[b]) == 0
    requires f.code[b] !in {0, 1, 2, 6, 7, 16, 17, 18, 20, 25, 26, 27, 34, 40, 47, 49}
    ensures !Good(m, f, b) && !SoundAt(m, f, b)
  {
    hide Decode;
    Readable(f.code, b);
  }

  /** Control goes from the instruction at `b` only to instructions: on, unless it jumps, ends or
      tail-calls; and by the offset of a jump, past its five or six bytes. */
  ghost predicate LeadsOn(f: Function, b: nat)
  {
    var code := f.code;
    && b < |code| && Decode(code, b).Some?
    && (code[b] !in {16, 19, 24, 47, 49} ==> IsStart(code, Decode(code, b).value.next))
    && (code[b] == 16 ==> LandsOnStart(code, b + 1, b + 5)) && (code[b] == 17 ==> LandsOnStart(code, b + 2, b + 6))
  }

  /** The offset at `at`, from `end`, leads to an instruction. */
  ghost predicate LandsOnStart(code: seq<Byte>, at: nat, end: nat)
  {
    forall d :: Offset(code, at, d) ==> IsStart(code, end + d)
  }

  ghost predicate IsStart(code: seq<Byte>, t: int) { 0 <= t && t as nat in Starts(code, 0) }

  lemma FlowsLead(m: Module, f: Function, b: nat)
    requires Good(m, f, b)
    ensures Flows(f, b) <==> LeadsOn(f, b)
  {
    hide Decode, Target, Offset, Starts, Word32, LE, OperandsOk, Roles;
    GoodDecodes(m, f, b);
    JumpBytes(m, f, b);
    var at := b + (if f.code[b] == 16 then 1 else 2);
    if Jumps(f.code[b]) {
      var d := Signed32(LE(f.code, at, 4));
      assert Offset(f.code, at, d) by { OffsetExists(f.code, at); }
      TargetIs(f.code, b, d);
      forall d' | Offset(f.code, at, d') ensures d' == d { OffsetIs(f.code, at, d'); }
    }
  }

  lemma JumpBytes(m: Module, f: Function, b: nat)
    requires Good(m, f, b)
    ensures b < |f.code| && f.code[b] == Decode(f.code, b).value.op
    ensures f.code[b] == 16 ==> b + 5 <= |f.code|
    ensures f.code[b] == 17 ==> b + 6 <= |f.code|
  {
    hide Good;
    GoodIsSound(m, f, b);
    GoodDecodes(m, f, b);
  }

  lemma OffsetExists(code: seq<Byte>, at: nat)
    requires at + 4 <= |code|
    ensures Offset(code, at, Signed32(LE(code, at, 4)))
  {
    LE4(code, at);
  }

  /** Acceptance, by the bytes. */
  lemma AcceptedIs(m: Module, f: Function)
    ensures Accepted(m, f) <==>
      && f.nameAtom < |m.atoms| && f.arity <= f.nregs && f.code != []
      && forall b :: b in Starts(f.code, 0) ==> SoundAt(m, f, b) && LeadsOn(f, b)
  {
    hide Good, Flows, SoundAt, LeadsOn, Starts;
    forall b ensures b in Starts(f.code, 0) ==> (Good(m, f, b) && Flows(f, b) <==> SoundAt(m, f, b) && LeadsOn(f, b)) {
      if b in Starts(f.code, 0) {
        GoodIsSound(m, f, b);
        if Good(m, f, b) { FlowsLead(m, f, b); }
      }
    }
  }
}
