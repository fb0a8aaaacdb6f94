/** The instruction set and its five decoders. Each decoder has its own table here, in the
    grouping its own match uses; that they cut every byte stream at the same places is
    proved, not assumed. */
module Bytecode {
  import opened Basics

  type Byte = b: nat | b < 256

  datatype Function = Function(nameAtom: nat, arity: Byte, nregs: Byte, code: seq<Byte>)

  datatype Module = Module(atoms: seq<seq<Byte>>, functions: seq<Function>)

  const NOP: nat := 0
  const LOAD_INT: nat := 1
  const LOAD_ATOM: nat := 2
  const LOAD_NIL: nat := 3
  const MOVE: nat := 4
  const SELF_PID: nat := 5
  const MAKE_TUPLE: nat := 6
  const GET_ELEM: nat := 7
  const CONS: nat := 8
  const HEAD: nat := 9
  const TAIL: nat := 10
  const ADD: nat := 11
  const SUB: nat := 12
  const MUL: nat := 13
  const CMP_EQ: nat := 14
  const CMP_LT: nat := 15
  const JMP: nat := 16
  const JMP_IF: nat := 17
  const CALL: nat := 18
  const RET: nat := 19
  const SPAWN: nat := 20
  const SEND: nat := 21
  const RECV: nat := 22
  const PRINT: nat := 23
  const EXIT_ATOM: nat := 24
  const PORT_OPEN: nat := 25
  const PORT_SUBMIT: nat := 26
  const CALL_EXT: nat := 27
  const BAND: nat := 28
  const BOR: nat := 29
  const BXOR: nat := 30
  const BSL: nat := 31
  const BSR: nat := 32
  const BNOT: nat := 33
  const BIN_NEW: nat := 34
  const BIN_FROM_LIST: nat := 35
  const BIN_TO_LIST: nat := 36
  const BIN_SIZE: nat := 37
  const BUF_TO_BIN: nat := 38
  const BIN_TO_BUF: nat := 39
  const MAP_NEW: nat := 40
  const MAP_GET: nat := 41
  const MAP_PUT: nat := 42
  const IS_BINARY: nat := 43
  const BIN_CAT: nat := 44
  const LIST_CAT: nat := 45
  const BIN_PART: nat := 46
  const TAIL_CALL_EXT: nat := 47
  const PORT_SUBMIT2: nat := 48
  const TAIL_CALL: nat := 49
  const BUF_WRITE: nat := 50
  const SLEEP_MS: nat := 51
  const BUF_NEW: nat := 52
  const BUF_READ: nat := 53
  const TICKS: nat := 54
  const BIN_AT: nat := 55

  function At(code: seq<Byte>, i: nat): nat
    requires i < |code|
  {
    code[i]
  }

  /** Little-endian number of `n` bytes. */
  function LE(code: seq<Byte>, at: nat, n: nat): nat
    requires at + n <= |code|
    decreases n
  {
    if n == 0 then 0 else At(code, at) + 256 * LE(code, at + 1, n - 1)
  }

  /** A 32-bit word read as a signed offset. */
  function Signed32(x: nat): int { if x >= 0x8000_0000 then x - 0x1_0000_0000 else x }

  /** A register list is a count byte and that many registers; a pair list has two a count;
      a blob is a 32-bit length and that many bytes. */
  datatype Field = U8 | U32 | U64 | Regs | Pairs | Blob

  datatype Operand = Num(n: nat) | List(bytes: seq<Byte>)

  datatype Read<+T> = Got(value: T, next: nat) | Truncated

  function ReadField(f: Field, code: seq<Byte>, at: nat): (r: Read<Operand>)
    ensures r.Got? ==> at < r.next <= |code|
  {
    match f
    case U8 => if at < |code| then Got(Num(code[at]), at + 1) else Truncated
    case U32 => if at + 4 <= |code| then Got(Num(LE(code, at, 4)), at + 4) else Truncated
    case U64 => if at + 8 <= |code| then Got(Num(LE(code, at, 8)), at + 8) else Truncated
    case Regs => ReadList(code, at, 1)
    case Pairs => ReadList(code, at, 2)
    case Blob =>
      if at + 4 > |code| then Truncated
      else
        var end := at + 4 + LE(code, at, 4);
        if end <= |code| then Got(List(code[at + 4..end]), end) else Truncated
  }

  function ReadList(code: seq<Byte>, at: nat, each: nat): (r: Read<Operand>)
    ensures r.Got? ==> at < r.next <= |code|
  {
    if at >= |code| then Truncated
    else
      var end := at + 1 + each * At(code, at);
      if end <= |code| then Got(List(code[at + 1..end]), end) else Truncated
  }

  function ReadFields(fs: seq<Field>, code: seq<Byte>, at: nat): (r: Read<seq<Operand>>)
    requires at <= |code|
    ensures r.Got? ==> at <= r.next <= |code| && |r.value| == |fs|
    decreases |fs|
  {
    if fs == [] then Got([], at)
    else
      match ReadField(fs[0], code, at)
      case Truncated => Truncated
      case Got(v, mid) =>
        match ReadFields(fs[1..], code, mid)
        case Truncated => Truncated
        case Got(vs, end) => Got([v] + vs, end)
  }

  /** What the verifier checks as it reads each operand: a register, an immediate it skips,
      an atom index, a jump offset, a callee, the callee's arguments, a spawned function, a
      list of registers, a list of register pairs, a constant blob. */
  datatype Role = RReg | RByte | RWide | RAtom | ROffset | RCallee | RArgs | RSpawnee | RRegs | RPairs | RBlob

  function FieldOf(r: Role): Field
  {
    match r
    case RReg => U8
    case RByte => U8
    case RWide => U64
    case RAtom => U32
    case ROffset => U32
    case RCallee => U32
    case RSpawnee => U32
    case RArgs => Regs
    case RRegs => Regs
    case RPairs => Pairs
    case RBlob => Blob
  }

  /** The verifier's reads and checks, opcode by opcode. */
  function Roles(op: nat): Option<seq<Role>>
  {
    if op == NOP then Some([])
    else if op == LOAD_INT then Some([RReg, RWide])
    else if op == LOAD_ATOM then Some([RReg, RAtom])
    else if op in {LOAD_NIL, SELF_PID, RECV, TICKS} then Some([RReg])
    else if op in {MOVE, HEAD, TAIL} then Some([RReg, RReg])
    else if op == MAKE_TUPLE then Some([RReg, RRegs])
    else if op == GET_ELEM then Some([RReg, RReg, RByte])
    else if op in {CONS, ADD, SUB, MUL, CMP_EQ, CMP_LT} then Some([RReg, RReg, RReg])
    else if op == JMP then Some([ROffset])
    else if op == JMP_IF then Some([RReg, ROffset])
    else if op == CALL then Some([RReg, RCallee, RArgs])
    else if op in {RET, EXIT_ATOM} then Some([RReg])
    else if op == SPAWN then Some([RReg, RSpawnee, RReg])
    else if op == SEND then Some([RReg, RReg])
    else if op == PRINT then Some([RReg])
    else if op == PORT_OPEN then Some([RReg, RByte])
    else if op == PORT_SUBMIT then Some([RReg, RByte, RReg, RReg])
    else if op == PORT_SUBMIT2 then Some([RReg, RReg, RReg, RReg, RReg])
    else if op == BUF_WRITE then Some([RReg, RReg, RReg, RReg])
    else if op == SLEEP_MS then Some([RReg])
    else if op == BUF_NEW then Some([RReg, RReg])
    else if op == BUF_READ then Some([RReg, RReg, RReg, RReg])
    else if op == CALL_EXT then Some([RReg, RAtom, RAtom, RRegs])
    else if op == TAIL_CALL then Some([RCallee, RArgs])
    else if op == TAIL_CALL_EXT then Some([RAtom, RAtom, RRegs])
    else if op in {BAND, BOR, BXOR, BSL, BSR, BIN_CAT, LIST_CAT} then Some([RReg, RReg, RReg])
    else if op in {BNOT, BIN_FROM_LIST, BIN_TO_LIST, BIN_SIZE, BUF_TO_BIN, BIN_TO_BUF, IS_BINARY}
      then Some([RReg, RReg])
    else if op == BIN_NEW then Some([RReg, RBlob])
    else if op == MAP_NEW then Some([RReg, RPairs])
    else if op in {MAP_GET, BIN_AT} then Some([RReg, RReg, RReg])
    else if op in {MAP_PUT, BIN_PART} then Some([RReg, RReg, RReg, RReg])
    else None
  }

  function FieldsOf(roles: seq<Role>): seq<Field> { seq(|roles|, i requires 0 <= i < |roles| => FieldOf(roles[i])) }

  function VerifierFields(op: nat): Option<seq<Field>>
  {
    if Roles(op).Some? then Some(FieldsOf(Roles(op).value)) else None
  }

  /** The interpreter's reads. */
  function InterpFields(op: nat): Option<seq<Field>>
  {
    if op == NOP then Some([])
    else if op == LOAD_INT then Some([U8, U64])
    else if op == LOAD_ATOM then Some([U8, U32])
    else if op == LOAD_NIL then Some([U8])
    else if op == MOVE then Some([U8, U8])
    else if op == SELF_PID then Some([U8])
    else if op == TICKS then Some([U8])
    else if op == MAKE_TUPLE then Some([U8, Regs])
    else if op == GET_ELEM then Some([U8, U8, U8])
    else if op == CONS then Some([U8, U8, U8])
    else if op == HEAD || op == TAIL then Some([U8, U8])
    else if op == ADD || op == SUB || op == MUL then Some([U8, U8, U8])
    else if op == CMP_EQ then Some([U8, U8, U8])
    else if op == CMP_LT then Some([U8, U8, U8])
    else if op == JMP then Some([U32])
    else if op == JMP_IF then Some([U8, U32])
    else if op == CALL then Some([U8, U32, Regs])
    else if op == RET then Some([U8])
    else if op == SPAWN then Some([U8, U32, U8])
    else if op == SEND then Some([U8, U8])
    else if op == RECV then Some([U8])
    else if op == PRINT then Some([U8])
    else if op == EXIT_ATOM then Some([U8])
    else if op == PORT_OPEN then Some([U8, U8])
    else if op == PORT_SUBMIT then Some([U8, U8, U8, U8])
    else if op == BUF_WRITE then Some([U8, U8, U8, U8])
    else if op == SLEEP_MS then Some([U8])
    else if op == BUF_NEW then Some([U8, U8])
    else if op == BUF_READ then Some([U8, U8, U8, U8])
    else if op == PORT_SUBMIT2 then Some([U8, U8, U8, U8, U8])
    else if op == TAIL_CALL then Some([U32, Regs])
    else if op == TAIL_CALL_EXT then Some([U32, U32, Regs])
    else if op == CALL_EXT then Some([U8, U32, U32, Regs])
    else if op == BAND || op == BOR || op == BXOR then Some([U8, U8, U8])
    else if op == BSL || op == BSR then Some([U8, U8, U8])
    else if op == BNOT then Some([U8, U8])
    else if op == BIN_NEW then Some([U8, Blob])
    else if op == BIN_FROM_LIST || op == BIN_TO_LIST || op == BIN_SIZE then Some([U8, U8])
    else if op == BUF_TO_BIN || op == BIN_TO_BUF || op == IS_BINARY then Some([U8, U8])
    else if op == BIN_CAT || op == LIST_CAT || op == BIN_AT then Some([U8, U8, U8])
    else if op == BIN_PART then Some([U8, U8, U8, U8])
    else if op == MAP_NEW then Some([U8, Pairs])
    else if op == MAP_GET then Some([U8, U8, U8])
    else if op == MAP_PUT then Some([U8, U8, U8, U8])
    else None
  }

  /** The reads of the compiler's first pass, over block leaders. */
  function LeaderFields(op: nat): Option<seq<Field>>
  {
    if op == NOP then Some([])
    else if op == LOAD_INT then Some([U8, U64])
    else if op == LOAD_ATOM then Some([U8, U32])
    else if op in {LOAD_NIL, SELF_PID, RECV, RET, EXIT_ATOM, PRINT, TICKS} then Some([U8])
    else if op in {MOVE, HEAD, TAIL, SEND} then Some([U8, U8])
    else if op == MAKE_TUPLE then Some([U8, Regs])
    else if op == GET_ELEM then Some([U8, U8, U8])
    else if op in {CONS, ADD, SUB, MUL, CMP_EQ, CMP_LT, BAND, BOR, BXOR, BSL, BSR, BIN_CAT, LIST_CAT}
      then Some([U8, U8, U8])
    else if op in {BNOT, BIN_FROM_LIST, BIN_TO_LIST, BIN_SIZE, BUF_TO_BIN, BIN_TO_BUF, IS_BINARY} then Some([U8, U8])
    else if op == BIN_NEW then Some([U8, Blob])
    else if op == MAP_NEW then Some([U8, Pairs])
    else if op in {MAP_GET, BIN_AT} then Some([U8, U8, U8])
    else if op in {MAP_PUT, BIN_PART} then Some([U8, U8, U8, U8])
    else if op == JMP then Some([U32])
    else if op == JMP_IF then Some([U8, U32])
    else if op == CALL then Some([U8, U32, Regs])
    else if op == SPAWN then Some([U8, U32, U8])
    else if op == PORT_OPEN then Some([U8, U8])
    else if op == PORT_SUBMIT then Some([U8, U8, U8, U8])
    else if op == PORT_SUBMIT2 then Some([U8, U8, U8, U8, U8])
    else if op == BUF_WRITE then Some([U8, U8, U8, U8])
    else if op == SLEEP_MS then Some([U8])
    else if op == BUF_NEW then Some([U8, U8])
    else if op == BUF_READ then Some([U8, U8, U8, U8])
    else if op == CALL_EXT then Some([U8, U32, U32, Regs])
    else if op == TAIL_CALL_EXT then Some([U32, U32, Regs])
    else if op == TAIL_CALL then Some([U32, Regs])
    else None
  }

  /** The reads of the compiler's skipper over dead code. */
  function SkipFields(op: nat): Option<seq<Field>>
  {
    if op == NOP then Some([])
    else if op == LOAD_INT then Some([U8, U64])
    else if op == LOAD_ATOM then Some([U8, U32])
    else if op in {LOAD_NIL, SELF_PID, RECV, RET, EXIT_ATOM, PRINT, TICKS} then Some([U8])
    else if op in {MOVE, HEAD, TAIL, SEND} then Some([U8, U8])
    else if op == MAKE_TUPLE then Some([U8, Regs])
    else if op in {GET_ELEM, CONS, ADD, SUB, MUL, CMP_EQ, CMP_LT, BAND, BOR, BXOR, BSL, BSR, BIN_CAT, LIST_CAT}
      then Some([U8, U8, U8])
    else if op in {BNOT, BIN_FROM_LIST, BIN_TO_LIST, BIN_SIZE, BUF_TO_BIN, BIN_TO_BUF, IS_BINARY} then Some([U8, U8])
    else if op == BIN_NEW then Some([U8, Blob])
    else if op == MAP_NEW then Some([U8, Pairs])
    else if op in {MAP_GET, BIN_AT} then Some([U8, U8, U8])
    else if op in {MAP_PUT, BIN_PART} then Some([U8, U8, U8, U8])
    else if op == JMP then Some([U32])
    else if op == JMP_IF then Some([U8, U32])
    else if op == CALL then Some([U8, U32, Regs])
    else if op == SPAWN then Some([U8, U32, U8])
    else if op == PORT_OPEN then Some([U8, U8])
    else if op == PORT_SUBMIT then Some([U8, U8, U8, U8])
    else if op == PORT_SUBMIT2 then Some([U8, U8, U8, U8, U8])
    else if op == BUF_WRITE then Some([U8, U8, U8, U8])
    else if op == SLEEP_MS then Some([U8])
    else if op == BUF_NEW then Some([U8, U8])
    else if op == BUF_READ then Some([U8, U8, U8, U8])
    else if op == CALL_EXT then Some([U8, U32, U32, Regs])
    else if op == TAIL_CALL_EXT then Some([U32, U32, Regs])
    else if op == TAIL_CALL then Some([U32, Regs])
    else None
  }

  /** The loader's skipper, which adds up lengths instead of reading operands. */
  function SkipOperands(op: nat, code: seq<Byte>, at: nat): Option<nat>
  {
    if op == NOP then Fixed(code, at, 0)
    else if op == LOAD_INT then Fixed(code, at, 9)
    else if op == LOAD_ATOM then Fixed(code, at, 5)
    else if op == SPAWN then Fixed(code, at, 6)
    else if op in {LOAD_NIL, SELF_PID, RECV, RET, EXIT_ATOM, PRINT, TICKS, SLEEP_MS} then Fixed(code, at, 1)
    else if op in {MOVE, HEAD, TAIL, SEND, BNOT, BIN_FROM_LIST, BIN_TO_LIST, BIN_SIZE, BUF_TO_BIN, BIN_TO_BUF,
                   IS_BINARY, PORT_OPEN, BUF_NEW} then Fixed(code, at, 2)
    else if op in {GET_ELEM, CONS, ADD, SUB, MUL, CMP_EQ, CMP_LT, BAND, BOR, BXOR, BSL, BSR, BIN_CAT, LIST_CAT,
                   MAP_GET, BIN_AT} then Fixed(code, at, 3)
    else if op in {MAP_PUT, BIN_PART, PORT_SUBMIT, BUF_WRITE, BUF_READ} then Fixed(code, at, 4)
    else if op == PORT_SUBMIT2 then Fixed(code, at, 5)
    else if op == JMP then Fixed(code, at, 4)
    else if op == JMP_IF then Fixed(code, at, 5)
    else if op == MAKE_TUPLE then (if at + 1 < |code| then Fixed(code, at, 2 + At(code, at + 1)) else None)
    else if op == MAP_NEW then (if at + 1 < |code| then Fixed(code, at, 2 + 2 * At(code, at + 1)) else None)
    else if op == BIN_NEW then (if at + 5 <= |code| then Fixed(code, at, 5 + LE(code, at + 1, 4)) else None)
    else if op == CALL then (if at + 5 < |code| then Fixed(code, at, 6 + At(code, at + 5)) else None)
    else if op == TAIL_CALL then (if at + 4 < |code| then Fixed(code, at, 5 + At(code, at + 4)) else None)
    else if op == CALL_EXT then (if at + 9 < |code| then Fixed(code, at, 10 + At(code, at + 9)) else None)
    else if op == TAIL_CALL_EXT then (if at + 8 < |code| then Fixed(code, at, 9 + At(code, at + 8)) else None)
    else None
  }

  function Fixed(code: seq<Byte>, at: nat, n: nat): Option<nat> { if at + n <= |code| then Some(at + n) else None }

  /** The four reading decoders read the same operands for every opcode. */
  lemma TablesAgree(op: nat)
    ensures VerifierFields(op) == InterpFields(op) == LeaderFields(op) == SkipFields(op)
  {
    if Roles(op).Some? {
      var rs, fs := Roles(op).value, InterpFields(op).value;
      assert |rs| == |fs| && forall i :: 0 <= i < |rs| ==> FieldOf(rs[i]) == fs[i];
      assert FieldsOf(rs) == fs;
    }
  }

  /** The offset a field list ends at, if it can be read. */
  function EndOf(fs: seq<Field>, code: seq<Byte>, at: nat): Option<nat>
    requires at <= |code|
  {
    var r := ReadFields(fs, code, at);
    if r.Got? then Some(r.next) else None
  }

  /** Bytes of a field of known width. */
  function Width(f: Field): nat { if f.U8? then 1 else if f.U32? then 4 else 8 }

  function Widths(fs: seq<Field>): nat { if fs == [] then 0 else Width(fs[0]) + Widths(fs[1..]) }

  predicate FixedWidth(fs: seq<Field>) { forall i :: 0 <= i < |fs| ==> fs[i].U8? || fs[i].U32? || fs[i].U64? }

  /** Fields of known width, then at most one that carries its own length. */
  lemma {:induction false} EndOfFields(fs: seq<Field>, last: seq<Field>, code: seq<Byte>, at: nat)
    requires at <= |code| && FixedWidth(fs) && |last| <= 1
    ensures at + Widths(fs) > |code| ==> EndOf(fs + last, code, at) == None
    ensures at + Widths(fs) <= |code| ==> EndOf(fs + last, code, at) == EndOf(last, code, at + Widths(fs))
    decreases |fs|
  {
    if fs == [] {
      assert fs + last == last;
    } else {
      var f := ReadField(fs[0], code, at);
      assert (fs + last)[1..] == fs[1..] + last;
      if f.Got? { EndOfFields(fs[1..], last, code, f.next); }
    }
  }

  lemma EndOfOne(f: Field, code: seq<Byte>, at: nat)
    requires at <= |code|
    ensures EndOf([f], code, at) == (var r := ReadField(f, code, at); if r.Got? then Some(r.next) else None)
    ensures EndOf([], code, at) == Some(at)
  {
    var r := ReadField(f, code, at);
    assert [f][1..] == [];
    if r.Got? { assert ReadFields([f][1..], code, r.next) == Got([], r.next); }
  }

  lemma FixedEnds(fs: seq<Field>, n: nat, code: seq<Byte>, at: nat)
    requires at <= |code| && FixedWidth(fs) && Widths(fs) == n
    ensures EndOf(fs, code, at) == Fixed(code, at, n)
  {
    hide EndOf, Widths;
    EndOfFields(fs, [], code, at);
    assert fs + [] == fs;
    if at + n <= |code| { EndOfOne(U8, code, at + n); }
  }

  lemma VariableEnds(fs: seq<Field>, n: nat, last: Field, all: seq<Field>, code: seq<Byte>, at: nat)
    requires at <= |code| && FixedWidth(fs) && Widths(fs) == n && all == fs + [last]
    ensures at + n > |code| ==> EndOf(all, code, at) == None
    ensures at + n <= |code| ==>
      EndOf(all, code, at) == (var r := ReadField(last, code, at + n); if r.Got? then Some(r.next) else None)
  {
    hide EndOf, Widths, ReadField;
    EndOfFields(fs, [last], code, at);
    if at + n <= |code| { EndOfOne(last, code, at + n); }
  }

  ghost predicate SkipsTo(op: nat, code: seq<Byte>, at: nat)
    requires at <= |code|
  {
    && (InterpFields(op).None? ==> SkipOperands(op, code, at) == None)
    && (InterpFields(op).Some? ==> SkipOperands(op, code, at) == EndOf(InterpFields(op).value, code, at))
  }

  lemma SkipByteOperands(op: nat, code: seq<Byte>, at: nat)
    requires at <= |code| && op in {LOAD_NIL, SELF_PID, RECV, RET, EXIT_ATOM, PRINT, TICKS, SLEEP_MS, NOP}
    ensures SkipsTo(op, code, at)
  {
    hide EndOf;
    FixedEnds([], 0, code, at);
    FixedEnds([U8], 1, code, at);
  }

  lemma SkipTwoOperands(op: nat, code: seq<Byte>, at: nat)
    requires at <= |code|
    requires op in {MOVE, HEAD, TAIL, SEND, BNOT, BIN_FROM_LIST, BIN_TO_LIST, BIN_SIZE, BUF_TO_BIN, BIN_TO_BUF,
                    IS_BINARY, PORT_OPEN, BUF_NEW}
    ensures SkipsTo(op, code, at)
  {
    hide EndOf;
    FixedEnds([U8, U8], 2, code, at);
  }

  lemma SkipThreeOperands(op: nat, code: seq<Byte>, at: nat)
    requires at <= |code|
    requires op in {GET_ELEM, CONS, ADD, SUB, MUL, CMP_EQ, CMP_LT, BAND, BOR, BXOR, BSL, BSR, BIN_CAT, LIST_CAT,
                    MAP_GET, BIN_AT}
    ensures SkipsTo(op, code, at)
  {
    hide EndOf;
    FixedEnds([U8, U8, U8], 3, code, at);
  }

  lemma SkipMoreOperands(op: nat, code: seq<Byte>, at: nat)
    requires at <= |code| && op in {MAP_PUT, BIN_PART, PORT_SUBMIT, BUF_WRITE, BUF_READ, PORT_SUBMIT2}
    ensures SkipsTo(op, code, at)
  {
    hide EndOf;
    FixedEnds([U8, U8, U8, U8], 4, code, at);
    FixedEnds([U8, U8, U8, U8, U8], 5, code, at);
  }

  lemma SkipWideOperands(op: nat, code: seq<Byte>, at: nat)
    requires at <= |code| && op in {LOAD_INT, LOAD_ATOM, SPAWN, JMP, JMP_IF}
    ensures SkipsTo(op, code, at)
  {
    hide EndOf;
    FixedEnds([U32], 4, code, at);
    FixedEnds([U8, U32], 5, code, at);
    FixedEnds([U8, U32, U8], 6, code, at);
    FixedEnds([U8, U64], 9, code, at);
  }

  lemma SkipLists(op: nat, code: seq<Byte>, at: nat)
    requires at <= |code| && op in {MAKE_TUPLE, MAP_NEW, BIN_NEW}
    ensures SkipsTo(op, code, at)
  {
    hide EndOf, LE;
    VariableEnds([U8], 1, Regs, [U8, Regs], code, at);
    VariableEnds([U8], 1, Pairs, [U8, Pairs], code, at);
    VariableEnds([U8], 1, Blob, [U8, Blob], code, at);
  }

  lemma SkipCalls(op: nat, code: seq<Byte>, at: nat)
    requires at <= |code| && op in {CALL, TAIL_CALL, CALL_EXT, TAIL_CALL_EXT}
    ensures SkipsTo(op, code, at)
  {
    hide EndOf, LE;
    VariableEnds([U8, U32], 5, Regs, [U8, U32, Regs], code, at);
    VariableEnds([U32], 4, Regs, [U32, Regs], code, at);
    VariableEnds([U8, U32, U32], 9, Regs, [U8, U32, U32, Regs], code, at);
    VariableEnds([U32, U32], 8, Regs, [U32, U32, Regs], code, at);
  }

  /** And the fifth decoder, which only adds lengths, ends every instruction where they do
      and gives up exactly when they do. */
  lemma SkipAgrees(op: nat, code: seq<Byte>, at: nat)
    requires at <= |code|
    ensures SkipsTo(op, code, at)
  {
    if op in {LOAD_NIL, SELF_PID, RECV, RET, EXIT_ATOM, PRINT, TICKS, SLEEP_MS, NOP} {
      SkipByteOperands(op, code, at);
    } else if op in {MOVE, HEAD, TAIL, SEND, BNOT, BIN_FROM_LIST, BIN_TO_LIST, BIN_SIZE, BUF_TO_BIN, BIN_TO_BUF,
                     IS_BINARY, PORT_OPEN, BUF_NEW} {
      SkipTwoOperands(op, code, at);
    } else if op in {GET_ELEM, CONS, ADD, SUB, MUL, CMP_EQ, CMP_LT, BAND, BOR, BXOR, BSL, BSR, BIN_CAT, LIST_CAT,
                     MAP_GET, BIN_AT} {
      SkipThreeOperands(op, code, at);
    } else if op in {MAP_PUT, BIN_PART, PORT_SUBMIT, BUF_WRITE, BUF_READ, PORT_SUBMIT2} {
      SkipMoreOperands(op, code, at);
    } else if op in {LOAD_INT, LOAD_ATOM, SPAWN, JMP, JMP_IF} {
      SkipWideOperands(op, code, at);
    } else if op in {MAKE_TUPLE, MAP_NEW, BIN_NEW} {
      SkipLists(op, code, at);
    } else if op in {CALL, TAIL_CALL, CALL_EXT, TAIL_CALL_EXT} {
      SkipCalls(op, code, at);
    }
  }

  /** A decoded instruction: opcode, operands, and where the next one starts. */
  datatype Insn = Insn(op: nat, args: seq<Operand>, next: nat)

  function Decode(code: seq<Byte>, at: nat): (r: Option<Insn>)
    ensures r.Some? ==> at < r.value.next <= |code| && r.value.op == code[at] && InterpFields(r.value.op).Some?
    ensures r.Some? ==> |r.value.args| == |InterpFields(r.value.op).value|
  {
    if at >= |code| || InterpFields(code[at]).None? then None
    else
      match ReadFields(InterpFields(code[at]).value, code, at + 1)
      case Truncated => None
      case Got(args, next) => Some(Insn(code[at], args, next))
  }

  /** Instruction boundaries of a linear scan from `at`. */
  ghost function Starts(code: seq<Byte>, at: nat): set<nat>
    decreases |code| - at
  {
    if at >= |code| then {}
    else {at} + (if Decode(code, at).Some? then Starts(code, Decode(code, at).value.next) else {})
  }

  predicate FallsThrough(op: nat) { op !in {JMP, RET, EXIT_ATOM, TAIL_CALL, TAIL_CALL_EXT} }

  predicate Jumps(op: nat) { op == JMP || op == JMP_IF }

  /** Absolute target of a jump: its offset is relative to the next instruction. */
  function Target(i: Insn): int
  {
    if |i.args| > 0 && i.args[|i.args| - 1].Num? then i.next + Signed32(i.args[|i.args| - 1].n) else -1
  }
}
