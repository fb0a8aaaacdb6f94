/** Where the compiler starts a block and when it gives up, read off the bytes. */
module ByteBlocks {
  import opened Bytecode
  import opened Interp
  import opened Blocks
  import opened ByteMeaning
  import opened ByteControl
  import opened ByteChecks

  /** The instruction at `b` jumps by its offset to `l`. */
  ghost predicate JumpsFrom(code: seq<Byte>, b: nat, l: int)
  {
    || (b < |code| && code[b] == 16 && Offset(code, b + 1, l - (b + 5)))
    || (b < |code| && code[b] == 17 && Offset(code, b + 2, l - (b + 6)))
  }

  /** A block starts at `l` because of the instruction at `b`: a jump there, or control that does
      not simply go on there. */
  ghost predicate LedBy(code: seq<Byte>, b: nat, l: nat)
  {
    && b < |code| && Decode(code, b).Some?
    && (JumpsFrom(code, b, l) || (code[b] in {16, 17, 19, 24, 47, 49} && Decode(code, b).value.next == l))
  }

  lemma JumpTarget(code: seq<Byte>, b: nat, l: int)
    requires b < |code| && Decode(code, b).Some? && Jumps(code[b])
    ensures JumpsFrom(code, b, l) <==> Target(Decode(code, b).value) == l
  {
    hide Decode, Target, Offset, LE, Word32, Signed32;
    Readable(code, b);
    var at, end := b + (if code[b] == 16 then 1 else 2), b + (if code[b] == 16 then 5 else 6);
    assert at + 4 <= |code|;
    var d := Signed32(LE(code, at, 4));
    OffsetExists(code, at);
    TargetIs(code, b, d);
    if Offset(code, at, l - end) { OffsetIs(code, at, l - end); }
  }

  lemma MadeIs(code: seq<Byte>, b: nat, l: nat)
    requires b < |code| && Decode(code, b).Some? && l < 0x8000_0000_0000_0000
    ensures l in Made(Decode(code, b).value) <==> LedBy(code, b, l)
  {
    hide Decode, Target, JumpsFrom, Word;
    var i := Decode(code, b).value;
    DecodedOp(code, b);
    if Jumps(i.op) {
      JumpTarget(code, b, l);
      KeyIs(code, b);
    } else {
      NoJump(code, b, l);
    }
  }

  lemma DecodedOp(code: seq<Byte>, b: nat)
    requires Decode(code, b).Some?
    ensures b < |code| && Decode(code, b).value.op == code[b]
  {
  }

  lemma NoJump(code: seq<Byte>, b: nat, l: int)
    requires b < |code| && !Jumps(code[b])
    ensures !JumpsFrom(code, b, l)
  {
  }

  /** A target before the code is taken for one far past it. */
  lemma KeyIs(code: seq<Byte>, b: nat)
    requires b < |code| && Decode(code, b).Some? && Jumps(code[b])
    ensures var i := Decode(code, b).value;
      if Target(i) >= 0 then TargetKey(i) == Target(i) else TargetKey(i) >= 0x8000_0000_0000_0000
  {
    hide Decode, Target, LE, Word32, Offset;
    Readable(code, b);
    var at := b + (if code[b] == 16 then 1 else 2);
    OffsetExists(code, at);
    assert -0x8000_0000 <= Signed32(LE(code, at, 4)) by { InOffset(code, at, Signed32(LE(code, at, 4))); }
    TargetIs(code, b, Signed32(LE(code, at, 4)));
  }

  lemma InOffset(code: seq<Byte>, at: nat, d: int)
    requires Offset(code, at, d)
    ensures -0x8000_0000 <= d < 0x8000_0000
  {
  }

  /** A block starts at the beginning, where a jump leads, and after a jump or an end, and nowhere
      else. */
  lemma LeaderIs(code: seq<Byte>, l: nat)
    requires l < 0x8000_0000_0000_0000
    ensures l in Leaders(code) <==> l != |code| && (l == 0 || exists b :: b in Starts(code, 0) && LedBy(code, b, l))
  {
    hide Decode, Made, LedBy, Starts, LeadersFrom;
    if l in LeadersFrom(code, 0) {
      LeaderOrigin(code, 0, l);
      var b :| b in Starts(code, 0) && Decode(code, b).Some? && l in Made(Decode(code, b).value);
      DecodedOp(code, b);
      MadeIs(code, b, l);
    }
    if b :| b in Starts(code, 0) && LedBy(code, b, l) {
      LedDecodes(code, b, l);
      MadeIs(code, b, l);
      MadeIsLeader(code, 0, b);
    }
  }

  lemma LedDecodes(code: seq<Byte>, b: nat, l: nat)
    requires LedBy(code, b, l)
    ensures b < |code| && Decode(code, b).Some?
  {
  }

  /** The atoms an instruction names are known. */
  ghost predicate AtomsKnown(ns: Names, code: seq<Byte>, b: nat)
  {
    && b < |code|
    && (code[b] == 2 ==> b + 6 <= |code| && Word32(code, b + 2) < |ns.atoms|)
    && (code[b] == 27 ==> b + 10 <= |code| && Word32(code, b + 2) < |ns.atoms| && Word32(code, b + 6) < |ns.atoms|)
    && (code[b] == 47 ==> b + 9 <= |code| && Word32(code, b + 1) < |ns.atoms| && Word32(code, b + 5) < |ns.atoms|)
  }

  lemma AtomsAre(ns: Names, code: seq<Byte>, b: nat)
    requires Decode(code, b).Some?
    ensures var i := Decode(code, b).value;
      AtomsKnown(ns, code, b) <==>
        && (i.op == LOAD_ATOM ==> Reg(i, 1) < |ns.atoms|)
        && (i.op == CALL_EXT ==> Reg(i, 1) < |ns.atoms| && Reg(i, 2) < |ns.atoms|)
        && (i.op == TAIL_CALL_EXT ==> Reg(i, 0) < |ns.atoms| && Reg(i, 1) < |ns.atoms|)
  {
    hide Decode, LE, Word32, Imms, Sources;
    DecodedOp(code, b);
    Readable(code, b);
    if code[b] == 2 {
      Decode2(U8, U32, code, b);
      LE4(code, b + 2);
    } else if code[b] == 27 {
      CallExtDecodes(code, b);
    } else if code[b] == 47 {
      TailExtDecodes(ns, code, b);
    }
  }

  /** The compiler gives up on a scanned instruction exactly for an unknown atom, a jump to just
      past the code, or a conditional jump that ends it. */
  lemma ResolvesIs(ns: Names, code: seq<Byte>, b: nat)
    requires b in Starts(code, 0) && Decode(code, b).Some? && |code| < 0x8000_0000_0000_0000
    ensures ResolvesAt(ns, code, b) <==>
      AtomsKnown(ns, code, b) && !JumpsFrom(code, b, |code|) && !(code[b] == 17 && b + 6 == |code|)
  {
    hide Decode, Target, JumpsFrom, AtomsKnown, Starts, LeadersFrom;
    var i := Decode(code, b).value;
    DecodedOp(code, b);
    AtomsAre(ns, code, b);
    MadeIsLeader(code, 0, b);
    if Jumps(i.op) {
      JumpTarget(code, b, |code|);
      KeyIs(code, b);
      BranchEnd(code, b);
    } else {
      NoJump(code, b, |code|);
    }
  }

  lemma BranchEnd(code: seq<Byte>, b: nat)
    requires b < |code| && Decode(code, b).Some? && Jumps(code[b])
    ensures Decode(code, b).value.next == b + if code[b] == 16 then 5 else 6
  {
    hide Decode, LE, Word32, Offset;
    Readable(code, b);
    var at := b + (if code[b] == 16 then 1 else 2);
    OffsetExists(code, at);
    TargetIs(code, b, Signed32(LE(code, at, 4)));
  }
}
