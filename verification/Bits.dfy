/** Two's complement bit by bit, and the interpreter's integer operations in those terms. */
module Bits {
  import opened Basics
  import opened Bytecode
  import opened Interp

  /** Bit `k` of the two's complement of `v`: halving rounds down. */
  ghost predicate Bit(v: int, k: nat)
    decreases k
  {
    if k == 0 then v % 2 == 1 else Bit(v / 2, k - 1)
  }

  /** `v` doubled `n` times. */
  ghost function Doubled(v: int, n: nat): int { if n == 0 then v else 2 * Doubled(v, n - 1) }

  /** `v` halved `n` times, rounding down. */
  ghost function Halved(v: int, n: nat): int
    decreases n
  {
    if n == 0 then v else Halved(v / 2, n - 1)
  }

  /** `w` is the word that carries `v` under the integer tag, cut to 64 bits. */
  ghost predicate Tags(w: Term, v: int) { (8 * v + 1 - w) % 0x1_0000_0000_0000_0000 == 0 }

  /** `w` is the term of the i61 `x`. */
  ghost predicate Holds(w: Term, x: int)
  {
    -0x1000_0000_0000_0000 <= x < 0x1000_0000_0000_0000 && Tags(w, x)
  }

  lemma IntTermTags(v: int)
    ensures Tags(IntTerm(v), v)
    ensures forall w: Term :: Tags(w, v) ==> w == IntTerm(v)
  {
  }

  lemma HeldInt(w: Term, x: int)
    requires Holds(w, x)
    ensures IsInt(w) && IntOf(w) == x
  {
  }

  /** Every word with the integer tag is the term of one i61. */
  lemma IntIsHeld(w: Term)
    requires w % 8 == 1
    ensures Holds(w, IntOf(w))
  {
  }

  lemma HalfOfMod(v: int, m: nat)
    requires m > 0
    ensures v % (2 * m) % 2 == v % 2 && v % (2 * m) / 2 == v / 2 % m
  {
    var q, r := v / (2 * m), v % (2 * m);
    assert v == 2 * (m * q) + r;
    assert v / 2 == m * q + r / 2;
    Remainder(v / 2, q, r / 2, m);
  }

  lemma Remainder(x: int, q: int, r: nat, m: nat)
    requires m > 0 && x == m * q + r && r < m
    ensures x % m == r && x / m == q
  {
    var d := x / m - q;
    assert x % m == r - m * d;
    Apart(m, d);
  }

  lemma Apart(m: nat, d: int)
    ensures d > 0 ==> m * d >= m
    ensures d < 0 ==> m * d + m <= 0
  {
  }

  lemma {:induction false} LowBits(v: int, n: nat, k: nat)
    requires k < n
    ensures Bit(v % Pow2(n), k) == Bit(v, k)
    decreases k
  {
    HalfOfMod(v, Pow2(n - 1));
    if k > 0 { LowBits(v / 2, n - 1, k - 1); }
  }

  lemma Two64()
    ensures Pow2(64) == TWO64
  {
    hide Pow2;
    assert Pow2(8) == 256 by { Small(); }
    PowAdd(8, 8);
    PowAdd(16, 16);
    PowAdd(32, 32);
  }

  lemma Small()
    ensures Pow2(8) == 256
  {
    assert Pow2(4) == 16;
  }

  lemma WordBits(v: int, k: nat)
    requires k < 64
    ensures Bit(Word(v), k) == Bit(v, k)
    ensures Bit(Signed(Word(v)), k) == Bit(v, k)
  {
    Two64();
    LowBits(v, 64, k);
    LowBits(Signed(Word(v)), 64, k);
    assert Signed(Word(v)) % TWO64 == v % TWO64;
  }

  lemma {:induction false} BitwiseBit(op: nat, a: nat, b: nat, n: nat, k: nat)
    requires k < n
    ensures op == 28 ==> Bit(Bitwise(op, a, b, n), k) == (Bit(a, k) && Bit(b, k))
    ensures op == 29 ==> Bit(Bitwise(op, a, b, n), k) == (Bit(a, k) || Bit(b, k))
    ensures op == 30 ==> Bit(Bitwise(op, a, b, n), k) == (Bit(a, k) != Bit(b, k))
    decreases k
  {
    var r, rest := Bitwise(op, a, b, n), Bitwise(op, a / 2, b / 2, n - 1);
    FirstBit(op, a, b, n);
    if k > 0 { BitwiseBit(op, a / 2, b / 2, n - 1, k - 1); }
  }

  lemma FirstBit(op: nat, a: nat, b: nat, n: nat)
    requires n > 0
    ensures var r := Bitwise(op, a, b, n);
      && r / 2 == Bitwise(op, a / 2, b / 2, n - 1)
      && (op == 28 ==> (r % 2 == 1 <==> a % 2 == 1 && b % 2 == 1))
      && (op == 29 ==> (r % 2 == 1 <==> a % 2 == 1 || b % 2 == 1))
      && (op == 30 ==> (r % 2 == 1 <==> a % 2 != b % 2))
  {
    var x, y, rest := a % 2, b % 2, Bitwise(op, a / 2, b / 2, n - 1);
    assert x * y == if x == 1 then y else 0;
    var low := if op == BAND then x * y else if op == BOR then x + y - x * y else (x + y) % 2;
    assert Bitwise(op, a, b, n) == low + 2 * rest && 0 <= low <= 1;
  }

  /** Bit `k` of AND, OR and XOR is the and, or and xor of the operands' bits, for all of 64
      and every two numbers; and the result is an i64. */
  lemma BitOpBits(op: nat, a: int, b: int, k: nat)
    requires k < 64
    ensures op == 28 ==> Bit(BitOp(op, a, b), k) == (Bit(a, k) && Bit(b, k))
    ensures op == 29 ==> Bit(BitOp(op, a, b), k) == (Bit(a, k) || Bit(b, k))
    ensures op == 30 ==> Bit(BitOp(op, a, b), k) == (Bit(a, k) != Bit(b, k))
    ensures FitsI64(BitOp(op, a, b))
  {
    WordBits(a, k);
    WordBits(b, k);
    WordBits(Bitwise(op, Word(a), Word(b), 64), k);
    BitwiseBit(op, Word(a), Word(b), 64, k);
  }

  /** Which leaves no choice: 64 bits determine an i64. */
  lemma {:induction false} BitsDetermine(a: int, b: int, n: nat)
    requires n > 0 && 0 <= a + Pow2(n - 1) < Pow2(n) && 0 <= b + Pow2(n - 1) < Pow2(n)
    requires forall k: nat :: k < n ==> Bit(a, k) == Bit(b, k)
    ensures a == b
    decreases n
  {
    assert Bit(a, 0) == Bit(b, 0);
    if n > 1 {
      forall k: nat | k < n - 1 ensures Bit(a / 2, k) == Bit(b / 2, k) { assert Bit(a, k + 1) == Bit(b, k + 1); }
      BitsDetermine(a / 2, b / 2, n - 1);
    }
  }

  lemma {:induction false} HalvedIs(a: int, n: nat)
    ensures ShiftRight(a, n) == Halved(a, n)
    decreases n
  {
    if n > 0 {
      HalvedIs(a / 2, n - 1);
      var m := Pow2(n - 1);
      var q, r := a / 2 / m, a / 2 % m;
      assert a == 2 * (m * q + r) + a % 2;
      assert a == (2 * m) * q + (2 * r + a % 2);
      Remainder(a, q, 2 * r + a % 2, 2 * m);
    } else {
      assert a / 1 == a;
    }
  }

  lemma {:induction false} DoubledIs(a: int, n: nat)
    ensures a * Pow2(n) == Doubled(a, n)
    decreases n
  {
    if n > 0 {
      DoubledIs(a, n - 1);
      assert a * (2 * Pow2(n - 1)) == 2 * (a * Pow2(n - 1));
    }
  }

  /** A left shift is repeated doubling cut to 64 bits, a right shift repeated halving. */
  lemma ShiftsAre(a: int, n: nat)
    ensures ShiftRight(a, n) == Halved(a, n)
    ensures FitsI64(ShiftLeft(a, n)) && (ShiftLeft(a, n) - Doubled(a, n)) % 0x1_0000_0000_0000_0000 == 0
  {
    hide ShiftRight, Doubled, Halved;
    HalvedIs(a, n);
    DoubledIs(a, n);
    CutToWord(a * Pow2(n));
  }

  lemma CutToWord(v: int)
    ensures FitsI64(Signed(Word(v))) && (Signed(Word(v)) - v) % 0x1_0000_0000_0000_0000 == 0
  {
  }
}
