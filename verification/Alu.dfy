/** alu.v, and its agreement with arithmetic on signed and unsigned integers. */
module Alu {
  import opened Words
  import opened Isa
  import opened Encoding

  /** `$signed(x) >>> k`: the vacated upper k bits are copies of the sign bit. */
  function ArithmeticShiftRight(x: Word, k: nat): int
    requires k < 32
  {
    x / Pow2(k) + (if x >= 0x8000_0000 then 0x1_0000_0000 - Pow2(32 - k) else 0)
  }

  /** `aluCtrl` is {branch, modifier, funct3}; the result is a 32-bit vector. */
  function AluResult(aluCtrl: nat, src1: Word, src2: Word): Word {
    var shamt := src2 % 0x20;
    var lt := Signed(src1) < Signed(src2);
    var ltu := src1 < src2;
    var func3 := aluCtrl % 8;
    var modifier := aluCtrl / 8 % 2 == 1;
    if aluCtrl / 16 == 0 then
      (match func3
       case 0 => if !modifier then Wrap(src1 + src2) else Wrap(src1 - src2)
       case 7 => AndW(src1, src2)
       case 6 => OrW(src1, src2)
       case 4 => XorW(src1, src2)
       case 2 => Flag(lt)
       case 3 => Flag(ltu)
       case 1 => Wrap(src1 * Pow2(shamt))
       case 5 => if !modifier then Wrap(src1 / Pow2(shamt)) else Wrap(ArithmeticShiftRight(src1, shamt))
       case _ => 0)
    else if !modifier then
      (match func3
       case 0 => Flag(src1 == src2)
       case 1 => Flag(src1 != src2)
       case 4 => Flag(lt)
       case 5 => Flag(!lt)
       case 6 => Flag(ltu)
       case 7 => Flag(!ltu)
       case _ => 0)
    else 0
  }

  predicate TakeBranch(result: Word) {
    result % 2 == 1
  }

  // ----- Agreement with the reference meaning -----

  /** The sign-filling shift is floor division of the signed value by a power of two. */
  lemma SraIsFloorDivision(x: Word, k: nat)
    requires k < 32
    ensures Wrap(ArithmeticShiftRight(x, k)) == Wrap(Signed(x) / Pow2(k))
  {
    Pow2Sum(k, 32 - k);
    Pow2At32();
    if x >= 0x8000_0000 {
      NegativeQuotient(x, Pow2(k), Pow2(32 - k));
    }
  }

  lemma NegativeQuotient(x: int, p: nat, n: nat)
    requires p > 0 && p * n == 0x1_0000_0000
    ensures Wrap(x / p + (0x1_0000_0000 - n)) == Wrap((x - 0x1_0000_0000) / p)
  {
    assert x - p * n == (x / p - n) * p + x % p;
    QuotientUnique(x - p * n, x / p - n, x % p, p);
  }

  lemma SignedSums(a: Word, b: Word)
    ensures Wrap(a + b) == Wrap(Signed(a) + Signed(b))
    ensures Wrap(a - b) == Wrap(Signed(a) - Signed(b))
  {
  }

  function OpCtrl(op: AluOp): nat {
    (if AluFunct7(op) == F7_SUB then 8 else 0) + AluFunct3(op)
  }

  lemma AluComputesOp(op: AluOp, a: Word, b: Word)
    ensures AluResult(OpCtrl(op), a, b) == AluMeaning(op, a, b)
  {
    match op
    case SLL => AluShifts(op, a, b);
    case SRL => AluShifts(op, a, b);
    case SRA => AluShifts(op, a, b);
    case ADD => AluSums(op, a, b);
    case SUB => AluSums(op, a, b);
    case SLT =>
    case SLTU =>
    case XOR =>
    case OR =>
    case AND =>
  }

  lemma AluSums(op: AluOp, a: Word, b: Word)
    requires op == ADD || op == SUB
    ensures AluResult(OpCtrl(op), a, b) == AluMeaning(op, a, b)
  {
    SignedSums(a, b);
  }

  lemma AluShifts(op: AluOp, a: Word, b: Word)
    requires op == SLL || op == SRL || op == SRA
    ensures AluResult(OpCtrl(op), a, b) == AluMeaning(op, a, b)
  {
    SraIsFloorDivision(a, b % 0x20);
  }

  lemma AluDecidesBranch(c: Cond, a: Word, b: Word)
    ensures TakeBranch(AluResult(16 + CondFunct3(c), a, b)) <==> CondMeaning(c, a, b)
  {
  }
}
