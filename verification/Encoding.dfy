/** The instruction builders of tb_utils/rv32i/bitops.py and the RV32I opcode map. */
module Encoding {
  import opened Words
  import opened Isa

  const OPCODE_LOAD := 0x03
  const OPCODE_OP_IMM := 0x13
  const OPCODE_AUIPC := 0x17
  const OPCODE_STORE := 0x23
  const OPCODE_OP := 0x33
  const OPCODE_LUI := 0x37
  const OPCODE_BRANCH := 0x63
  const OPCODE_JALR := 0x67
  const OPCODE_JAL := 0x6F

  const F7_SUB := 0x20

  // `v & (2^n - 1)` and `v >> n` on a Python integer are `v % 2^n` and `v / 2^n`,
  // for negative v too; `|` and `<<` are applied to non-negative values only.

  function BuildR(funct7: nat, rs2: nat, rs1: nat, funct3: nat, rd: nat, opcode: nat): nat {
    Or(Or(Or(Or(Or(funct7 * 0x200_0000, rs2 * 0x10_0000), rs1 * 0x8000), funct3 * 0x1000), rd * 0x80), opcode)
  }

  function BuildI(imm: int, rs1: nat, funct3: nat, rd: nat, opcode: nat): nat {
    Or(Or(Or(Or((imm % 0x1000) * 0x10_0000, rs1 * 0x8000), funct3 * 0x1000), rd * 0x80), opcode)
  }

  function BuildS(imm: int, rs2: nat, rs1: nat, funct3: nat, opcode: nat): nat {
    var imm11to5 := imm / 0x20 % 0x80;
    var imm4to0 := imm % 0x20;
    Or(Or(Or(Or(Or(imm11to5 * 0x200_0000, rs2 * 0x10_0000), rs1 * 0x8000), funct3 * 0x1000), imm4to0 * 0x80), opcode)
  }

  function BuildB(imm: int, rs2: nat, rs1: nat, funct3: nat, opcode: nat): nat {
    var imm12 := imm / 0x1000 % 2;
    var imm11 := imm / 0x800 % 2;
    var imm10to5 := imm / 0x20 % 0x40;
    var imm4to1 := imm / 2 % 0x10;
    Or(Or(Or(Or(Or(Or(Or(imm12 * 0x8000_0000, imm10to5 * 0x200_0000), rs2 * 0x10_0000), rs1 * 0x8000),
                funct3 * 0x1000), imm4to1 * 0x100), imm11 * 0x80), opcode)
  }

  function BuildU(imm: int, rd: nat, opcode: nat): nat {
    Or(Or(imm / 0x1000 % 0x10_0000 * 0x1000, rd * 0x80), opcode)
  }

  function BuildJ(imm: int, rd: nat, opcode: nat): nat {
    var imm20 := imm / 0x10_0000 % 2;
    var imm19to12 := imm / 0x1000 % 0x100;
    var imm11 := imm / 0x800 % 2;
    var imm10to1 := imm / 2 % 0x400;
    Or(Or(Or(Or(Or(imm20 * 0x8000_0000, imm10to1 * 0x20_0000), imm11 * 0x10_0000), imm19to12 * 0x1000), rd * 0x80), opcode)
  }

  // ----- Which builder and which funct fields encode each instruction -----

  function AluFunct3(op: AluOp): nat {
    match op
    case ADD => 0
    case SUB => 0
    case SLL => 1
    case SLT => 2
    case SLTU => 3
    case XOR => 4
    case SRL => 5
    case SRA => 5
    case OR => 6
    case AND => 7
  }

  function AluFunct7(op: AluOp): nat {
    if op == SUB || op == SRA then F7_SUB else 0
  }

  function CondFunct3(c: Cond): nat {
    match c
    case EQ => 0
    case NE => 1
    case LT => 4
    case GE => 5
    case LTU => 6
    case GEU => 7
  }

  function WidthFunct3(w: Width, unsigned: bool): nat {
    (match w case BYTE => 0 case HALF => 1 case WORD => 2) + (if unsigned then 4 else 0)
  }

  function Encode(i: Instr): nat {
    match i
    case Op(op, rd, rs1, rs2) => BuildR(AluFunct7(op), rs2, rs1, AluFunct3(op), rd, OPCODE_OP)
    case OpImm(op, rd, rs1, imm) => BuildI(AluFunct7(op) * 0x20 + imm, rs1, AluFunct3(op), rd, OPCODE_OP_IMM)
    case Lui(rd, imm) => BuildU(imm, rd, OPCODE_LUI)
    case Auipc(rd, imm) => BuildU(imm, rd, OPCODE_AUIPC)
    case Jal(rd, imm) => BuildJ(imm, rd, OPCODE_JAL)
    case Jalr(rd, rs1, imm) => BuildI(imm, rs1, 0, rd, OPCODE_JALR)
    case Branch(cond, rs1, rs2, imm) => BuildB(imm, rs2, rs1, CondFunct3(cond), OPCODE_BRANCH)
    case Load(width, unsigned, rd, rs1, imm) => BuildI(imm, rs1, WidthFunct3(width, unsigned), rd, OPCODE_LOAD)
    case Store(width, rs2, rs1, imm) => BuildS(imm, rs2, rs1, WidthFunct3(width, false), OPCODE_STORE)
  }

  // ----- Layout: with fields in range, `|` places them side by side -----

  lemma Powers()
    ensures Pow2(7) == 0x80 && Pow2(8) == 0x100 && Pow2(12) == 0x1000 && Pow2(15) == 0x8000 && Pow2(20) == 0x10_0000
    ensures Pow2(21) == 0x20_0000 && Pow2(25) == 0x200_0000 && Pow2(31) == 0x8000_0000
  {
    assert Pow2(4) == 0x10;
    assert Pow2(7) == 0x80;
    assert Pow2(10) == 0x400;
    assert Pow2(13) == 0x2000;
    assert Pow2(16) == 0x1_0000;
    assert Pow2(19) == 0x8_0000;
    assert Pow2(22) == 0x40_0000;
    assert Pow2(25) == 0x200_0000;
    assert Pow2(28) == 0x1000_0000;
    assert Pow2(31) == 0x8000_0000;
  }

  lemma Join7(high: nat, q: nat, low: nat)
    requires high == q * 0x80 && low < 0x80
    ensures Or(high, low) == high + low
  {
    Powers();
    OrOfDisjoint(high, low, 7);
  }

  lemma Join8(high: nat, q: nat, low: nat)
    requires high == q * 0x100 && low < 0x100
    ensures Or(high, low) == high + low
  {
    Powers();
    OrOfDisjoint(high, low, 8);
  }

  lemma Join12(high: nat, q: nat, low: nat)
    requires high == q * 0x1000 && low < 0x1000
    ensures Or(high, low) == high + low
  {
    Powers();
    OrOfDisjoint(high, low, 12);
  }

  lemma Join15(high: nat, q: nat, low: nat)
    requires high == q * 0x8000 && low < 0x8000
    ensures Or(high, low) == high + low
  {
    Powers();
    OrOfDisjoint(high, low, 15);
  }

  lemma Join20(high: nat, q: nat, low: nat)
    requires high == q * 0x10_0000 && low < 0x10_0000
    ensures Or(high, low) == high + low
  {
    Powers();
    OrOfDisjoint(high, low, 20);
  }

  lemma Join21(high: nat, q: nat, low: nat)
    requires high == q * 0x20_0000 && low < 0x20_0000
    ensures Or(high, low) == high + low
  {
    Powers();
    OrOfDisjoint(high, low, 21);
  }

  lemma Join25(high: nat, q: nat, low: nat)
    requires high == q * 0x200_0000 && low < 0x200_0000
    ensures Or(high, low) == high + low
  {
    Powers();
    OrOfDisjoint(high, low, 25);
  }

  lemma Join31(high: nat, q: nat, low: nat)
    requires high == q * 0x8000_0000 && low < 0x8000_0000
    ensures Or(high, low) == high + low
  {
    Powers();
    OrOfDisjoint(high, low, 31);
  }

  lemma LayoutR(funct7: nat, rs2: nat, rs1: nat, funct3: nat, rd: nat, opcode: nat)
    requires funct7 < 0x80 && rs2 < 0x20 && rs1 < 0x20 && funct3 < 8 && rd < 0x20 && opcode < 0x80
    ensures BuildR(funct7, rs2, rs1, funct3, rd, opcode)
         == funct7 * 0x200_0000 + rs2 * 0x10_0000 + rs1 * 0x8000 + funct3 * 0x1000 + rd * 0x80 + opcode
  {
    Join25(funct7 * 0x200_0000, funct7, rs2 * 0x10_0000);
    LayoutTail(funct7 * 0x200_0000 + rs2 * 0x10_0000, funct7 * 0x20 + rs2, rs1, funct3, rd, opcode);
  }

  lemma LayoutI(imm: int, rs1: nat, funct3: nat, rd: nat, opcode: nat)
    requires rs1 < 0x20 && funct3 < 8 && rd < 0x20 && opcode < 0x80
    ensures BuildI(imm, rs1, funct3, rd, opcode)
         == imm % 0x1000 * 0x10_0000 + rs1 * 0x8000 + funct3 * 0x1000 + rd * 0x80 + opcode
  {
    LayoutTail(imm % 0x1000 * 0x10_0000, imm % 0x1000, rs1, funct3, rd, opcode);
  }

  lemma LayoutS(imm: int, rs2: nat, rs1: nat, funct3: nat, opcode: nat)
    requires rs2 < 0x20 && rs1 < 0x20 && funct3 < 8 && opcode < 0x80
    ensures BuildS(imm, rs2, rs1, funct3, opcode)
         == imm / 0x20 % 0x80 * 0x200_0000 + rs2 * 0x10_0000 + rs1 * 0x8000 + funct3 * 0x1000 + imm % 0x20 * 0x80 + opcode
  {
    LayoutR(imm / 0x20 % 0x80, rs2, rs1, funct3, imm % 0x20, opcode);
  }

  /** The low twenty bits, common to the R, I and S formats. */
  lemma LayoutTail(high: nat, q: nat, rs1: nat, funct3: nat, rd: nat, opcode: nat)
    requires high == q * 0x10_0000
    requires rs1 < 0x20 && funct3 < 8 && rd < 0x20 && opcode < 0x80
    ensures Or(Or(Or(Or(high, rs1 * 0x8000), funct3 * 0x1000), rd * 0x80), opcode)
         == high + rs1 * 0x8000 + funct3 * 0x1000 + rd * 0x80 + opcode
  {
    Join20(high, q, rs1 * 0x8000);
    Join15(high + rs1 * 0x8000, q * 0x20 + rs1, funct3 * 0x1000);
    Join12(high + rs1 * 0x8000 + funct3 * 0x1000, (q * 0x20 + rs1) * 8 + funct3, rd * 0x80);
    Join7(high + rs1 * 0x8000 + funct3 * 0x1000 + rd * 0x80, ((q * 0x20 + rs1) * 8 + funct3) * 0x20 + rd, opcode);
  }

  lemma LayoutB(imm: int, rs2: nat, rs1: nat, funct3: nat, opcode: nat)
    requires rs2 < 0x20 && rs1 < 0x20 && funct3 < 8 && opcode < 0x80
    ensures BuildB(imm, rs2, rs1, funct3, opcode)
         == imm / 0x1000 % 2 * 0x8000_0000 + imm / 0x20 % 0x40 * 0x200_0000 + rs2 * 0x10_0000 + rs1 * 0x8000
            + funct3 * 0x1000 + imm / 2 % 0x10 * 0x100 + imm / 0x800 % 2 * 0x80 + opcode
  {
    LayoutOfB(imm / 0x1000 % 2, imm / 0x20 % 0x40, rs2, rs1, funct3, imm / 2 % 0x10, imm / 0x800 % 2, opcode);
  }

  lemma LayoutOfB(i12: nat, i10to5: nat, rs2: nat, rs1: nat, funct3: nat, i4to1: nat, i11: nat, opcode: nat)
    requires i10to5 < 0x40 && rs2 < 0x20 && rs1 < 0x20 && funct3 < 8 && i4to1 < 0x10 && i11 < 2 && opcode < 0x80
    ensures Or(Or(Or(Or(Or(Or(Or(i12 * 0x8000_0000, i10to5 * 0x200_0000), rs2 * 0x10_0000), rs1 * 0x8000),
                funct3 * 0x1000), i4to1 * 0x100), i11 * 0x80), opcode)
         == i12 * 0x8000_0000 + i10to5 * 0x200_0000 + rs2 * 0x10_0000 + rs1 * 0x8000
            + funct3 * 0x1000 + i4to1 * 0x100 + i11 * 0x80 + opcode
  {
    var t, q := i12 * 0x8000_0000, i12;
    Join31(t, q, i10to5 * 0x200_0000);
    t, q := t + i10to5 * 0x200_0000, q * 0x40 + i10to5;
    Join25(t, q, rs2 * 0x10_0000);
    t, q := t + rs2 * 0x10_0000, q * 0x20 + rs2;
    Join20(t, q, rs1 * 0x8000);
    t, q := t + rs1 * 0x8000, q * 0x20 + rs1;
    Join15(t, q, funct3 * 0x1000);
    t, q := t + funct3 * 0x1000, q * 8 + funct3;
    Join12(t, q, i4to1 * 0x100);
    t, q := t + i4to1 * 0x100, q * 0x10 + i4to1;
    Join8(t, q, i11 * 0x80);
    Join7(t + i11 * 0x80, q * 2 + i11, opcode);
  }

  lemma LayoutU(imm: int, rd: nat, opcode: nat)
    requires rd < 0x20 && opcode < 0x80
    ensures BuildU(imm, rd, opcode) == imm / 0x1000 % 0x10_0000 * 0x1000 + rd * 0x80 + opcode
  {
    var top := imm / 0x1000 % 0x10_0000;
    Join12(top * 0x1000, top, rd * 0x80);
    Join7(top * 0x1000 + rd * 0x80, top * 0x20 + rd, opcode);
  }

  lemma LayoutJ(imm: int, rd: nat, opcode: nat)
    requires rd < 0x20 && opcode < 0x80
    ensures BuildJ(imm, rd, opcode)
         == imm / 0x10_0000 % 2 * 0x8000_0000 + imm / 2 % 0x400 * 0x20_0000 + imm / 0x800 % 2 * 0x10_0000
            + imm / 0x1000 % 0x100 * 0x1000 + rd * 0x80 + opcode
  {
    LayoutOfJ(imm / 0x10_0000 % 2, imm / 2 % 0x400, imm / 0x800 % 2, imm / 0x1000 % 0x100, rd, opcode);
  }

  lemma LayoutOfJ(i20: nat, i10to1: nat, i11: nat, i19to12: nat, rd: nat, opcode: nat)
    requires i10to1 < 0x400 && i11 < 2 && i19to12 < 0x100 && rd < 0x20 && opcode < 0x80
    ensures Or(Or(Or(Or(Or(i20 * 0x8000_0000, i10to1 * 0x20_0000), i11 * 0x10_0000), i19to12 * 0x1000), rd * 0x80), opcode)
         == i20 * 0x8000_0000 + i10to1 * 0x20_0000 + i11 * 0x10_0000 + i19to12 * 0x1000 + rd * 0x80 + opcode
  {
    var t, q := i20 * 0x8000_0000, i20;
    Join31(t, q, i10to1 * 0x20_0000);
    t, q := t + i10to1 * 0x20_0000, q * 0x400 + i10to1;
    Join21(t, q, i11 * 0x10_0000);
    t, q := t + i11 * 0x10_0000, q * 2 + i11;
    Join20(t, q, i19to12 * 0x1000);
    t, q := t + i19to12 * 0x1000, q * 0x100 + i19to12;
    Join12(t, q, rd * 0x80);
    Join7(t + rd * 0x80, q * 0x20 + rd, opcode);
  }
}
