/** instruction_decode.v: one combinational block over the instruction word. */
module Decode {
  import opened Words
  import opened Isa
  import opened Encoding

  datatype Format = R | I | S | B | U | J | Invalid

  const ALU_CTRL_ADD := 0
  const ALU_CTRL_NOP := 31

  datatype Decoded = Decoded(
    func3: nat,
    func7: nat,
    rs1Addr: RegIndex,
    rs2Addr: RegIndex,
    rdAddr: RegIndex,
    imm: Word,
    aluSrc1IsPc: bool,
    aluSrc2IsImm: bool,
    useMem: bool,
    isBranch: bool,
    isJump: bool,
    isJalr: bool,
    memIsWrite: bool,
    doWriteBack: bool,
    aluCtrl: nat)

  function FormatOf(opcode: nat): Format {
    if opcode == OPCODE_LOAD || opcode == OPCODE_OP_IMM || opcode == OPCODE_JALR then I
    else if opcode == OPCODE_AUIPC || opcode == OPCODE_LUI then U
    else if opcode == OPCODE_STORE then S
    else if opcode == OPCODE_OP then R
    else if opcode == OPCODE_BRANCH then B
    else if opcode == OPCODE_JAL then J
    else Invalid
  }

  /** `{n copies of bit 31, ...}`: the upper 32-k bits of an immediate whose low k bits are `low`. */
  function SignFill(w: Word, k: Word, low: nat): nat
    requires k <= 0x8000_0000
  {
    (if w / 0x8000_0000 == 1 then 0x1_0000_0000 - k else 0) + low
  }

  function Immediate(w: Word): Word {
    match FormatOf(w % 0x80)
    case R => 0
    case I => SignFill(w, 0x1000, w / 0x10_0000)
    case S => SignFill(w, 0x1000, w / 0x200_0000 * 0x20 + w / 0x80 % 0x20)
    case B => SignFill(w, 0x1000, w / 0x80 % 2 * 0x800 + w / 0x200_0000 % 0x40 * 0x20 + w / 0x100 % 0x10 * 2)
    case U => w / 0x1000 * 0x1000
    case J => SignFill(w, 0x10_0000, w / 0x1000 % 0x100 * 0x1000 + w / 0x10_0000 % 2 * 0x800 + w / 0x20_0000 % 0x400 * 2)
    case Invalid => 0
  }

  function DecodeWord(w: Word): Decoded {
    var opcode := w % 0x80;
    var format := FormatOf(opcode);
    var hasRs1 := format == R || format == I || format == S || format == B;
    var hasRs2 := format == R || format == S || format == B;
    var hasRd := format == R || format == I || format == U || format == J;
    var hasFunc3 := hasRs1;
    var func3 := if hasFunc3 then w / 0x1000 % 8 else 0;
    var hasFunc7 := format == R || (format == I && opcode == OPCODE_OP_IMM && func3 == 5);
    var func7 := if hasFunc7 then w / 0x200_0000 else 0;
    Decoded(
      func3,
      func7,
      if hasRs1 then w / 0x8000 % 0x20 else 0,
      if hasRs2 then w / 0x10_0000 % 0x20 else 0,
      if hasRd then w / 0x80 % 0x20 else 0,
      Immediate(w),
      opcode == OPCODE_AUIPC,
      format != R && format != B,
      opcode == OPCODE_LOAD || opcode == OPCODE_STORE,
      opcode == OPCODE_BRANCH,
      opcode == OPCODE_JAL || opcode == OPCODE_JALR,
      opcode == OPCODE_JALR,
      opcode == OPCODE_STORE,
      hasRd,
      if opcode == OPCODE_LOAD || opcode == OPCODE_STORE || opcode == OPCODE_LUI || opcode == OPCODE_AUIPC then
        ALU_CTRL_ADD
      else if opcode == OPCODE_OP || opcode == OPCODE_OP_IMM then
        (if func7 == F7_SUB then 8 else 0) + func3
      else if opcode == OPCODE_BRANCH then
        16 + func3
      else
        ALU_CTRL_NOP)
  }

  // ----- Round trips: what a builder packs, the decoder unpacks -----

  /** Slicing undoes the placement of six fields side by side. */
  lemma Slices(w: Word, top7: nat, mid5: nat, rs1: nat, funct3: nat, low5: nat, opcode: nat)
    requires top7 < 0x80 && mid5 < 0x20 && rs1 < 0x20 && funct3 < 8 && low5 < 0x20 && opcode < 0x80
    requires w == top7 * 0x200_0000 + mid5 * 0x10_0000 + rs1 * 0x8000 + funct3 * 0x1000 + low5 * 0x80 + opcode
    ensures w % 0x80 == opcode && w / 0x80 % 0x20 == low5 && w / 0x1000 % 8 == funct3 && w / 0x8000 % 0x20 == rs1
    ensures w / 0x10_0000 % 0x20 == mid5 && w / 0x200_0000 == top7 && w / 0x10_0000 == top7 * 0x20 + mid5
    ensures w / 0x8000_0000 == top7 / 0x40
  {
    assert w / 0x80 == top7 * 0x4_0000 + mid5 * 0x2000 + rs1 * 0x100 + funct3 * 0x20 + low5;
    assert w / 0x1000 == top7 * 0x2000 + mid5 * 0x100 + rs1 * 8 + funct3;
    assert w / 0x8000 == top7 * 0x400 + mid5 * 0x20 + rs1;
    assert w / 0x10_0000 == top7 * 0x20 + mid5;
  }

  lemma DecodesR(funct7: nat, rs2: nat, rs1: nat, funct3: nat, rd: nat, w: nat)
    requires funct7 < 0x80 && rs2 < 0x20 && rs1 < 0x20 && funct3 < 8 && rd < 0x20
    requires w == BuildR(funct7, rs2, rs1, funct3, rd, OPCODE_OP)
    ensures w < 0x1_0000_0000 && w % 0x80 == OPCODE_OP
    ensures
      var d := DecodeWord(w);
      d.func7 == funct7 && d.rs2Addr == rs2 && d.rs1Addr == rs1 && d.func3 == funct3 && d.rdAddr == rd && d.imm == 0
  {
    hide BuildR;
    LayoutR(funct7, rs2, rs1, funct3, rd, OPCODE_OP);
    Slices(w, funct7, rs2, rs1, funct3, rd, OPCODE_OP);
  }

  lemma DecodesI(imm: int, rs1: nat, funct3: nat, rd: nat, opcode: nat, w: nat)
    requires Imm12(imm) && rs1 < 0x20 && funct3 < 8 && rd < 0x20
    requires FormatOf(opcode) == I && w == BuildI(imm, rs1, funct3, rd, opcode)
    ensures w < 0x1_0000_0000 && w % 0x80 == opcode
    ensures
      var d := DecodeWord(w);
      && d.imm == Wrap(imm) && d.rs1Addr == rs1 && d.func3 == funct3 && d.rdAddr == rd && d.rs2Addr == 0
      && d.func7 == if opcode == OPCODE_OP_IMM && funct3 == 5 then imm % 0x1000 / 0x20 else 0
  {
    hide BuildI, DecodeWord, Wrap;
    LayoutI(imm, rs1, funct3, rd, opcode);
    UnpackI(imm % 0x1000, imm, rs1, funct3, rd, opcode, w);
  }

  lemma UnpackI(t: nat, imm: int, rs1: nat, funct3: nat, rd: nat, opcode: nat, w: Word)
    requires Imm12(imm) && t == (if imm < 0 then imm + 0x1000 else imm)
    requires rs1 < 0x20 && funct3 < 8 && rd < 0x20 && FormatOf(opcode) == I
    requires w == t * 0x10_0000 + rs1 * 0x8000 + funct3 * 0x1000 + rd * 0x80 + opcode
    ensures w % 0x80 == opcode
    ensures
      var d := DecodeWord(w);
      && d.imm == Wrap(imm) && d.rs1Addr == rs1 && d.func3 == funct3 && d.rdAddr == rd && d.rs2Addr == 0
      && d.func7 == if opcode == OPCODE_OP_IMM && funct3 == 5 then t / 0x20 else 0
  {
    Slices(w, t / 0x20, t % 0x20, rs1, funct3, rd, opcode);
    assert w / 0x10_0000 == t;
  }

  lemma DecodesS(imm: int, rs2: nat, rs1: nat, funct3: nat, w: nat)
    requires Imm12(imm) && rs2 < 0x20 && rs1 < 0x20 && funct3 < 8
    requires w == BuildS(imm, rs2, rs1, funct3, OPCODE_STORE)
    ensures w < 0x1_0000_0000 && w % 0x80 == OPCODE_STORE
    ensures
      var d := DecodeWord(w);
      d.imm == Wrap(imm) && d.rs2Addr == rs2 && d.rs1Addr == rs1 && d.func3 == funct3 && d.rdAddr == 0 && d.func7 == 0
  {
    hide BuildS, DecodeWord, Wrap;
    LayoutS(imm, rs2, rs1, funct3, OPCODE_STORE);
    StoreOffsetPieces(imm);
    UnpackS(imm / 0x20 % 0x80, imm % 0x20, rs2, rs1, funct3, imm, w);
  }

  lemma UnpackS(i11to5: nat, i4to0: nat, rs2: nat, rs1: nat, funct3: nat, imm: int, w: Word)
    requires i11to5 < 0x80 && i4to0 < 0x20 && rs2 < 0x20 && rs1 < 0x20 && funct3 < 8
    requires w == i11to5 * 0x200_0000 + rs2 * 0x10_0000 + rs1 * 0x8000 + funct3 * 0x1000 + i4to0 * 0x80 + OPCODE_STORE
    requires imm == i11to5 * 0x20 + i4to0 - i11to5 / 0x40 * 0x1000
    ensures w % 0x80 == OPCODE_STORE
    ensures
      var d := DecodeWord(w);
      d.imm == Wrap(imm) && d.rs2Addr == rs2 && d.rs1Addr == rs1 && d.func3 == funct3 && d.rdAddr == 0 && d.func7 == 0
  {
    Slices(w, i11to5, rs2, rs1, funct3, i4to0, OPCODE_STORE);
  }

  lemma StoreOffsetPieces(imm: int)
    requires Imm12(imm)
    ensures imm == imm / 0x20 % 0x80 * 0x20 + imm % 0x20 - imm / 0x20 % 0x80 / 0x40 * 0x1000
  {
  }

  lemma DecodesB(imm: int, rs2: nat, rs1: nat, funct3: nat, w: nat)
    requires -4096 <= imm < 4096 && imm % 2 == 0 && rs2 < 0x20 && rs1 < 0x20 && funct3 < 8
    requires w == BuildB(imm, rs2, rs1, funct3, OPCODE_BRANCH)
    ensures w < 0x1_0000_0000 && w % 0x80 == OPCODE_BRANCH
    ensures
      var d := DecodeWord(w);
      d.imm == Wrap(imm) && d.rs2Addr == rs2 && d.rs1Addr == rs1 && d.func3 == funct3 && d.rdAddr == 0 && d.func7 == 0
  {
    hide BuildB, DecodeWord, Wrap;
    LayoutB(imm, rs2, rs1, funct3, OPCODE_BRANCH);
    BranchOffsetPieces(imm);
    UnpackB(imm / 0x1000 % 2, imm / 0x800 % 2, imm / 0x20 % 0x40, imm / 2 % 0x10, rs2, rs1, funct3, imm, w);
  }

  lemma UnpackB(i12: nat, i11: nat, i10to5: nat, i4to1: nat, rs2: nat, rs1: nat, funct3: nat, imm: int, w: Word)
    requires i12 < 2 && i11 < 2 && i10to5 < 0x40 && i4to1 < 0x10 && rs2 < 0x20 && rs1 < 0x20 && funct3 < 8
    requires w == i12 * 0x8000_0000 + i10to5 * 0x200_0000 + rs2 * 0x10_0000 + rs1 * 0x8000
                  + funct3 * 0x1000 + i4to1 * 0x100 + i11 * 0x80 + OPCODE_BRANCH
    requires imm == i11 * 0x800 + i10to5 * 0x20 + i4to1 * 2 - i12 * 0x1000
    ensures w % 0x80 == OPCODE_BRANCH
    ensures
      var d := DecodeWord(w);
      d.imm == Wrap(imm) && d.rs2Addr == rs2 && d.rs1Addr == rs1 && d.func3 == funct3 && d.rdAddr == 0 && d.func7 == 0
  {
    SlicesB(i12, i11, i10to5, i4to1, rs2, rs1, funct3, w);
  }

  lemma SlicesB(i12: nat, i11: nat, i10to5: nat, i4to1: nat, rs2: nat, rs1: nat, funct3: nat, w: Word)
    requires i12 < 2 && i11 < 2 && i10to5 < 0x40 && i4to1 < 0x10 && rs2 < 0x20 && rs1 < 0x20 && funct3 < 8
    requires w == i12 * 0x8000_0000 + i10to5 * 0x200_0000 + rs2 * 0x10_0000 + rs1 * 0x8000
                  + funct3 * 0x1000 + i4to1 * 0x100 + i11 * 0x80 + OPCODE_BRANCH
    ensures w % 0x80 == OPCODE_BRANCH && w / 0x1000 % 8 == funct3 && w / 0x8000 % 0x20 == rs1 && w / 0x10_0000 % 0x20 == rs2
    ensures w / 0x80 % 2 == i11 && w / 0x100 % 0x10 == i4to1 && w / 0x200_0000 % 0x40 == i10to5 && w / 0x8000_0000 == i12
  {
    var top := i12 * 0x40 + i10to5;
    assert top / 0x40 == i12 && top % 0x40 == i10to5;
    Slices(w, top, rs2, rs1, funct3, i4to1 * 2 + i11, OPCODE_BRANCH);
    HighBits(w, top, rs2, rs1, funct3, i4to1 * 2 + i11, OPCODE_BRANCH);
    LowBitsOfB(w, w / 0x1000, i4to1, i11);
  }

  lemma HighBits(w: Word, top7: nat, mid5: nat, rs1: nat, funct3: nat, low5: nat, opcode: nat)
    requires top7 < 0x80 && mid5 < 0x20 && rs1 < 0x20 && funct3 < 8 && low5 < 0x20 && opcode < 0x80
    requires w == top7 * 0x200_0000 + mid5 * 0x10_0000 + rs1 * 0x8000 + funct3 * 0x1000 + low5 * 0x80 + opcode
    ensures w / 0x1000 == ((top7 * 0x20 + mid5) * 0x20 + rs1) * 8 + funct3
    ensures w == w / 0x1000 * 0x1000 + low5 * 0x80 + opcode
  {
  }

  lemma LowBitsOfB(w: Word, q: nat, i4to1: nat, i11: nat)
    requires i4to1 < 0x10 && i11 < 2
    requires w == q * 0x1000 + i4to1 * 0x100 + i11 * 0x80 + OPCODE_BRANCH
    ensures w / 0x80 % 2 == i11 && w / 0x100 % 0x10 == i4to1
  {
    assert w / 0x80 == q * 0x20 + i4to1 * 2 + i11;
    assert w / 0x100 == q * 0x10 + i4to1;
  }

  lemma BranchOffsetPieces(imm: int)
    requires -4096 <= imm < 4096 && imm % 2 == 0
    ensures imm == imm / 0x800 % 2 * 0x800 + imm / 0x20 % 0x40 * 0x20 + imm / 2 % 0x10 * 2 - imm / 0x1000 % 2 * 0x1000
  {
    assert imm / 0x20 == imm / 2 / 0x10;
    assert imm / 0x800 == imm / 0x20 / 0x40;
    assert imm / 0x1000 == imm / 0x800 / 2;
  }

  /** `& 0xFFFFF000` of any Python integer, cut to 32 bits. */
  lemma UpperBits(imm: int, q: int, off: int, p: int, t: int)
    requires imm == q * 0x1000 + off && 0 <= off < 0x1000 && q == p * 0x10_0000 + t && 0 <= t < 0x10_0000
    ensures Wrap(imm) - Wrap(imm) % 0x1000 == t * 0x1000
  {
    QuotientUnique(imm, p, t * 0x1000 + off, 0x1_0000_0000);
    QuotientUnique(t * 0x1000 + off, t, off, 0x1000);
  }

  lemma DecodesU(imm: int, rd: nat, opcode: nat, w: nat)
    requires rd < 0x20 && FormatOf(opcode) == U
    requires w == BuildU(imm, rd, opcode)
    ensures w < 0x1_0000_0000 && w % 0x80 == opcode
    ensures
      var d := DecodeWord(w);
      && d.imm == Wrap(imm) - Wrap(imm) % 0x1000
      && d.rdAddr == rd && d.rs1Addr == 0 && d.rs2Addr == 0 && d.func3 == 0 && d.func7 == 0
  {
    hide BuildU, DecodeWord, Wrap;
    var q := imm / 0x1000;
    LayoutU(imm, rd, opcode);
    UpperBits(imm, q, imm % 0x1000, q / 0x10_0000, q % 0x10_0000);
    UnpackU(q % 0x10_0000, rd, opcode, w);
  }

  lemma UnpackU(top: nat, rd: nat, opcode: nat, w: Word)
    requires top < 0x10_0000 && rd < 0x20 && FormatOf(opcode) == U
    requires w == top * 0x1000 + rd * 0x80 + opcode
    ensures w % 0x80 == opcode
    ensures
      var d := DecodeWord(w);
      d.imm == top * 0x1000 && d.rdAddr == rd && d.rs1Addr == 0 && d.rs2Addr == 0 && d.func3 == 0 && d.func7 == 0
  {
    SlicesU(top, rd, opcode, w);
  }

  lemma SlicesU(top: nat, rd: nat, opcode: nat, w: Word)
    requires rd < 0x20 && opcode < 0x80 && w == top * 0x1000 + rd * 0x80 + opcode
    ensures w % 0x80 == opcode && w / 0x80 % 0x20 == rd && w / 0x1000 == top
  {
    assert w / 0x80 == top * 0x20 + rd;
  }

  lemma DecodesJ(imm: int, rd: nat, w: nat)
    requires -0x10_0000 <= imm < 0x10_0000 && imm % 2 == 0 && rd < 0x20
    requires w == BuildJ(imm, rd, OPCODE_JAL)
    ensures w < 0x1_0000_0000 && w % 0x80 == OPCODE_JAL
    ensures
      var d := DecodeWord(w);
      d.imm == Wrap(imm) && d.rdAddr == rd && d.rs1Addr == 0 && d.rs2Addr == 0 && d.func3 == 0 && d.func7 == 0
  {
    hide BuildJ, DecodeWord, Wrap;
    LayoutJ(imm, rd, OPCODE_JAL);
    JumpOffsetPieces(imm);
    UnpackJ(imm / 0x10_0000 % 2, imm / 0x1000 % 0x100, imm / 0x800 % 2, imm / 2 % 0x400, rd, imm, w);
  }

  lemma UnpackJ(i20: nat, i19to12: nat, i11: nat, i10to1: nat, rd: nat, imm: int, w: Word)
    requires i20 < 2 && i19to12 < 0x100 && i11 < 2 && i10to1 < 0x400 && rd < 0x20
    requires w == i20 * 0x8000_0000 + i10to1 * 0x20_0000 + i11 * 0x10_0000 + i19to12 * 0x1000 + rd * 0x80 + OPCODE_JAL
    requires imm == i19to12 * 0x1000 + i11 * 0x800 + i10to1 * 2 - i20 * 0x10_0000
    ensures w % 0x80 == OPCODE_JAL
    ensures
      var d := DecodeWord(w);
      d.imm == Wrap(imm) && d.rdAddr == rd && d.rs1Addr == 0 && d.rs2Addr == 0 && d.func3 == 0 && d.func7 == 0
  {
    SlicesJ(i20, i19to12, i11, i10to1, rd, w);
  }

  lemma SlicesJ(i20: nat, i19to12: nat, i11: nat, i10to1: nat, rd: nat, w: Word)
    requires i20 < 2 && i19to12 < 0x100 && i11 < 2 && i10to1 < 0x400 && rd < 0x20
    requires w == i20 * 0x8000_0000 + i10to1 * 0x20_0000 + i11 * 0x10_0000 + i19to12 * 0x1000 + rd * 0x80 + OPCODE_JAL
    ensures w % 0x80 == OPCODE_JAL && w / 0x80 % 0x20 == rd && w / 0x1000 % 0x100 == i19to12
    ensures w / 0x10_0000 % 2 == i11 && w / 0x20_0000 % 0x400 == i10to1 && w / 0x8000_0000 == i20
  {
    var high := i20 * 0x800 + i10to1 * 2 + i11;
    LowFields(w, high * 0x100 + i19to12, rd, OPCODE_JAL);
    HighFields(high * 0x100 + i19to12, high, i19to12);
    assert w / 0x10_0000 == high;
    JumpTop(high, i20, i10to1, i11);
  }

  lemma LowFields(w: nat, q: nat, rd: nat, opcode: nat)
    requires rd < 0x20 && opcode < 0x80 && w == q * 0x1000 + rd * 0x80 + opcode
    ensures w % 0x80 == opcode && w / 0x80 % 0x20 == rd && w / 0x1000 == q && w / 0x10_0000 == q / 0x100
    ensures w / 0x20_0000 == q / 0x100 / 2 && w / 0x8000_0000 == q / 0x100 / 0x800
  {
    assert w / 0x80 == q * 0x20 + rd;
  }

  lemma HighFields(q: nat, high: nat, low: nat)
    requires low < 0x100 && q == high * 0x100 + low
    ensures q / 0x100 == high && q % 0x100 == low
  {
  }

  lemma JumpTop(high: nat, i20: nat, i10to1: nat, i11: nat)
    requires i20 < 2 && i10to1 < 0x400 && i11 < 2 && high == i20 * 0x800 + i10to1 * 2 + i11
    ensures high % 2 == i11 && high / 2 % 0x400 == i10to1 && high / 0x800 == i20
  {
    assert high / 2 == i20 * 0x400 + i10to1;
  }

  lemma JumpOffsetPieces(imm: int)
    requires -0x10_0000 <= imm < 0x10_0000 && imm % 2 == 0
    ensures imm == imm / 0x1000 % 0x100 * 0x1000 + imm / 0x800 % 2 * 0x800 + imm / 2 % 0x400 * 2 - imm / 0x10_0000 % 2 * 0x10_0000
  {
    assert imm / 0x800 == imm / 2 / 0x400;
    assert imm / 0x1000 == imm / 0x800 / 2;
    assert imm / 0x10_0000 == imm / 0x1000 / 0x100;
  }
}
