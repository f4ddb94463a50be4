/**
 * The reference instruction set: the table of riscv.md read with the meaning of
 * chapter 2 of the RISC-V Unprivileged ISA, over abstract instructions, signed
 * integers and a byte-addressed memory.  Nothing here mentions bit positions.
 */
module Isa {
  import opened Words

  // ----- Architectural state -----

  /** Registers x1 to x31; x0 is not stored. */
  type Regs = r: seq<Word> | |r| == 31 witness seq(31, _ => 0)

  const ZERO_REGS: Regs := [
    0, 0, 0, 0, 0, 0, 0, 0, 0, 0, 0, 0, 0, 0, 0, 0,
    0, 0, 0, 0, 0, 0, 0, 0, 0, 0, 0, 0, 0, 0, 0]

  function ReadReg(regs: Regs, i: RegIndex): Word {
    if i == 0 then 0 else regs[i - 1]
  }

  function WriteReg(regs: Regs, i: RegIndex, v: Word): Regs {
    if i == 0 then regs else regs[i - 1 := v]
  }

  /** Byte-addressed memory; an address never written holds 0. */
  type Memory = map<int, Byte>

  function ByteAt(m: Memory, a: int): Byte {
    if a in m then m[a] else 0
  }

  datatype Arch = Arch(pc: Word, regs: Regs, mem: Memory)

  // ----- Instructions -----

  datatype AluOp = ADD | SUB | SLL | SLT | SLTU | XOR | SRL | SRA | OR | AND
  datatype Cond = EQ | NE | LT | GE | LTU | GEU
  datatype Width = BYTE | HALF | WORD

  datatype Instr =
    | Op(op: AluOp, rd: RegIndex, rs1: RegIndex, rs2: RegIndex)
    | OpImm(op: AluOp, rd: RegIndex, rs1: RegIndex, imm: int)
    | Lui(rd: RegIndex, imm: int)
    | Auipc(rd: RegIndex, imm: int)
    | Jal(rd: RegIndex, imm: int)
    | Jalr(rd: RegIndex, rs1: RegIndex, imm: int)
    | Branch(cond: Cond, rs1: RegIndex, rs2: RegIndex, imm: int)
    | Load(width: Width, unsigned: bool, rd: RegIndex, rs1: RegIndex, imm: int)
    | Store(width: Width, rs2: RegIndex, rs1: RegIndex, imm: int)

  predicate Imm12(v: int) {
    -2048 <= v < 2048
  }

  /** The operands that RV32I can express. */
  predicate Legal(i: Instr) {
    match i
    case Op(_, _, _, _) => true
    case OpImm(op, _, _, imm) =>
      op != SUB && (if op == SLL || op == SRL || op == SRA then 0 <= imm < 32 else Imm12(imm))
    case Lui(_, imm) => 0 <= imm < 0x1_0000_0000 && imm % 4096 == 0
    case Auipc(_, imm) => 0 <= imm < 0x1_0000_0000 && imm % 4096 == 0
    case Jal(_, imm) => -0x10_0000 <= imm < 0x10_0000 && imm % 2 == 0
    case Jalr(_, _, imm) => Imm12(imm)
    case Branch(_, _, _, imm) => -4096 <= imm < 4096 && imm % 2 == 0
    case Load(width, unsigned, _, _, imm) => Imm12(imm) && (unsigned ==> width != WORD)
    case Store(_, _, _, imm) => Imm12(imm)
  }

  // ----- Meaning -----

  function AluMeaning(op: AluOp, a: Word, b: Word): Word {
    match op
    case ADD => Wrap(Signed(a) + Signed(b))
    case SUB => Wrap(Signed(a) - Signed(b))
    case SLL => Wrap(a * Pow2(b % 32))
    case SLT => Flag(Signed(a) < Signed(b))
    case SLTU => Flag(a < b)
    case XOR => XorW(a, b)
    case SRL => Wrap(a / Pow2(b % 32))
    case SRA => Wrap(Signed(a) / Pow2(b % 32))
    case OR => OrW(a, b)
    case AND => AndW(a, b)
  }

  predicate CondMeaning(c: Cond, a: Word, b: Word) {
    match c
    case EQ => a == b
    case NE => a != b
    case LT => Signed(a) < Signed(b)
    case GE => Signed(a) >= Signed(b)
    case LTU => a < b
    case GEU => a >= b
  }

  function Bytes(w: Width): nat {
    match w
    case BYTE => 1
    case HALF => 2
    case WORD => 4
  }

  predicate Aligned(w: Width, a: Word) {
    match w
    case BYTE => true
    case HALF => a % 2 == 0
    case WORD => a % 4 == 0
  }

  /** The little-endian value of the bytes at an aligned address. */
  function LoadBytes(m: Memory, w: Width, a: Word): Word
    requires Aligned(w, a)
  {
    match w
    case BYTE => ByteAt(m, a)
    case HALF => ByteAt(m, a) + 0x100 * ByteAt(m, a + 1)
    case WORD => ByteAt(m, a) + 0x100 * ByteAt(m, a + 1) + 0x1_0000 * ByteAt(m, a + 2) + 0x100_0000 * ByteAt(m, a + 3)
  }

  function StoreBytes(m: Memory, w: Width, a: Word, v: Word): Memory
    requires Aligned(w, a)
  {
    match w
    case BYTE => m[a := v % 0x100]
    case HALF => m[a := v % 0x100][a + 1 := v / 0x100 % 0x100]
    case WORD => m[a := v % 0x100][a + 1 := v / 0x100 % 0x100][a + 2 := v / 0x1_0000 % 0x100][a + 3 := v / 0x100_0000]
  }

  /** A loaded value of fewer than 32 bits, zero- or sign-extended. */
  function Extend(w: Width, unsigned: bool, v: Word): Word {
    match w
    case BYTE => if unsigned || v < 0x80 then v else Wrap(v - 0x100)
    case HALF => if unsigned || v < 0x8000 then v else Wrap(v - 0x1_0000)
    case WORD => v
  }

  function Address(a: Arch, base: RegIndex, imm: int): Word {
    Wrap(Signed(ReadReg(a.regs, base)) + imm)
  }

  /** A load must be naturally aligned; nothing is promised otherwise. */
  predicate Runs(i: Instr, a: Arch) {
    i.Load? ==> Aligned(i.width, Address(a, i.rs1, i.imm))
  }

  /**
   * One instruction.  As in this core, JALR keeps bit 0 of its target and a
   * misaligned store writes nothing.
   */
  function Execute(i: Instr, a: Arch): Arch
    requires Runs(i, a)
  {
    var next := Plus4(a.pc);
    match i
    case Op(op, rd, rs1, rs2) =>
      Arch(next, WriteReg(a.regs, rd, AluMeaning(op, ReadReg(a.regs, rs1), ReadReg(a.regs, rs2))), a.mem)
    case OpImm(op, rd, rs1, imm) =>
      Arch(next, WriteReg(a.regs, rd, AluMeaning(op, ReadReg(a.regs, rs1), Wrap(imm))), a.mem)
    case Lui(rd, imm) =>
      Arch(next, WriteReg(a.regs, rd, Wrap(imm)), a.mem)
    case Auipc(rd, imm) =>
      Arch(next, WriteReg(a.regs, rd, Wrap(a.pc + imm)), a.mem)
    case Jal(rd, imm) =>
      Arch(Wrap(a.pc + imm), WriteReg(a.regs, rd, next), a.mem)
    case Jalr(rd, rs1, imm) =>
      Arch(Wrap(ReadReg(a.regs, rs1) + imm), WriteReg(a.regs, rd, next), a.mem)
    case Branch(cond, rs1, rs2, imm) =>
      if CondMeaning(cond, ReadReg(a.regs, rs1), ReadReg(a.regs, rs2)) then
        Arch(Wrap(a.pc + imm), a.regs, a.mem)
      else
        Arch(next, a.regs, a.mem)
    case Load(width, unsigned, rd, rs1, imm) =>
      var v := LoadBytes(a.mem, width, Address(a, rs1, imm));
      Arch(next, WriteReg(a.regs, rd, Extend(width, unsigned, v)), a.mem)
    case Store(width, rs2, rs1, imm) =>
      var addr := Address(a, rs1, imm);
      if Aligned(width, addr) then
        Arch(next, a.regs, StoreBytes(a.mem, width, addr, ReadReg(a.regs, rs2)))
      else
        Arch(next, a.regs, a.mem)
  }

  /** An instruction outside the nine supported opcodes is passed over. */
  function Skip(a: Arch): Arch {
    a.(pc := Plus4(a.pc))
  }
}
