/**
 * The combinational blocks compute the reference meaning of every legal
 * instruction from its encoding.
 */
module Datapath {
  import opened Words
  import opened Isa
  import opened Encoding
  import opened Decode
  import opened Alu
  import opened ByteLanes
  import opened Core

  // ----- Control signals of each encoded instruction -----

  predicate Plain(d: Decoded) {
    !d.useMem && !d.memIsWrite && !d.isBranch && !d.isJump && !d.isJalr && d.doWriteBack
  }

  lemma OpControls(i: Instr, w: nat)
    requires Legal(i) && i.Op? && w == Encode(i)
    ensures w < 0x1_0000_0000
    ensures
      var d := DecodeWord(w);
      && Plain(d) && !d.aluSrc1IsPc && !d.aluSrc2IsImm && d.aluCtrl == OpCtrl(i.op)
      && d.rdAddr == i.rd && d.rs1Addr == i.rs1 && d.rs2Addr == i.rs2
  {
    hide BuildR, Immediate;
    DecodesR(AluFunct7(i.op), i.rs2, i.rs1, AluFunct3(i.op), i.rd, w);
  }

  lemma OpImmControls(i: Instr, w: nat)
    requires Legal(i) && i.OpImm? && w == Encode(i)
    ensures w < 0x1_0000_0000
    ensures
      var d := DecodeWord(w);
      && Plain(d) && !d.aluSrc1IsPc && d.aluSrc2IsImm && d.aluCtrl == OpCtrl(i.op)
      && d.rdAddr == i.rd && d.rs1Addr == i.rs1 && d.imm == Wrap(AluFunct7(i.op) * 0x20 + i.imm)
  {
    hide BuildI, DecodeWord, Wrap, OpCtrl;
    var imm := AluFunct7(i.op) * 0x20 + i.imm;
    ImmediateFunct7(i.op, i.imm, imm);
    DecodesI(imm, i.rs1, AluFunct3(i.op), i.rd, OPCODE_OP_IMM, w);
    CtrlOfOpImm(i.op, w);
  }

  lemma CtrlOfOpImm(op: AluOp, w: Word)
    requires op != SUB && w % 0x80 == OPCODE_OP_IMM && DecodeWord(w).func3 == AluFunct3(op)
    requires DecodeWord(w).func7 == if AluFunct3(op) == 5 then AluFunct7(op) else 0
    ensures
      var d := DecodeWord(w);
      Plain(d) && !d.aluSrc1IsPc && d.aluSrc2IsImm && d.aluCtrl == OpCtrl(op)
  {
  }

  lemma ImmediateFunct7(op: AluOp, v: int, imm: int)
    requires op != SUB && (if op == SLL || op == SRL || op == SRA then 0 <= v < 32 else Imm12(v))
    requires imm == AluFunct7(op) * 0x20 + v
    ensures Imm12(imm) && (AluFunct3(op) == 5 ==> imm % 0x1000 / 0x20 == AluFunct7(op))
  {
  }

  lemma UpperControls(i: Instr, w: nat)
    requires Legal(i) && (i.Lui? || i.Auipc?) && w == Encode(i)
    ensures w < 0x1_0000_0000
    ensures
      var d := DecodeWord(w);
      && Plain(d) && d.aluSrc1IsPc == i.Auipc? && d.aluSrc2IsImm && d.aluCtrl == ALU_CTRL_ADD
      && d.rdAddr == i.rd && d.rs1Addr == 0 && d.imm == i.imm
  {
    hide BuildU, Immediate;
    DecodesU(i.imm, i.rd, if i.Lui? then OPCODE_LUI else OPCODE_AUIPC, w);
  }

  lemma JumpControls(i: Instr, w: nat)
    requires Legal(i) && (i.Jal? || i.Jalr?) && w == Encode(i)
    ensures w < 0x1_0000_0000
    ensures
      var d := DecodeWord(w);
      && d.isJump && d.isJalr == i.Jalr? && !d.useMem && !d.memIsWrite && d.doWriteBack
      && d.rdAddr == i.rd && d.imm == Wrap(i.imm) && (i.Jalr? ==> d.rs1Addr == i.rs1)
  {
    hide BuildI, BuildJ, Immediate, Wrap;
    if i.Jal? {
      DecodesJ(i.imm, i.rd, w);
    } else {
      DecodesI(i.imm, i.rs1, 0, i.rd, OPCODE_JALR, w);
    }
  }

  lemma BranchControls(i: Instr, w: nat)
    requires Legal(i) && i.Branch? && w == Encode(i)
    ensures w < 0x1_0000_0000
    ensures
      var d := DecodeWord(w);
      && d.isBranch && !d.isJump && !d.useMem && !d.memIsWrite && !d.doWriteBack
      && !d.aluSrc1IsPc && !d.aluSrc2IsImm && d.aluCtrl == 16 + CondFunct3(i.cond)
      && d.rs1Addr == i.rs1 && d.rs2Addr == i.rs2 && d.imm == Wrap(i.imm)
  {
    hide BuildB, Immediate, Wrap;
    DecodesB(i.imm, i.rs2, i.rs1, CondFunct3(i.cond), w);
  }

  lemma MemControls(i: Instr, w: nat)
    requires Legal(i) && (i.Load? || i.Store?) && w == Encode(i)
    ensures w < 0x1_0000_0000
    ensures
      var d := DecodeWord(w);
      && d.useMem && d.memIsWrite == i.Store? && !d.isJump && d.doWriteBack == i.Load?
      && !d.aluSrc1IsPc && d.aluSrc2IsImm && d.aluCtrl == ALU_CTRL_ADD
      && d.rs1Addr == i.rs1 && d.imm == Wrap(i.imm)
      && d.func3 == WidthFunct3(i.width, i.Load? && i.unsigned)
      && (i.Load? ==> d.rdAddr == i.rd) && (i.Store? ==> d.rs2Addr == i.rs2)
  {
    hide BuildI, BuildS, Immediate, Wrap;
    if i.Load? {
      DecodesI(i.imm, i.rs1, WidthFunct3(i.width, i.unsigned), i.rd, OPCODE_LOAD, w);
    } else {
      DecodesS(i.imm, i.rs2, i.rs1, WidthFunct3(i.width, false), w);
    }
  }

  // ----- Results of each encoded instruction -----

  /** The architectural effect of a NEXT_PC transaction with these wires. */
  function Retired(w: Wires, a: Arch): Arch {
    Arch(w.nextPc, if w.d.doWriteBack then WriteReg(a.regs, w.d.rdAddr, w.writeBackData) else a.regs, a.mem)
  }

  /** The wires of instruction word `w` in state `a`. */
  function WiresIn(w: Word, a: Arch, loadData: Word, held: Held): Wires {
    Combinational(w, a.pc, a.regs, loadData, held)
  }

  function Settled(d: Decoded, a: Arch, loadData: Word, held: Held): Wires {
    Assemble(d, ReadReg(a.regs, d.rs1Addr), ReadReg(a.regs, d.rs2Addr),
             AluOutput(d, ReadReg(a.regs, d.rs1Addr), ReadReg(a.regs, d.rs2Addr), a.pc), a.pc, loadData, held)
  }

  lemma WrapSum(x: Word, imm: int)
    ensures Wrap(x + Wrap(imm)) == Wrap(x + imm) == Wrap(Signed(x) + imm)
    ensures Wrap(Wrap(imm) + x) == Wrap(x + imm)
  {
    SumModulo(x, imm);
  }

  lemma SumModulo(x: int, imm: int)
    ensures (x + imm % 0x1_0000_0000) % 0x1_0000_0000 == (x + imm) % 0x1_0000_0000
    ensures (x - 0x1_0000_0000 + imm) % 0x1_0000_0000 == (x + imm) % 0x1_0000_0000
  {
  }

  /** x's results are the multiplexer's selection for this ALU result and load value. */
  ghost predicate Selects(x: Wires, d: Decoded, rs1: Word, pc: Word, alu: Word, memWb: Word) {
    && x.d == d
    && x.nextPc == NextPc(d, rs1, pc, alu)
    && x.writeBackData == WriteBackMux(d, pc, alu, memWb)
  }

  lemma SettledSelects(d: Decoded, a: Arch, loadData: Word, held: Held, x: Wires, alu: Word, memWb: Word)
    requires x == Settled(d, a, loadData, held)
    requires alu == AluOutput(d, ReadReg(a.regs, d.rs1Addr), ReadReg(a.regs, d.rs2Addr), a.pc)
    requires memWb == WriteBackData(loadData, d.func3, ByteEnable(alu, d.func3), held.load)
    ensures Selects(x, d, ReadReg(a.regs, d.rs1Addr), a.pc, alu, memWb)
    ensures x.memAddr == MemAddr(d, ReadReg(a.regs, d.rs1Addr)) && x.strobe == ByteEnable(alu, d.func3)
    ensures x.storeData == StoreData(alu, d.func3, ReadReg(a.regs, d.rs2Addr), held.store)
  {
    hide AluOutput, WriteBackData, ByteEnable, StoreData, MemAddr, NextPc, WriteBackMux, ReadReg;
  }

  lemma PlainRetires(d: Decoded, a: Arch, x: Wires, rs1: Word, alu: Word, memWb: Word)
    requires Plain(d) && Selects(x, d, rs1, a.pc, alu, memWb)
    ensures Retired(x, a) == Arch(Plus4(a.pc), WriteReg(a.regs, d.rdAddr, alu), a.mem)
  {
  }

  lemma OpExecutes(i: Instr, d: Decoded, a: Arch, x: Wires, alu: Word, memWb: Word)
    requires i.Op? && Plain(d) && d.rdAddr == i.rd
    requires alu == AluResult(OpCtrl(i.op), ReadReg(a.regs, i.rs1), ReadReg(a.regs, i.rs2))
    requires Selects(x, d, ReadReg(a.regs, d.rs1Addr), a.pc, alu, memWb)
    ensures Retired(x, a) == Execute(i, a)
  {
    AluComputesOp(i.op, ReadReg(a.regs, i.rs1), ReadReg(a.regs, i.rs2));
    PlainRetires(d, a, x, ReadReg(a.regs, d.rs1Addr), alu, memWb);
  }

  lemma OpImmExecutes(i: Instr, d: Decoded, a: Arch, x: Wires, alu: Word, memWb: Word)
    requires Legal(i) && i.OpImm? && Plain(d) && d.rdAddr == i.rd && d.imm == Wrap(AluFunct7(i.op) * 0x20 + i.imm)
    requires alu == AluResult(OpCtrl(i.op), ReadReg(a.regs, i.rs1), d.imm)
    requires Selects(x, d, ReadReg(a.regs, d.rs1Addr), a.pc, alu, memWb)
    ensures Retired(x, a) == Execute(i, a)
  {
    var rs1 := ReadReg(a.regs, i.rs1);
    AluComputesOp(i.op, rs1, d.imm);
    ImmediateOperand(i.op, i.imm, d.imm, Wrap(i.imm));
    ShiftAmountOnly(i.op, rs1, d.imm, Wrap(i.imm));
    PlainRetires(d, a, x, ReadReg(a.regs, d.rs1Addr), alu, memWb);
    OpImmMeans(i, a, alu);
  }

  lemma OpImmMeans(i: Instr, a: Arch, v: Word)
    requires i.OpImm? && v == AluMeaning(i.op, ReadReg(a.regs, i.rs1), Wrap(i.imm))
    ensures Execute(i, a) == Arch(Plus4(a.pc), WriteReg(a.regs, i.rd, v), a.mem)
  {
  }

  lemma ImmediateOperand(op: AluOp, v: int, y: Word, z: Word)
    requires op != SUB && (op == SRA ==> 0 <= v < 32)
    requires y == Wrap(AluFunct7(op) * 0x20 + v) && z == Wrap(v)
    ensures y == z || (op == SRA && y % 0x20 == z % 0x20)
  {
    if op == SRA {
      assert y == 0x400 + v;
    }
  }

  /** SRAI carries its marker in immediate bits the shifter does not read. */
  lemma ShiftAmountOnly(op: AluOp, x: Word, y: Word, z: Word)
    requires y == z || (op == SRA && y % 0x20 == z % 0x20)
    ensures AluMeaning(op, x, y) == AluMeaning(op, x, z)
  {
  }

  lemma UpperExecutes(i: Instr, d: Decoded, a: Arch, x: Wires, alu: Word, memWb: Word)
    requires Legal(i) && (i.Lui? || i.Auipc?) && Plain(d) && d.rdAddr == i.rd && d.imm == i.imm
    requires alu == AluResult(ALU_CTRL_ADD, if i.Auipc? then a.pc else 0, d.imm)
    requires Selects(x, d, ReadReg(a.regs, d.rs1Addr), a.pc, alu, memWb)
    ensures Retired(x, a) == Execute(i, a)
  {
    AdderOnly(if i.Auipc? then a.pc else 0, i.imm);
    PlainRetires(d, a, x, ReadReg(a.regs, d.rs1Addr), alu, memWb);
  }

  lemma AdderOnly(x: Word, y: Word)
    ensures AluResult(ALU_CTRL_ADD, x, y) == Wrap(x + y)
  {
  }

  lemma JumpExecutes(i: Instr, d: Decoded, a: Arch, x: Wires, alu: Word, memWb: Word)
    requires Legal(i) && (i.Jal? || i.Jalr?) && d.isJump && d.isJalr == i.Jalr? && d.doWriteBack
    requires d.rdAddr == i.rd && d.imm == Wrap(i.imm) && (i.Jalr? ==> d.rs1Addr == i.rs1)
    requires Selects(x, d, ReadReg(a.regs, d.rs1Addr), a.pc, alu, memWb)
    ensures Retired(x, a) == Execute(i, a)
  {
    JumpMeans(i, a, d.imm, if i.Jalr? then ReadReg(a.regs, i.rs1) else a.pc);
    assert x.nextPc == JumpTarget(d, ReadReg(a.regs, d.rs1Addr), a.pc);
  }

  lemma JumpMeans(i: Instr, a: Arch, imm: Word, base: Word)
    requires (i.Jal? && base == a.pc) || (i.Jalr? && base == ReadReg(a.regs, i.rs1))
    requires imm == Wrap(i.imm)
    ensures Execute(i, a) == Arch(Wrap(base + imm), WriteReg(a.regs, i.rd, Plus4(a.pc)), a.mem)
  {
    WrapSum(base, i.imm);
  }

  lemma BranchExecutes(i: Instr, d: Decoded, a: Arch, x: Wires, alu: Word, memWb: Word)
    requires Legal(i) && i.Branch? && d.isBranch && !d.isJump && !d.useMem && !d.doWriteBack && d.imm == Wrap(i.imm)
    requires alu == AluResult(16 + CondFunct3(i.cond), ReadReg(a.regs, i.rs1), ReadReg(a.regs, i.rs2))
    requires Selects(x, d, ReadReg(a.regs, d.rs1Addr), a.pc, alu, memWb)
    ensures Retired(x, a) == Execute(i, a)
  {
    AluDecidesBranch(i.cond, ReadReg(a.regs, i.rs1), ReadReg(a.regs, i.rs2));
    BranchMeans(i, a, d.imm, TakeBranch(alu));
  }

  lemma BranchMeans(i: Instr, a: Arch, imm: Word, taken: bool)
    requires i.Branch? && taken == CondMeaning(i.cond, ReadReg(a.regs, i.rs1), ReadReg(a.regs, i.rs2)) && imm == Wrap(i.imm)
    ensures Execute(i, a) == Arch(if taken then Wrap(a.pc + imm) else Plus4(a.pc), a.regs, a.mem)
  {
    WrapSum(a.pc, i.imm);
  }

  /** The load/store decoder and the address adder see the effective address. */
  lemma MemWires(i: Instr, d: Decoded, a: Arch, loadData: Word, held: Held, x: Wires, addr: Word)
    requires (i.Load? || i.Store?) && d.useMem && d.memIsWrite == i.Store? && !d.isJump
    requires !d.aluSrc1IsPc && d.aluSrc2IsImm && d.aluCtrl == ALU_CTRL_ADD
    requires d.rs1Addr == i.rs1 && d.imm == Wrap(i.imm)
    requires x == Settled(d, a, loadData, held) && addr == Address(a, i.rs1, i.imm)
    ensures x.d == d && x.strobe == ByteEnable(addr, d.func3) && x.nextPc == Plus4(a.pc)
    ensures x.memAddr == if i.Store? then Base(addr) else addr
    ensures x.storeData == StoreData(addr, d.func3, ReadReg(a.regs, d.rs2Addr), held.store)
    ensures x.writeBackData == WriteBackData(loadData, d.func3, x.strobe, held.load)
  {
    hide Wrap, AluResult, AluOutput, ByteEnable, StoreData, WriteBackData, MemAddr, Base, Signed, Assemble,
      DecodeWord, JumpTarget, ReadReg;
    var rs1 := ReadReg(a.regs, d.rs1Addr);
    AddressOutput(d, rs1, ReadReg(a.regs, d.rs2Addr), a.pc, i.imm, addr);
    SettledSelects(d, a, loadData, held, x, addr, WriteBackData(loadData, d.func3, ByteEnable(addr, d.func3), held.load));
    MemAddrs(d, rs1, addr);
  }

  lemma AddressOutput(d: Decoded, rs1: Word, rs2: Word, pc: Word, imm: int, addr: Word)
    requires !d.aluSrc1IsPc && d.aluSrc2IsImm && d.aluCtrl == ALU_CTRL_ADD && d.imm == Wrap(imm)
    requires addr == Wrap(Signed(rs1) + imm)
    ensures AluOutput(d, rs1, rs2, pc) == addr == Wrap(rs1 + d.imm)
  {
    WrapSum(rs1, imm);
    AdderOnly(rs1, d.imm);
  }

  lemma MemAddrs(d: Decoded, rs1: Word, addr: Word)
    requires d.useMem && Wrap(rs1 + d.imm) == addr
    ensures MemAddr(d, rs1) == if d.memIsWrite then Base(addr) else addr
  {
  }

  // ----- Every legal instruction -----

  /** Everything but a store: the NEXT_PC transaction performs the reference step. */
  lemma DatapathExecutes(i: Instr, w: nat, a: Arch, loadData: Word, held: Held)
    requires Legal(i) && w == Encode(i) && Runs(i, a) && !i.Store?
    requires i.Load? ==> loadData == ReadWord(a.mem, Address(a, i.rs1, i.imm))
    ensures w < 0x1_0000_0000
    ensures DecodeWord(w).useMem == i.Load? && !DecodeWord(w).memIsWrite
    ensures i.Load? ==> WiresIn(w, a, loadData, held).memAddr == Address(a, i.rs1, i.imm)
    ensures Retired(WiresIn(w, a, loadData, held), a) == Execute(i, a)
  {
    hide DecodeWord, Encode, AluOutput, WriteBackData, ByteEnable, Execute, Retired, Assemble, Selects, Runs,
      Legal, ReadWord, Address;
    if i.Load? {
      LoadExecutes(i, w, a, loadData, held);
    } else {
      ControlsInRange(i, w);
      var d := DecodeWord(w);
      var x := WiresIn(w, a, loadData, held);
      var alu := AluOutput(d, ReadReg(a.regs, d.rs1Addr), ReadReg(a.regs, d.rs2Addr), a.pc);
      var memWb := WriteBackData(loadData, d.func3, ByteEnable(alu, d.func3), held.load);
      SettledSelects(d, a, loadData, held, x, alu, memWb);
      ComputeExecutes(i, w, d, a, x, alu, memWb);
    }
  }

  lemma ControlsInRange(i: Instr, w: nat)
    requires Legal(i) && w == Encode(i)
    ensures w < 0x1_0000_0000
    ensures DecodeWord(w).useMem == (i.Load? || i.Store?) && DecodeWord(w).memIsWrite == i.Store?
  {
    match i
    case Op(_, _, _, _) => OpControls(i, w);
    case OpImm(_, _, _, _) => OpImmControls(i, w);
    case Lui(_, _) => UpperControls(i, w);
    case Auipc(_, _) => UpperControls(i, w);
    case Jal(_, _) => JumpControls(i, w);
    case Jalr(_, _, _) => JumpControls(i, w);
    case Branch(_, _, _, _) => BranchControls(i, w);
    case Load(_, _, _, _, _) => MemControls(i, w);
    case Store(_, _, _, _) => MemControls(i, w);
  }

  lemma ComputeExecutes(i: Instr, w: Word, d: Decoded, a: Arch, x: Wires, alu: Word, memWb: Word)
    requires Legal(i) && w == Encode(i) && d == DecodeWord(w) && !i.Load? && !i.Store?
    requires alu == AluOutput(d, ReadReg(a.regs, d.rs1Addr), ReadReg(a.regs, d.rs2Addr), a.pc)
    requires Selects(x, d, ReadReg(a.regs, d.rs1Addr), a.pc, alu, memWb)
    ensures Retired(x, a) == Execute(i, a)
  {
    hide Encode, DecodeWord, Execute, Retired, AluResult, Legal, Selects, WriteReg, OpCtrl;
    match i
    case Op(_, _, _, _) =>
      OpControls(i, w);
      OpExecutes(i, d, a, x, alu, memWb);
    case OpImm(_, _, _, _) =>
      OpImmControls(i, w);
      OpImmExecutes(i, d, a, x, alu, memWb);
    case Lui(_, _) =>
      UpperControls(i, w);
      UpperExecutes(i, d, a, x, alu, memWb);
    case Auipc(_, _) =>
      UpperControls(i, w);
      UpperExecutes(i, d, a, x, alu, memWb);
    case Jal(_, _) =>
      JumpControls(i, w);
      JumpExecutes(i, d, a, x, alu, memWb);
    case Jalr(_, _, _) =>
      JumpControls(i, w);
      JumpExecutes(i, d, a, x, alu, memWb);
    case Branch(_, _, _, _) =>
      BranchControls(i, w);
      BranchExecutes(i, d, a, x, alu, memWb);
  }

  lemma LoadExecutes(i: Instr, w: nat, a: Arch, loadData: Word, held: Held)
    requires Legal(i) && w == Encode(i) && Runs(i, a) && i.Load?
    requires loadData == ReadWord(a.mem, Address(a, i.rs1, i.imm))
    ensures w < 0x1_0000_0000
    ensures DecodeWord(w).useMem && !DecodeWord(w).memIsWrite
    ensures WiresIn(w, a, loadData, held).memAddr == Address(a, i.rs1, i.imm)
    ensures Retired(WiresIn(w, a, loadData, held), a) == Execute(i, a)
  {
    hide Encode, DecodeWord, Execute, Retired, WriteBackData, ByteEnable, Address, ReadWord, Assemble, ReadReg,
      LoadBytes, Extend;
    MemControls(i, w);
    var d := DecodeWord(w);
    var x := WiresIn(w, a, loadData, held);
    MemWires(i, d, a, loadData, held, x, Address(a, i.rs1, i.imm));
    LoadLanes(a.mem, i.width, i.unsigned, Address(a, i.rs1, i.imm), held.load);
    LoadRetires(i, d, a, x);
  }

  lemma LoadRetires(i: Instr, d: Decoded, a: Arch, x: Wires)
    requires Legal(i) && i.Load? && Runs(i, a) && x.d == d && d.doWriteBack && d.rdAddr == i.rd && x.nextPc == Plus4(a.pc)
    requires x.writeBackData == Extend(i.width, i.unsigned, LoadBytes(a.mem, i.width, Address(a, i.rs1, i.imm)))
    ensures Retired(x, a) == Execute(i, a)
  {
  }

  /** A store: the strobed beat performs the reference memory update, the rest is pc + 4. */
  lemma DatapathStores(i: Instr, w: nat, a: Arch, loadData: Word, held: Held)
    requires Legal(i) && w == Encode(i) && i.Store?
    ensures w < 0x1_0000_0000
    ensures DecodeWord(w).useMem && DecodeWord(w).memIsWrite && !DecodeWord(w).doWriteBack
    ensures
      var x := WiresIn(w, a, loadData, held);
      && x.nextPc == Plus4(a.pc)
      && Execute(i, a) == Arch(x.nextPc, a.regs, WriteWord(a.mem, x.memAddr, x.storeData, x.strobe))
  {
    hide Encode, DecodeWord, Execute, WriteWord, ByteEnable, StoreData, Address, Assemble, ReadReg;
    var addr := Address(a, i.rs1, i.imm);
    MemControls(i, w);
    var x := WiresIn(w, a, loadData, held);
    MemWires(i, DecodeWord(w), a, loadData, held, x, addr);
    StoreExecutes(i, a, addr, held.store, x.storeData, x.strobe);
  }

  lemma StoreExecutes(i: Instr, a: Arch, addr: Word, held: Word, data: Word, strobe: Strobe)
    requires i.Store? && addr == Address(a, i.rs1, i.imm)
    requires strobe == ByteEnable(addr, WidthFunct3(i.width, false))
    requires data == StoreData(addr, WidthFunct3(i.width, false), ReadReg(a.regs, i.rs2), held)
    ensures Execute(i, a) == Arch(Plus4(a.pc), a.regs, WriteWord(a.mem, Base(addr), data, strobe))
  {
    EnableIffAligned(i.width, false, addr);
    WriteAtBase(a.mem, addr);
    if Aligned(i.width, addr) {
      StoreLanes(a.mem, i.width, addr, ReadReg(a.regs, i.rs2), held);
    } else {
      NoLanesNoWrite(a.mem, Base(addr), data);
    }
  }

  lemma WriteAtBase(m: Memory, addr: Word)
    ensures Base(Base(addr)) == Base(addr)
    ensures forall data, s :: WriteWord(m, Base(addr), data, s) == WriteWord(m, addr, data, s)
  {
  }

  // ----- Where the core departs from the standard -----

  lemma EvenAfterWrap(x: int)
    ensures Wrap(x) % 2 == x % 2
  {
    assert x == x / 0x1_0000_0000 * 2 * 0x8000_0000 + Wrap(x);
  }

  /**
   * JALR does not clear bit 0 of its target: it agrees with section 2.5 of the
   * RISC-V Unprivileged ISA exactly when base plus offset is even.
   */
  lemma JalrTarget(i: Instr, w: nat, a: Arch, loadData: Word, held: Held)
    requires Legal(i) && i.Jalr? && w == Encode(i)
    ensures w < 0x1_0000_0000
    ensures
      var sum := ReadReg(a.regs, i.rs1) + i.imm;
      var standard := Wrap(sum) - Wrap(sum) % 2;
      WiresIn(w, a, loadData, held).nextPc == standard <==> sum % 2 == 0
  {
    hide WiresIn, Encode, ReadReg;
    DatapathExecutes(i, w, a, loadData, held);
    EvenAfterWrap(ReadReg(a.regs, i.rs1) + i.imm);
  }
}
