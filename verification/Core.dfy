/** riscv_cpu.v: the core as a clocked handshake machine. */
module Core {
  import opened Words
  import opened Isa
  import opened Decode
  import opened Alu
  import opened ByteLanes
  import opened Arbiter
  import opened RegisterFile

  const BOOT_ADDR: Word := 0x1000

  /** Signals from the control module. */
  datatype Control = Control(
    pcStall: bool, pcWe: bool, pcWriteData: Word,
    regfile: WritePort, fault: FaultPort)

  /** Outputs of inferred latches in clocks where no case arm assigns them. */
  datatype Held = Held(store: Word, load: Word)

  datatype CoreIn = CoreIn(slave: FromSlave, cm: Control, held: Held)

  /** Every register of the core, its register file and its arbiter. */
  datatype CoreRegs = CoreRegs(
    pc: Word,
    releasePending: bool,
    stallReleased: bool,
    instruction: Word,
    decodedValid: bool,
    aluResultValid: bool,
    nextPcValid: bool,
    regs: Regs,
    extraReadData: Word,
    arb: ArbRegs)

  const RESET_CORE := CoreRegs(BOOT_ADDR, true, false, 0, false, false, false, ZERO_REGS, 0, Arbiter.RESET)

  /** Combinational outputs of decoder, ALU, load/store decoder, byte reader and write-back. */
  datatype Wires = Wires(
    d: Decoded,
    memAddr: Word,
    strobe: Strobe,
    storeData: Word,
    writeBackData: Word,
    nextPc: Word)

  function Combinational(instruction: Word, pc: Word, regs: Regs, loadData: Word, held: Held): Wires {
    var d := DecodeWord(instruction);
    Assemble(d, ReadReg(regs, d.rs1Addr), ReadReg(regs, d.rs2Addr),
             AluOutput(d, ReadReg(regs, d.rs1Addr), ReadReg(regs, d.rs2Addr), pc), pc, loadData, held)
  }

  function AluOutput(d: Decoded, rs1: Word, rs2: Word, pc: Word): Word {
    AluResult(d.aluCtrl, if d.aluSrc1IsPc then pc else rs1, if d.aluSrc2IsImm then d.imm else rs2)
  }

  function MemAddr(d: Decoded, rs1: Word): Word {
    var aux := if d.useMem then Wrap(rs1 + d.imm) else 0;
    if d.memIsWrite then aux - aux % 4 else aux
  }

  function JumpTarget(d: Decoded, rs1: Word, pc: Word): Word {
    Wrap((if d.isJalr then rs1 else pc) + d.imm)
  }

  function WriteBackMux(d: Decoded, pc: Word, aluResult: Word, memWbData: Word): Word {
    if d.isJump then Plus4(pc) else if d.useMem then memWbData else aluResult
  }

  function NextPc(d: Decoded, rs1: Word, pc: Word, aluResult: Word): Word {
    if d.isJump then JumpTarget(d, rs1, pc)
    else if !d.useMem && d.isBranch && TakeBranch(aluResult) then Wrap(pc + d.imm)
    else Plus4(pc)
  }

  /** Everything downstream of the register read ports and the ALU. */
  function Assemble(d: Decoded, rs1: Word, rs2: Word, aluResult: Word, pc: Word, loadData: Word, held: Held): Wires {
    var strobe := ByteEnable(aluResult, d.func3);
    Wires(
      d,
      MemAddr(d, rs1),
      strobe,
      StoreData(aluResult, d.func3, rs2, held.store),
      WriteBackMux(d, pc, aluResult, WriteBackData(loadData, d.func3, strobe, held.load)),
      NextPc(d, rs1, pc, aluResult))
  }

  function WiresOf(c: CoreRegs, held: Held): Wires {
    Combinational(c.instruction, c.pc, c.regs, c.arb.loadData, held)
  }

  predicate PcValid(c: CoreRegs, cm: Control) {
    c.releasePending && (!cm.pcStall || c.stallReleased)
  }

  function RequestOf(c: CoreRegs, w: Wires, cm: Control): Request {
    Request(PcValid(c, cm), c.pc, true, c.decodedValid && w.d.useMem, w.memAddr, w.d.memIsWrite, w.strobe, w.storeData)
  }

  /** What the core drives onto its AXI master port. */
  function BusOf(c: CoreRegs, i: CoreIn): ToSlave {
    Outputs(c.arb.state, RequestOf(c, WiresOf(c, i.held), i.cm))
  }

  predicate DecodedReady(c: CoreRegs, w: Wires, cm: Control) {
    w.d.useMem ==> LoadStoreReady(c.arb.state, PcValid(c, cm))
  }

  predicate ExecuteResultValid(c: CoreRegs, w: Wires) {
    if w.d.useMem then c.arb.resultValid else c.aluResultValid
  }

  /** A NEXT_PC transaction: the pc is replaced and the result is written back. */
  predicate NextPcTransaction(c: CoreRegs) {
    c.nextPcValid && !c.releasePending
  }

  predicate PcTransaction(c: CoreRegs, i: CoreIn) {
    PcValid(c, i.cm) && PcReady(c.arb.state, PcValid(c, i.cm), i.slave)
  }

  /** One rising edge, all registers computed from their old values. */
  function CoreNext(c: CoreRegs, i: CoreIn): CoreRegs {
    Advance(c, i, WiresOf(c, i.held))
  }

  // The next value of each register, for whatever the combinational blocks output.

  predicate DecodedTransaction(c: CoreRegs, i: CoreIn, w: Wires) {
    c.decodedValid && DecodedReady(c, w, i.cm)
  }

  function PcNext(c: CoreRegs, i: CoreIn, w: Wires): Word {
    if NextPcTransaction(c) then w.nextPc
    else if !PcTransaction(c, i) && i.cm.pcStall && i.cm.pcWe then i.cm.pcWriteData
    else c.pc
  }

  predicate ReleasePendingNext(c: CoreRegs, i: CoreIn) {
    NextPcTransaction(c) || (!PcTransaction(c, i) && c.releasePending)
  }

  predicate StallReleasedNext(c: CoreRegs, i: CoreIn) {
    && !NextPcTransaction(c) && !PcTransaction(c, i)
    && (c.stallReleased || (c.releasePending && !i.cm.pcStall))
  }

  predicate DecodedValidNext(c: CoreRegs, i: CoreIn, w: Wires) {
    InstructionValid(c.arb.state, i.slave) || (c.decodedValid && !DecodedTransaction(c, i, w))
  }

  predicate AluResultValidNext(c: CoreRegs, i: CoreIn, w: Wires) {
    if DecodedTransaction(c, i, w) then c.aluResultValid || !w.d.useMem
    else c.aluResultValid && !ExecuteResultValid(c, w)
  }

  predicate NextPcValidNext(c: CoreRegs, w: Wires) {
    ExecuteResultValid(c, w) || (c.nextPcValid && !NextPcTransaction(c))
  }

  function Advance(c: CoreRegs, i: CoreIn, w: Wires): CoreRegs {
    CoreRegs(
      PcNext(c, i, w),
      ReleasePendingNext(c, i),
      StallReleasedNext(c, i),
      if InstructionValid(c.arb.state, i.slave) then i.slave.rdata else c.instruction,
      DecodedValidNext(c, i, w),
      AluResultValidNext(c, i, w),
      NextPcValidNext(c, w),
      NextRegs(c.regs, WritePort(w.d.doWriteBack && NextPcTransaction(c), w.d.rdAddr, w.writeBackData), i.cm.regfile, i.cm.fault),
      ReadReg(c.regs, i.cm.regfile.addr),
      ArbNext(c.arb, RequestOf(c, w, i.cm), i.slave))
  }

  lemma AdvanceFields(c: CoreRegs, i: CoreIn, w: Wires, n: CoreRegs)
    requires n == Advance(c, i, w)
    ensures n.pc == PcNext(c, i, w)
    ensures n.releasePending == ReleasePendingNext(c, i) && n.stallReleased == StallReleasedNext(c, i)
    ensures n.instruction == if InstructionValid(c.arb.state, i.slave) then i.slave.rdata else c.instruction
    ensures n.decodedValid == DecodedValidNext(c, i, w) && n.aluResultValid == AluResultValidNext(c, i, w)
    ensures n.nextPcValid == NextPcValidNext(c, w)
    ensures n.regs == NextRegs(c.regs, WritePort(w.d.doWriteBack && NextPcTransaction(c), w.d.rdAddr, w.writeBackData),
                                i.cm.regfile, i.cm.fault)
    ensures n.extraReadData == ReadReg(c.regs, i.cm.regfile.addr)
    ensures n.arb == ArbNext(c.arb, RequestOf(c, w, i.cm), i.slave)
  {
  }

  class RiscvCpu {
    var pc: Word
    var pcReleasePending: bool
    var pcStallReleased: bool
    var instructionLatched: Word
    var decodedValid: bool
    var aluResultValid: bool
    var nextPcValid: bool
    const registerFile: RegFile
    const memoryArbiter: MemoryArbiter

    ghost const Repr: set<object>

    ghost predicate Valid()
      reads this
    {
      && registerFile.Valid()
      && Repr == {this, registerFile, registerFile.registers, memoryArbiter}
    }

    ghost function State(): CoreRegs
      requires Valid()
      reads this, Repr
    {
      CoreRegs(pc, pcReleasePending, pcStallReleased, instructionLatched, decodedValid, aluResultValid, nextPcValid,
               registerFile.Contents(), registerFile.extraReadData, memoryArbiter.Regs())
    }

    constructor ()
      ensures Valid() && fresh(Repr) && State() == RESET_CORE
    {
      var rf := new RegFile();
      var arb := new MemoryArbiter();
      pc := BOOT_ADDR;
      pcReleasePending := true;
      pcStallReleased := false;
      instructionLatched := 0;
      decodedValid := false;
      aluResultValid := false;
      nextPcValid := false;
      registerFile := rf;
      memoryArbiter := arb;
      Repr := {this, rf, rf.registers, arb};
    }

    method Settle(held: Held) returns (w: Wires)
      requires Valid()
      ensures w == WiresOf(State(), held)
    {
      var d := DecodeWord(instructionLatched);
      var rs1 := registerFile.Read(d.rs1Addr);
      var rs2 := registerFile.Read(d.rs2Addr);
      var aluResult := AluOutput(d, rs1, rs2, pc);
      var strobe := ByteEnable(aluResult, d.func3);
      var memWbData := ReadBytes(memoryArbiter.loadData, d.func3, strobe, held.load);
      var writeBackData, nextPc := SelectResults(d, rs1, aluResult, memWbData);
      w := Wires(d, MemAddr(d, rs1), strobe, StoreData(aluResult, d.func3, rs2, held.store), writeBackData, nextPc);
    }

    /** The write-back and next-pc multiplexer. */
    method SelectResults(d: Decoded, rs1: Word, aluResult: Word, memWbData: Word) returns (writeBackData: Word, nextPc: Word)
      ensures writeBackData == WriteBackMux(d, pc, aluResult, memWbData)
      ensures nextPc == NextPc(d, rs1, pc, aluResult)
    {
      var pcPlus4 := Plus4(pc);
      if d.isJump {
        writeBackData := pcPlus4;
        nextPc := JumpTarget(d, rs1, pc);
      } else if d.useMem {
        writeBackData := memWbData;
        nextPc := pcPlus4;
      } else {
        writeBackData := aluResult;
        if d.isBranch && TakeBranch(aluResult) {
          nextPc := Wrap(pc + d.imm);
        } else {
          nextPc := pcPlus4;
        }
      }
    }

    /** One rising edge. */
    method Clock(i: CoreIn)
      requires Valid()
      modifies Repr
      ensures Valid() && State() == CoreNext(old(State()), i)
    {
      var w := Settle(i.held);
      Edge(i, w, CoreNext(State(), i));
    }

    /** The clocked blocks, all reading the wires settled before the edge. */
    method Edge(i: CoreIn, w: Wires, ghost n: CoreRegs)
      requires Valid() && n == Advance(State(), i, w)
      modifies Repr
      ensures Valid() && State() == n
    {
      ghost var c := State();
      var arbState, memResultValid := memoryArbiter.state, memoryArbiter.loadStoreResultValid;
      var pcValid := pcReleasePending && (!i.cm.pcStall || pcStallReleased);
      var request := Request(pcValid, pc, true, decodedValid && w.d.useMem, w.memAddr, w.d.memIsWrite, w.strobe, w.storeData);
      var writeBack := WritePort(w.d.doWriteBack && nextPcValid && !pcReleasePending, w.d.rdAddr, w.writeBackData);
      EdgeInstances(i, w, writeBack, request, c, n);
      EdgeOwn(i, w, arbState, memResultValid, c, n);
    }

    /** The two clocked instances. */
    method EdgeInstances(i: CoreIn, w: Wires, writeBack: WritePort, request: Request, ghost c: CoreRegs, ghost n: CoreRegs)
      requires Valid() && registerFile.Contents() == c.regs && memoryArbiter.Regs() == c.arb
      requires writeBack == WritePort(w.d.doWriteBack && NextPcTransaction(c), w.d.rdAddr, w.writeBackData)
      requires request == RequestOf(c, w, i.cm) && n == Advance(c, i, w)
      modifies registerFile`extraReadData, registerFile.registers, memoryArbiter
      ensures registerFile.Contents() == n.regs && registerFile.extraReadData == n.extraReadData
      ensures memoryArbiter.Regs() == n.arb
    {
      registerFile.Clock(writeBack, i.cm.regfile, i.cm.fault);
      memoryArbiter.Clock(request, i.slave);
    }

    ghost predicate OwnRegisters(c: CoreRegs)
      reads this
    {
      && pc == c.pc && pcReleasePending == c.releasePending && pcStallReleased == c.stallReleased
      && instructionLatched == c.instruction && decodedValid == c.decodedValid
      && aluResultValid == c.aluResultValid && nextPcValid == c.nextPcValid
    }

    /** The registers declared in riscv_cpu.v itself. */
    method EdgeOwn(i: CoreIn, w: Wires, arbState: ArbState, memResultValid: bool, ghost c: CoreRegs, ghost n: CoreRegs)
      requires OwnRegisters(c) && arbState == c.arb.state && memResultValid == c.arb.resultValid && n == Advance(c, i, w)
      modifies this
      ensures OwnRegisters(n)
    {
      AdvanceFields(c, i, w, n);
      var pcValid := pcReleasePending && (!i.cm.pcStall || pcStallReleased);
      var pcReady := PcReady(arbState, pcValid, i.slave);
      var nextPcDone := nextPcValid && !pcReleasePending;
      EdgeValids(i, w, arbState, memResultValid, pcValid, nextPcDone, c, n);
      EdgePc(i, w, pcValid, pcReady, nextPcDone, c, n);
    }

    /** The INSTRUCTION, DECODED, EXECUTE_RESULT and NEXT_PC blocks. */
    method EdgeValids(i: CoreIn, w: Wires, arbState: ArbState, memResultValid: bool, pcValid: bool, nextPcDone: bool,
                      ghost c: CoreRegs, ghost n: CoreRegs)
      requires decodedValid == c.decodedValid && aluResultValid == c.aluResultValid && nextPcValid == c.nextPcValid
      requires instructionLatched == c.instruction
      requires arbState == c.arb.state && memResultValid == c.arb.resultValid
      requires pcValid == PcValid(c, i.cm) && nextPcDone == NextPcTransaction(c)
      requires n.instruction == if InstructionValid(c.arb.state, i.slave) then i.slave.rdata else c.instruction
      requires n.decodedValid == DecodedValidNext(c, i, w) && n.aluResultValid == AluResultValidNext(c, i, w)
      requires n.nextPcValid == NextPcValidNext(c, w)
      modifies `nextPcValid, `aluResultValid, `decodedValid, `instructionLatched
      ensures instructionLatched == n.instruction && decodedValid == n.decodedValid
      ensures aluResultValid == n.aluResultValid && nextPcValid == n.nextPcValid
    {
      var loadStoreReady := LoadStoreReady(arbState, pcValid);
      var decodedReady := if w.d.useMem then loadStoreReady else true;
      var executeResultValid := if w.d.useMem then memResultValid else aluResultValid;
      var instructionValid := InstructionValid(arbState, i.slave);
      var decodedDone := decodedValid && decodedReady;
      if executeResultValid {
        nextPcValid := true;
      } else if nextPcDone {
        nextPcValid := false;
      }
      if decodedDone {
        if !w.d.useMem {
          aluResultValid := true;
        }
      } else if executeResultValid {
        aluResultValid := false;
      }
      if instructionValid {
        decodedValid := true;
        instructionLatched := i.slave.rdata;
      } else if decodedDone {
        decodedValid := false;
      }
    }

    /** The PC generator. */
    method EdgePc(i: CoreIn, w: Wires, pcValid: bool, pcReady: bool, nextPcDone: bool,
                  ghost c: CoreRegs, ghost n: CoreRegs)
      requires pc == c.pc && pcReleasePending == c.releasePending && pcStallReleased == c.stallReleased
      requires pcValid == PcValid(c, i.cm) && nextPcDone == NextPcTransaction(c)
      requires pcReady == PcReady(c.arb.state, pcValid, i.slave)
      requires n.pc == PcNext(c, i, w)
      requires n.releasePending == ReleasePendingNext(c, i) && n.stallReleased == StallReleasedNext(c, i)
      modifies `pc, `pcReleasePending, `pcStallReleased
      ensures pc == n.pc && pcReleasePending == n.releasePending && pcStallReleased == n.stallReleased
    {
      if nextPcDone {
        pc := w.nextPc;
        pcReleasePending := true;
        pcStallReleased := false;
      } else if pcValid && pcReady {
        pcReleasePending := false;
        pcStallReleased := false;
      } else {
        if pcReleasePending && !i.cm.pcStall {
          pcStallReleased := true;
        }
        if i.cm.pcStall && i.cm.pcWe {
          pc := i.cm.pcWriteData;
        }
      }
    }
  }
}
