/** soc_control.v: the AXI4-Lite slave that starts, stops, steps, reads and writes the core. */
module SocControl {
  import opened Words
  import opened ByteLanes
  import opened RegisterFile
  import opened Core

  datatype CmState =
    | CM_IDLE | READ_ISSUE | READ_WAIT_DONE | READ_RESP
    | WRITE_RECV_ADDR | WRITE_RECV_DATA | WRITE_ISSUE | WRITE_WAIT_DONE | WRITE_RESP

  datatype Resp = OKAY | SLVERR

  /** The part of an address this slave looks at. */
  type UsedAddr = a: int | 0 <= a < 0x1_0000

  const SUB_SEL_CTRL := 0x1
  const SUB_SEL_REGFILE := 0x2
  const SUB_SEL_FAULT := 0x3

  const CTRL_REG_STATUS := 0x000
  const CTRL_REG_START := 0x004
  const CTRL_REG_STOP := 0x008
  const CTRL_REG_STEP := 0x00C
  const CTRL_REG_PC := 0x010
  const CTRL_REG_DBG_VECTOR := 0x01C

  /** Signals driven by the bus master. */
  datatype FromMaster = FromMaster(
    arvalid: bool, araddr: Word, rready: bool,
    awvalid: bool, awaddr: Word, wvalid: bool, wdata: Word, wstrb: Strobe, bready: bool)

  datatype ToMaster = ToMaster(
    arready: bool, rvalid: bool, rdata: Word, rresp: Resp,
    awready: bool, wready: bool, bvalid: bool, bresp: Resp)

  /** What the control module sees of the core. */
  datatype FromCore = FromCore(pc: Word, regfileReadData: Word, debugVector: Word)

  datatype CmRegs = CmRegs(
    state: CmState,
    address: UsedAddr,
    writeData: Word,
    strobe: Strobe,
    pcStall: bool,
    controlReadData: Word,
    controlAddressValid: bool,
    opSuccessful: bool,
    readData: Word)

  const RESET_CM := CmRegs(CM_IDLE, 0, 0, 0, true, 0, false, false, 0)

  // ----- Address fields: ssss aaaaaaaaaaaa, with registers at 0000 0rrrrr00 and faults at 00mm 0rrrrr00 -----

  datatype Fields = Fields(sel: nat, sub: nat, reg: RegIndex, mode: FaultMode, aligned: bool, regInBounds: bool, faultForm: bool)

  function FieldsOf(a: UsedAddr): Fields {
    var sub := a % 0x1000;
    Fields(a / 0x1000, sub, sub / 4 % 32, sub / 0x100 % 4, sub % 4 == 0, sub / 0x80 == 0,
           sub / 0x400 == 0 && sub / 0x80 % 2 == 0)
  }

  predicate RegfileReadValid(f: Fields) {
    f.sel == SUB_SEL_REGFILE && f.aligned && f.regInBounds
  }

  predicate RegfileWriteValid(f: Fields, strobe: Strobe) {
    RegfileReadValid(f) && strobe == 15 && f.reg != 0
  }

  predicate FaultWriteValid(f: Fields, strobe: Strobe) {
    f.sel == SUB_SEL_FAULT && strobe == 15 && f.aligned && f.faultForm && f.reg != 0
  }

  /** The read label meant for three registers is the bitwise or of their addresses. */
  function StartStopStepLabel(): nat {
    Or(Or(CTRL_REG_START, CTRL_REG_STOP), CTRL_REG_STEP)
  }

  /** That label is the STEP address, so START and STOP are not readable. */
  lemma ReadLabelIsStep()
    ensures StartStopStepLabel() == CTRL_REG_STEP
  {
    assert Or(4, 8) == 2 * Or(2, 4) == 4 * Or(1, 2) == 12;
    assert Or(12, 12) == 2 * Or(6, 6) == 4 * Or(3, 3) == 12;
  }

  predicate ControlReadKnown(sub: nat) {
    || sub == CTRL_REG_STATUS || sub == StartStopStepLabel()
    || sub == CTRL_REG_PC || sub == CTRL_REG_DBG_VECTOR
  }

  predicate ControlWriteKnown(sub: nat) {
    sub == CTRL_REG_START || sub == CTRL_REG_STOP || sub == CTRL_REG_STEP || sub == CTRL_REG_PC
  }

  // ----- Combinational outputs -----

  function CmNextState(st: CmState, m: FromMaster): CmState {
    match st
    case CM_IDLE => if m.arvalid then READ_ISSUE else if m.awvalid then WRITE_RECV_ADDR else st
    case READ_ISSUE => READ_WAIT_DONE
    case READ_WAIT_DONE => READ_RESP
    case READ_RESP => if m.rready then CM_IDLE else st
    case WRITE_RECV_ADDR => if m.awvalid then WRITE_RECV_DATA else st
    case WRITE_RECV_DATA => if m.wvalid then WRITE_ISSUE else st
    case WRITE_ISSUE => WRITE_WAIT_DONE
    case WRITE_WAIT_DONE => WRITE_RESP
    case WRITE_RESP => if m.bready then CM_IDLE else st
  }

  function ResponseOf(c: CmRegs): Resp {
    if c.opSuccessful then OKAY else SLVERR
  }

  function CmOutputs(c: CmRegs): ToMaster {
    var reading := c.state == READ_RESP;
    var writing := c.state == WRITE_RESP;
    ToMaster(
      c.state == CM_IDLE,
      reading,
      if reading && c.opSuccessful then c.readData else 0,
      if reading then ResponseOf(c) else OKAY,
      c.state == WRITE_RECV_ADDR,
      c.state == WRITE_RECV_DATA,
      writing,
      if writing then ResponseOf(c) else OKAY)
  }

  /** What the core sees in this clock. */
  function CmControl(c: CmRegs): Control {
    var f := FieldsOf(c.address);
    var issue := c.state == WRITE_ISSUE;
    var writesReg := issue && RegfileWriteValid(f, c.strobe);
    var writesPc := issue && f.sel == SUB_SEL_CTRL && f.sub == CTRL_REG_PC;
    var faults := issue && FaultWriteValid(f, c.strobe);
    Control(
      c.pcStall,
      writesPc,
      if writesPc then c.writeData else 0,
      WritePort(writesReg,
                if writesReg || (c.state == READ_ISSUE && RegfileReadValid(f)) then f.reg else 0,
                if writesReg then c.writeData else 0),
      FaultPort(faults, if faults then f.reg else 0, if faults then f.mode else 0, if faults then c.writeData else 0))
  }

  // ----- Clocked registers -----

  function AddressNext(c: CmRegs, m: FromMaster): UsedAddr {
    if c.state == CM_IDLE && m.arvalid then m.araddr % 0x1_0000
    else if c.state == WRITE_RECV_ADDR && m.awvalid then m.awaddr % 0x1_0000
    else c.address
  }

  function PcStallNext(c: CmRegs, f: Fields): bool {
    if c.state == WRITE_ISSUE && f.sel == SUB_SEL_CTRL then
      (if f.sub == CTRL_REG_START || f.sub == CTRL_REG_STEP then false
       else if f.sub == CTRL_REG_STOP then true
       else c.pcStall)
    else if c.state == WRITE_WAIT_DONE && f.sel == SUB_SEL_CTRL && f.sub == CTRL_REG_STEP then true
    else c.pcStall
  }

  function ControlAddressValidNext(c: CmRegs, f: Fields): bool {
    if c.state == CM_IDLE then false
    else if c.state == READ_ISSUE && f.sel == SUB_SEL_CTRL && ControlReadKnown(f.sub) then true
    else if c.state == WRITE_ISSUE && f.sel == SUB_SEL_CTRL && ControlWriteKnown(f.sub) then true
    else c.controlAddressValid
  }

  function ControlReadDataNext(c: CmRegs, f: Fields, k: FromCore): Word {
    if c.state == READ_ISSUE && f.sel == SUB_SEL_CTRL then
      (if f.sub == CTRL_REG_STATUS then Flag(c.pcStall)
       else if f.sub == StartStopStepLabel() then 0
       else if f.sub == CTRL_REG_PC then k.pc
       else if f.sub == CTRL_REG_DBG_VECTOR then k.debugVector
       else 0)
    else c.controlReadData
  }

  predicate OperationDone(c: CmRegs) {
    c.state == READ_WAIT_DONE || c.state == WRITE_WAIT_DONE
  }

  /** Success of the operation in its WAIT_DONE clock. */
  predicate Succeeds(c: CmRegs, f: Fields) {
    if f.sel == SUB_SEL_CTRL then
      c.controlAddressValid && f.aligned && (c.state == WRITE_WAIT_DONE ==> c.strobe == 15)
    else if f.sel == SUB_SEL_REGFILE then
      (if c.state == WRITE_WAIT_DONE then RegfileWriteValid(f, c.strobe) else RegfileReadValid(f))
    else
      f.sel == SUB_SEL_FAULT && c.state == WRITE_WAIT_DONE && FaultWriteValid(f, c.strobe)
  }

  function Collected(c: CmRegs, f: Fields, k: FromCore): Word {
    if f.sel == SUB_SEL_CTRL then c.controlReadData
    else if f.sel == SUB_SEL_REGFILE then k.regfileReadData
    else 0
  }

  function CmAdvance(c: CmRegs, m: FromMaster, k: FromCore, f: Fields): CmRegs {
    CmRegs(
      CmNextState(c.state, m),
      AddressNext(c, m),
      if c.state == WRITE_RECV_DATA && m.wvalid then m.wdata else c.writeData,
      if c.state == WRITE_RECV_DATA && m.wvalid then m.wstrb else c.strobe,
      PcStallNext(c, f),
      ControlReadDataNext(c, f, k),
      ControlAddressValidNext(c, f),
      if OperationDone(c) then Succeeds(c, f) else c.opSuccessful,
      if OperationDone(c) then Collected(c, f, k) else c.readData)
  }

  /** One rising edge. */
  function CmNext(c: CmRegs, m: FromMaster, k: FromCore): CmRegs {
    CmAdvance(c, m, k, FieldsOf(c.address))
  }

  class SocControlModule {
    var state: CmState
    var latchedAddress: UsedAddr
    var latchedWriteData: Word
    var latchedWriteStrobe: Strobe
    var pcStall: bool
    var controlReadData: Word
    var controlAddressValid: bool
    var opSuccessful: bool
    var readData: Word

    ghost function Regs(): CmRegs
      reads this
    {
      CmRegs(state, latchedAddress, latchedWriteData, latchedWriteStrobe, pcStall, controlReadData,
             controlAddressValid, opSuccessful, readData)
    }

    constructor ()
      ensures Regs() == RESET_CM
    {
      state := CM_IDLE;
      latchedAddress := 0;
      latchedWriteData := 0;
      latchedWriteStrobe := 0;
      pcStall := true;
      controlReadData := 0;
      controlAddressValid := false;
      opSuccessful := false;
      readData := 0;
    }

    /** One rising edge; every block reads the values from before it. */
    method Clock(m: FromMaster, k: FromCore)
      modifies this
      ensures Regs() == CmNext(old(Regs()), m, k)
    {
      var f := FieldsOf(latchedAddress);
      Collect(f, k);
      ControlRegisters(f, k);
      Latch(m);
      state := CmNextState(state, m);
    }

    /** Latch the result of an operation in its WAIT_DONE clock. */
    method Collect(f: Fields, k: FromCore)
      modifies `opSuccessful, `readData
      ensures opSuccessful == (if OperationDone(old(Regs())) then Succeeds(old(Regs()), f) else old(opSuccessful))
      ensures readData == (if OperationDone(old(Regs())) then Collected(old(Regs()), f, k) else old(readData))
    {
      var isWrite := state == WRITE_WAIT_DONE;
      if isWrite || state == READ_WAIT_DONE {
        if f.sel == SUB_SEL_CTRL {
          opSuccessful := controlAddressValid && f.aligned && (isWrite ==> latchedWriteStrobe == 15);
          readData := controlReadData;
        } else if f.sel == SUB_SEL_REGFILE {
          opSuccessful := if isWrite then RegfileWriteValid(f, latchedWriteStrobe) else RegfileReadValid(f);
          readData := k.regfileReadData;
        } else if f.sel == SUB_SEL_FAULT {
          opSuccessful := isWrite && FaultWriteValid(f, latchedWriteStrobe);
          readData := 0;
        } else {
          opSuccessful := false;
          readData := 0;
        }
      }
    }

    method ControlRegisters(f: Fields, k: FromCore)
      modifies `pcStall, `controlReadData, `controlAddressValid
      ensures pcStall == PcStallNext(old(Regs()), f)
      ensures controlReadData == ControlReadDataNext(old(Regs()), f, k)
      ensures controlAddressValid == ControlAddressValidNext(old(Regs()), f)
    {
      var selected := f.sel == SUB_SEL_CTRL;
      if state == CM_IDLE {
        controlAddressValid := false;
      } else if state == READ_ISSUE && selected {
        if f.sub == CTRL_REG_STATUS {
          controlAddressValid := true;
          controlReadData := Flag(pcStall);
        } else if f.sub == StartStopStepLabel() {
          controlAddressValid := true;
          controlReadData := 0;
        } else if f.sub == CTRL_REG_PC {
          controlAddressValid := true;
          controlReadData := k.pc;
        } else if f.sub == CTRL_REG_DBG_VECTOR {
          controlAddressValid := true;
          controlReadData := k.debugVector;
        } else {
          controlReadData := 0;
        }
      } else if state == WRITE_ISSUE && selected {
        if f.sub == CTRL_REG_START {
          controlAddressValid := true;
          pcStall := false;
        } else if f.sub == CTRL_REG_STOP {
          controlAddressValid := true;
          pcStall := true;
        } else if f.sub == CTRL_REG_STEP {
          controlAddressValid := true;
          pcStall := false;
        } else if f.sub == CTRL_REG_PC {
          controlAddressValid := true;
        }
      } else if state == WRITE_WAIT_DONE && selected && f.sub == CTRL_REG_STEP {
        pcStall := true;
      }
    }

    /** Latch data from the bus on its handshakes. */
    method Latch(m: FromMaster)
      modifies `latchedAddress, `latchedWriteData, `latchedWriteStrobe
      ensures latchedAddress == AddressNext(old(Regs()), m)
      ensures latchedWriteData == if state == WRITE_RECV_DATA && m.wvalid then m.wdata else old(latchedWriteData)
      ensures latchedWriteStrobe == if state == WRITE_RECV_DATA && m.wvalid then m.wstrb else old(latchedWriteStrobe)
    {
      if state == CM_IDLE && m.arvalid {
        latchedAddress := m.araddr % 0x1_0000;
      } else if state == WRITE_RECV_ADDR && m.awvalid {
        latchedAddress := m.awaddr % 0x1_0000;
      } else if state == WRITE_RECV_DATA && m.wvalid {
        latchedWriteData := m.wdata;
        latchedWriteStrobe := m.wstrb;
      }
    }
  }
}
