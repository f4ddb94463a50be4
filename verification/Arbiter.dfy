/** memory_arbiter.v: the AXI4-Lite master shared by instruction fetch and load/store. */
module Arbiter {
  import opened Words
  import opened ByteLanes

  datatype ArbState =
    | IDLE | PC_WAIT_ARREADY | PC_DATA | L_WAIT_ARREADY | L_DATA
    | S_WAIT_BOTH | S_WAIT_AWREADY | S_WAIT_WREADY | S_RESP

  /** Signals driven by the memory slave. */
  datatype FromSlave = FromSlave(arready: bool, rvalid: bool, rdata: Word, awready: bool, wready: bool, bvalid: bool)

  /** Signals driven towards the memory slave. */
  datatype ToSlave = ToSlave(
    arvalid: bool, araddr: Word, rready: bool,
    awvalid: bool, awaddr: Word, wvalid: bool, wdata: Word, wstrb: Strobe, bready: bool)

  /** Signals from the core's fetch and load/store sides. */
  datatype Request = Request(
    pcValid: bool, pc: Word, instructionReady: bool,
    lsValid: bool, lsAddr: Word, lsIsWrite: bool, strobe: Strobe, storeData: Word)

  datatype ArbRegs = ArbRegs(state: ArbState, resultValid: bool, loadData: Word)

  const RESET := ArbRegs(IDLE, false, 0)

  predicate LoadStoreReady(st: ArbState, pcValid: bool) {
    st == IDLE && !pcValid
  }

  function NextState(st: ArbState, r: Request, s: FromSlave): ArbState {
    match st
    case IDLE =>
      if r.pcValid then (if s.arready then PC_DATA else PC_WAIT_ARREADY)
      else if r.lsValid && LoadStoreReady(st, r.pcValid) then (if r.lsIsWrite then S_WAIT_BOTH else L_WAIT_ARREADY)
      else st
    case PC_WAIT_ARREADY => if s.arready then PC_DATA else st
    case L_WAIT_ARREADY => if s.arready then L_DATA else st
    case S_WAIT_BOTH =>
      if s.awready && s.wready then S_RESP
      else if s.awready then S_WAIT_WREADY
      else if s.wready then S_WAIT_AWREADY
      else st
    case S_WAIT_AWREADY => if s.awready then S_RESP else st
    case S_WAIT_WREADY => if s.wready then S_RESP else st
    case PC_DATA => if s.rvalid && r.instructionReady then IDLE else st
    case L_DATA => if s.rvalid then IDLE else st
    case S_RESP => if s.bvalid then IDLE else st
  }

  function Outputs(st: ArbState, r: Request): ToSlave {
    var quiet := ToSlave(false, 0, false, false, 0, false, 0, 0, false);
    match st
    case IDLE => if r.pcValid then quiet.(arvalid := true, araddr := r.pc) else quiet
    case PC_WAIT_ARREADY => quiet.(arvalid := true, araddr := r.pc)
    case L_WAIT_ARREADY => quiet.(arvalid := true, araddr := r.lsAddr)
    case PC_DATA => quiet.(rready := r.instructionReady)
    case L_DATA => quiet.(rready := true)
    case S_WAIT_BOTH =>
      quiet.(awvalid := true, awaddr := r.lsAddr, wvalid := true, wdata := r.storeData, wstrb := r.strobe)
    case S_WAIT_AWREADY => quiet.(awvalid := true, awaddr := r.lsAddr)
    case S_WAIT_WREADY => quiet.(wvalid := true, wdata := r.storeData, wstrb := r.strobe)
    case S_RESP => quiet.(bready := true)
  }

  predicate PcReady(st: ArbState, pcValid: bool, s: FromSlave) {
    (st == PC_WAIT_ARREADY || (st == IDLE && pcValid)) && s.arready
  }

  predicate InstructionValid(st: ArbState, s: FromSlave) {
    st == PC_DATA && s.rvalid
  }

  function ArbNext(a: ArbRegs, r: Request, s: FromSlave): ArbRegs {
    var next := NextState(a.state, r, s);
    var loaded := a.state == L_DATA && next == IDLE;
    var stored := a.state == S_RESP && next == IDLE;
    ArbRegs(next, loaded || stored, if loaded then s.rdata else a.loadData)
  }

  class MemoryArbiter {
    var state: ArbState
    var loadStoreResultValid: bool
    var loadData: Word

    ghost function Regs(): ArbRegs
      reads this
    {
      ArbRegs(state, loadStoreResultValid, loadData)
    }

    constructor ()
      ensures Regs() == RESET
    {
      state := IDLE;
      loadStoreResultValid := false;
      loadData := 0;
    }

    /** One rising edge. */
    method Clock(r: Request, s: FromSlave)
      modifies this
      ensures Regs() == ArbNext(old(Regs()), r, s)
    {
      var nextState := NextState(state, r, s);
      if state == L_DATA && nextState == IDLE {
        loadStoreResultValid := true;
        loadData := s.rdata;
      } else if state == S_RESP && nextState == IDLE {
        loadStoreResultValid := true;
      } else {
        loadStoreResultValid := false;
      }
      state := nextState;
    }
  }
}
