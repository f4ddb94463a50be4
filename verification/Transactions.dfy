/** What the control module's slave port promises its master, in every run. */
module Transactions {
  import opened Words
  import opened ByteLanes
  import opened RegisterFile
  import opened Core
  import opened SocControl

  // ----- The address map, built rather than decoded -----

  function ControlAddress(sub: nat): nat {
    0x1000 + sub
  }

  function RegisterAddress(r: RegIndex): UsedAddr {
    0x2000 + 4 * r
  }

  function FaultAddress(mode: FaultMode, r: RegIndex): UsedAddr {
    0x3000 + 0x100 * mode + 4 * r
  }

  ghost predicate NamesRegister(a: UsedAddr) {
    exists r: RegIndex :: a == RegisterAddress(r)
  }

  ghost predicate NamesFault(a: UsedAddr) {
    exists mode: FaultMode, r: RegIndex :: a == FaultAddress(mode, r) && r != 0
  }

  /** The addresses a read is answered OKAY for; START and STOP cannot be read back. */
  ghost predicate Readable(a: UsedAddr) {
    || NamesRegister(a)
    || a == ControlAddress(CTRL_REG_STATUS) || a == ControlAddress(CTRL_REG_STEP)
    || a == ControlAddress(CTRL_REG_PC) || a == ControlAddress(CTRL_REG_DBG_VECTOR)
  }

  /** The writes answered OKAY: all four lanes, and not to x0. */
  ghost predicate Writable(a: UsedAddr, strobe: Strobe) {
    strobe == 15 &&
    (|| (NamesRegister(a) && a != RegisterAddress(0))
     || NamesFault(a)
     || a == ControlAddress(CTRL_REG_START) || a == ControlAddress(CTRL_REG_STOP)
     || a == ControlAddress(CTRL_REG_STEP) || a == ControlAddress(CTRL_REG_PC))
  }

  lemma RegisterFields(r: RegIndex)
    ensures
      var f := FieldsOf(RegisterAddress(r));
      f.sel == SUB_SEL_REGFILE && f.aligned && f.regInBounds && f.reg == r
  {
    assert (0x2000 + 4 * r) % 0x1000 == 4 * r;
  }

  lemma FaultFields(mode: FaultMode, r: RegIndex)
    ensures
      var f := FieldsOf(FaultAddress(mode, r));
      f.sel == SUB_SEL_FAULT && f.aligned && f.faultForm && f.reg == r && f.mode == mode
  {
    var sub := 0x100 * mode + 4 * r;
    assert (0x3000 + sub) % 0x1000 == sub;
    assert sub / 4 == 0x40 * mode + r;
    assert sub / 0x80 == 2 * mode;
  }

  /** The decoder's field tests recognise exactly the constructed addresses. */
  lemma RegisterDecode(a: UsedAddr)
    ensures RegfileReadValid(FieldsOf(a)) <==> NamesRegister(a)
    ensures NamesRegister(a) ==> a == RegisterAddress(FieldsOf(a).reg)
  {
    var f := FieldsOf(a);
    if RegfileReadValid(f) {
      assert a == 0x2000 + f.sub && f.sub < 0x80 && f.sub == 4 * f.reg;
      assert a == RegisterAddress(f.reg);
    }
    if r: RegIndex :| a == RegisterAddress(r) {
      RegisterFields(r);
    }
  }

  lemma FaultDecode(a: UsedAddr)
    ensures var f := FieldsOf(a);
      f.sel == SUB_SEL_FAULT && f.aligned && f.faultForm && f.reg != 0 <==> NamesFault(a)
    ensures NamesFault(a) ==> a == FaultAddress(FieldsOf(a).mode, FieldsOf(a).reg)
  {
    var f := FieldsOf(a);
    if f.sel == SUB_SEL_FAULT && f.aligned && f.faultForm && f.reg != 0 {
      FaultSub(f.sub, f.sub / 0x80, f.reg, f.mode);
      assert a == FaultAddress(f.mode, f.reg);
    }
    if mode: FaultMode, r: RegIndex :| a == FaultAddress(mode, r) && r != 0 {
      FaultFields(mode, r);
    }
  }

  lemma FaultSub(sub: nat, upper: nat, reg: nat, mode: nat)
    requires upper == sub / 0x80 && sub / 0x400 == 0 && upper % 2 == 0 && sub % 4 == 0
    requires reg == sub / 4 % 32 && mode == sub / 0x100 % 4
    ensures sub == 0x100 * mode + 4 * reg
  {
    assert sub / 0x100 == upper / 2;
    assert sub / 4 / 32 == upper;
  }

  lemma ControlDecode(a: UsedAddr)
    ensures var f := FieldsOf(a); f.sel == SUB_SEL_CTRL ==> a == ControlAddress(f.sub)
    ensures forall sub :: 0 <= sub < 0x1000 && a == ControlAddress(sub) ==>
      FieldsOf(a).sel == SUB_SEL_CTRL && FieldsOf(a).sub == sub
    ensures FieldsOf(a).aligned <==> FieldsOf(a).sub % 4 == 0
  {
  }

  // ----- Invariant -----

  /** The operation at `f` succeeds as a read; as a write with this strobe. */
  predicate ReadOk(f: Fields) {
    (f.sel == SUB_SEL_CTRL && ControlReadKnown(f.sub)) || RegfileReadValid(f)
  }

  predicate WriteOk(f: Fields, strobe: Strobe) {
    || (f.sel == SUB_SEL_CTRL && ControlWriteKnown(f.sub) && strobe == 15)
    || RegfileWriteValid(f, strobe) || FaultWriteValid(f, strobe)
  }

  lemma ReadOkExact(a: UsedAddr)
    ensures ReadOk(FieldsOf(a)) <==> Readable(a)
  {
    RegisterDecode(a);
    ControlDecode(a);
    ReadLabelIsStep();
  }

  lemma WriteOkExact(a: UsedAddr, strobe: Strobe)
    ensures WriteOk(FieldsOf(a), strobe) <==> Writable(a, strobe)
  {
    RegisterDecode(a);
    RegisterFields(0);
    FaultDecode(a);
    ControlDecode(a);
  }

  predicate CmInvFor(c: CmRegs, f: Fields) {
    && (f.sel == SUB_SEL_CTRL && (ControlReadKnown(f.sub) || ControlWriteKnown(f.sub)) ==> f.aligned)
    && (c.state == READ_ISSUE || c.state == WRITE_RECV_ADDR || c.state == WRITE_RECV_DATA || c.state == WRITE_ISSUE ==>
          !c.controlAddressValid)
    && (c.state == READ_WAIT_DONE && f.sel == SUB_SEL_CTRL ==> (c.controlAddressValid <==> ControlReadKnown(f.sub)))
    && (c.state == WRITE_WAIT_DONE && f.sel == SUB_SEL_CTRL ==> (c.controlAddressValid <==> ControlWriteKnown(f.sub)))
    && (c.state == READ_RESP ==> (c.opSuccessful <==> ReadOk(f)))
    && (c.state == WRITE_RESP ==> (c.opSuccessful <==> WriteOk(f, c.strobe)))
  }

  predicate CmInv(c: CmRegs) {
    CmInvFor(c, FieldsOf(c.address))
  }

  lemma KnownIsAligned(a: UsedAddr)
    ensures var f := FieldsOf(a); ControlReadKnown(f.sub) || ControlWriteKnown(f.sub) ==> f.aligned
  {
    hide Or;
    ReadLabelIsStep();
  }

  lemma CmInvKept(c: CmRegs, m: FromMaster, k: FromCore)
    requires CmInv(c)
    ensures CmInv(CmNext(c, m, k))
  {
    hide FieldsOf, StartStopStepLabel, CmInvFor;
    var n := CmNext(c, m, k);
    KnownIsAligned(n.address);
    CmInvKeptFor(c, m, k, FieldsOf(c.address), FieldsOf(n.address));
  }

  lemma CmInvKeptFor(c: CmRegs, m: FromMaster, k: FromCore, f: Fields, f': Fields)
    requires CmInvFor(c, f)
    requires AddressNext(c, m) == c.address ==> f' == f
    requires ControlReadKnown(f'.sub) || ControlWriteKnown(f'.sub) ==> f'.aligned
    ensures CmInvFor(CmAdvance(c, m, k, f), f')
  {
    hide FieldsOf, StartStopStepLabel;
  }

  lemma ResetCmInv()
    ensures CmInv(RESET_CM)
  {
    KnownIsAligned(0);
  }

  // ----- One clock -----

  /** The response says OKAY exactly for the addresses of the map. */
  lemma ResponseExact(c: CmRegs)
    requires CmInv(c)
    ensures CmOutputs(c).rvalid ==> (CmOutputs(c).rresp == OKAY <==> Readable(c.address))
    ensures CmOutputs(c).bvalid ==> (CmOutputs(c).bresp == OKAY <==> Writable(c.address, c.strobe))
    ensures CmOutputs(c).rvalid && CmOutputs(c).rresp == SLVERR ==> CmOutputs(c).rdata == 0
  {
    ReadOkExact(c.address);
    WriteOkExact(c.address, c.strobe);
  }

  /** A response on offer does not change until it is accepted. */
  lemma ResponseStable(c: CmRegs, m: FromMaster, k: FromCore)
    requires (CmOutputs(c).rvalid && !m.rready) || (CmOutputs(c).bvalid && !m.bready)
    ensures CmOutputs(CmNext(c, m, k)) == CmOutputs(c)
  {
  }

  /** Enable pulses: which, when, and with what. */
  lemma EnablesExact(c: CmRegs)
    ensures CmControl(c).regfile.enable <==>
      c.state == WRITE_ISSUE && c.strobe == 15 && NamesRegister(c.address) && c.address != RegisterAddress(0)
    ensures CmControl(c).fault.enable <==> c.state == WRITE_ISSUE && c.strobe == 15 && NamesFault(c.address)
    ensures CmControl(c).pcWe <==> c.state == WRITE_ISSUE && c.address == ControlAddress(CTRL_REG_PC)
    ensures
      var k := CmControl(c);
      && (k.regfile.enable ==> c.address == RegisterAddress(k.regfile.addr) && k.regfile.data == c.writeData)
      && (k.fault.enable ==> c.address == FaultAddress(k.fault.mode, k.fault.addr) && k.fault.mask == c.writeData)
      && (k.pcWe ==> k.pcWriteData == c.writeData)
  {
    RegisterDecode(c.address);
    RegisterFields(0);
    FaultDecode(c.address);
    ControlDecode(c.address);
  }

  function Pulses(k: Control): nat {
    Count(k.regfile.enable) + Count(k.fault.enable) + Count(k.pcWe)
  }

  /** At most one enable at a time, and none outside the issue clock. */
  lemma OnePulse(c: CmRegs)
    ensures Pulses(CmControl(c)) <= Count(c.state == WRITE_ISSUE)
    ensures c.state == WRITE_ISSUE && FieldsOf(c.address).sel != SUB_SEL_CTRL ==>
      (Pulses(CmControl(c)) == 1 <==> WriteOk(FieldsOf(c.address), c.strobe))
  {
  }

  // ----- Every run -----

  datatype CmIn = CmIn(m: FromMaster, k: FromCore)

  function CmRun(c: CmRegs, inputs: seq<CmIn>): CmRegs
    decreases |inputs|
  {
    if inputs == [] then c else CmRun(CmNext(c, inputs[0].m, inputs[0].k), inputs[1..])
  }

  /** Accepted handshakes on each channel, and enable pulses towards the core. */
  datatype CmTally = CmTally(ar: nat, r: nat, aw: nat, w: nat, b: nat, issues: nat, pulses: nat)

  function CmTallied(c: CmRegs, m: FromMaster): CmTally {
    var o := CmOutputs(c);
    CmTally(Count(o.arready && m.arvalid), Count(o.rvalid && m.rready), Count(o.awready && m.awvalid),
            Count(o.wready && m.wvalid), Count(o.bvalid && m.bready), Count(c.state == WRITE_ISSUE), Pulses(CmControl(c)))
  }

  function CmAdd(x: CmTally, y: CmTally): CmTally {
    CmTally(x.ar + y.ar, x.r + y.r, x.aw + y.aw, x.w + y.w, x.b + y.b, x.issues + y.issues, x.pulses + y.pulses)
  }

  function CmTotals(c: CmRegs, inputs: seq<CmIn>): CmTally
    decreases |inputs|
  {
    if inputs == [] then CmTally(0, 0, 0, 0, 0, 0, 0)
    else CmAdd(CmTallied(c, inputs[0].m), CmTotals(CmNext(c, inputs[0].m, inputs[0].k), inputs[1..]))
  }

  predicate Reading(c: CmRegs) {
    c.state == READ_ISSUE || c.state == READ_WAIT_DONE || c.state == READ_RESP
  }

  predicate Addressed(c: CmRegs) {
    c.state == WRITE_RECV_DATA || Written(c)
  }

  predicate Written(c: CmRegs) {
    c.state == WRITE_ISSUE || c.state == WRITE_WAIT_DONE || c.state == WRITE_RESP
  }

  /** Accepted requests are answered once each; each accepted write is issued once. */
  predicate CmBalanced(c: CmRegs, t: CmTally, n: CmRegs) {
    && Count(Reading(c)) + t.ar == t.r + Count(Reading(n))
    && Count(Addressed(c)) + t.aw == t.b + Count(Addressed(n))
    && Count(Written(c)) + t.w == t.b + Count(Written(n))
    && Count(c.state == WRITE_ISSUE) + t.w == t.issues + Count(n.state == WRITE_ISSUE)
    && t.pulses <= t.issues
  }

  lemma CmClockBalanced(c: CmRegs, m: FromMaster, k: FromCore)
    ensures CmBalanced(c, CmTallied(c, m), CmNext(c, m, k))
  {
    hide FieldsOf, CmControl, CmOutputs, StartStopStepLabel;
    OnePulse(c);
    CmClockCounts(c, m, CmNext(c, m, k).state, Pulses(CmControl(c)));
  }

  lemma CmClockCounts(c: CmRegs, m: FromMaster, st: CmState, pulses: nat)
    requires st == CmNextState(c.state, m) && pulses <= Count(c.state == WRITE_ISSUE)
    ensures
      var o := CmOutputs(c);
      var n := c.(state := st);
      CmBalanced(c, CmTally(Count(o.arready && m.arvalid), Count(o.rvalid && m.rready), Count(o.awready && m.awvalid),
                            Count(o.wready && m.wvalid), Count(o.bvalid && m.bready), Count(c.state == WRITE_ISSUE), pulses), n)
  {
  }

  /** For every master: no response is lost, repeated or invented, and no write pulses twice. */
  lemma {:induction false} CmRunBalanced(c: CmRegs, inputs: seq<CmIn>)
    requires CmInv(c)
    ensures CmInv(CmRun(c, inputs)) && CmBalanced(c, CmTotals(c, inputs), CmRun(c, inputs))
    decreases |inputs|
  {
    hide CmNext, CmTallied, CmInv;
    if inputs != [] {
      CmInvKept(c, inputs[0].m, inputs[0].k);
      CmClockBalanced(c, inputs[0].m, inputs[0].k);
      CmRunBalanced(CmNext(c, inputs[0].m, inputs[0].k), inputs[1..]);
    }
  }

  // ----- START, STOP and STEP -----

  /** pc_stall one clock after the issue of a write, and two clocks after. */
  function StallAfterIssue(a: UsedAddr, stall: bool): bool {
    if a == ControlAddress(CTRL_REG_START) || a == ControlAddress(CTRL_REG_STEP) then false
    else a == ControlAddress(CTRL_REG_STOP) || stall
  }

  function StallAfterWrite(a: UsedAddr, stall: bool): bool {
    a == ControlAddress(CTRL_REG_STEP) || StallAfterIssue(a, stall)
  }

  /** A write takes two clocks, acts whatever its strobe, and only its response tells a partial strobe. */
  lemma WriteActs(c: CmRegs, i: CmIn, i': CmIn)
    requires CmInv(c) && c.state == WRITE_ISSUE
    ensures
      var c1 := CmNext(c, i.m, i.k);
      var c2 := CmNext(c1, i'.m, i'.k);
      && c1.state == WRITE_WAIT_DONE && c1.pcStall == StallAfterIssue(c.address, c.pcStall)
      && c2.state == WRITE_RESP && c2.pcStall == StallAfterWrite(c.address, c.pcStall)
      && (CmOutputs(c2).bresp == OKAY <==> Writable(c.address, c.strobe))
  {
    hide FieldsOf, StartStopStepLabel, CmInvFor, Writable;
    var c1 := CmNext(c, i.m, i.k);
    ControlDecode(c.address);
    CmInvKept(c, i.m, i.k);
    CmInvKept(c1, i'.m, i'.k);
    ResponseExact(CmNext(c1, i'.m, i'.k));
  }

  /** Outside the control registers, a write is answered OKAY exactly when it pulsed an enable. */
  lemma OkayIffPulsed(c: CmRegs, i: CmIn, i': CmIn)
    requires CmInv(c) && c.state == WRITE_ISSUE && FieldsOf(c.address).sel != SUB_SEL_CTRL
    ensures
      var c2 := CmNext(CmNext(c, i.m, i.k), i'.m, i'.k);
      CmOutputs(c2).bvalid && (CmOutputs(c2).bresp == OKAY <==> Pulses(CmControl(c)) == 1)
  {
    hide CmNext, CmInv, FieldsOf, CmControl, WriteOk, Writable;
    WriteActs(c, i, i');
    WriteOkExact(c.address, c.strobe);
    OnePulse(c);
  }
}
