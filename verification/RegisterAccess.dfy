/** Reads and writes of the core's registers and pc through the control module. */
module RegisterAccess {
  import opened Words
  import opened Isa
  import opened ByteLanes
  import opened RegisterFile
  import opened Core
  import opened Tokens
  import opened Machine
  import opened Refinement
  import opened Handshakes
  import opened Stepping
  import opened SocControl
  import opened Transactions
  import opened CmAndCore

  // ----- What was accepted is what is used -----

  /** The request last accepted on the slave port, by its handshakes alone. */
  datatype Accepted = Accepted(addr: UsedAddr, data: Word, strobe: Strobe)

  function AcceptedNext(q: Accepted, o: ToMaster, m: FromMaster): Accepted {
    Accepted(
      if o.arready && m.arvalid then m.araddr % 0x1_0000 else if o.awready && m.awvalid then m.awaddr % 0x1_0000 else q.addr,
      if o.wready && m.wvalid then m.wdata else q.data,
      if o.wready && m.wvalid then m.wstrb else q.strobe)
  }

  predicate Latched(c: CmRegs, q: Accepted) {
    && (Reading(c) || Addressed(c) ==> c.address == q.addr)
    && (Written(c) ==> c.writeData == q.data && c.strobe == q.strobe)
  }

  /** From acceptance to response the module works on the accepted request and no other. */
  lemma LatchedKept(c: CmRegs, q: Accepted, m: FromMaster, k: FromCore)
    requires Latched(c, q)
    ensures Latched(CmNext(c, m, k), AcceptedNext(q, CmOutputs(c), m))
  {
  }

  function LastAccepted(c: CmRegs, q: Accepted, inputs: seq<CmIn>): Accepted
    decreases |inputs|
  {
    if inputs == [] then q
    else LastAccepted(CmNext(c, inputs[0].m, inputs[0].k), AcceptedNext(q, CmOutputs(c), inputs[0].m), inputs[1..])
  }

  lemma {:induction false} LatchedInRuns(c: CmRegs, q: Accepted, inputs: seq<CmIn>)
    requires Latched(c, q)
    ensures Latched(CmRun(c, inputs), LastAccepted(c, q, inputs))
    decreases |inputs|
  {
    hide CmNext, CmOutputs, AcceptedNext, Latched;
    if inputs != [] {
      LatchedKept(c, q, inputs[0].m, inputs[0].k);
      LatchedInRuns(CmNext(c, inputs[0].m, inputs[0].k), AcceptedNext(q, CmOutputs(c), inputs[0].m), inputs[1..]);
    }
  }

  // ----- Reads -----

  /** The value an address reads as in this clock. */
  ghost predicate ReadsAs(x: Chip, i: ChipIn, v: Word) {
    var a := x.cm.address;
    && (forall r: RegIndex :: a == RegisterAddress(r) ==> v == ReadReg(x.sys.core.regs, r))
    && (a == ControlAddress(CTRL_REG_STATUS) ==> v == Flag(x.cm.pcStall))
    && (a == ControlAddress(CTRL_REG_PC) ==> v == x.sys.core.pc)
    && (a == ControlAddress(CTRL_REG_DBG_VECTOR) ==> v == i.debugVector)
    && (a == ControlAddress(CTRL_REG_STEP) || !Readable(a) ==> v == 0)
  }

  function IssueValue(c: CmRegs, f: Fields, regs: Regs, pc: Word, debugVector: Word): Word {
    if f.sel == SUB_SEL_CTRL then ControlReadDataNext(c, f, FromCore(pc, 0, debugVector))
    else if RegfileReadValid(f) then ReadReg(regs, f.reg)
    else 0
  }

  lemma IssueValueReads(x: Chip, i: ChipIn, f: Fields)
    requires x.cm.state == READ_ISSUE && f == FieldsOf(x.cm.address)
    ensures ReadsAs(x, i, IssueValue(x.cm, f, x.sys.core.regs, x.sys.core.pc, i.debugVector))
  {
    RegisterDecode(x.cm.address);
    ControlDecode(x.cm.address);
    ReadLabelIsStep();
    forall r: RegIndex | x.cm.address == RegisterAddress(r)
      ensures f.sel == SUB_SEL_REGFILE && f.reg == r && RegfileReadValid(f)
    {
      RegisterFields(r);
    }
  }

  /** Two register stages later, the response carries the value of the issue clock. */
  lemma ReadPipeline(c: CmRegs, m: FromMaster, k: FromCore, m': FromMaster, k': FromCore, f: Fields, regs: Regs)
    requires c.state == READ_ISSUE && CmInvFor(c, f) && f == FieldsOf(c.address)
    requires k'.regfileReadData == ReadReg(regs, CmControl(c).regfile.addr)
    ensures
      var c2 := CmNext(CmNext(c, m, k), m', k');
      && CmOutputs(c2).rvalid && (CmOutputs(c2).rresp == OKAY <==> ReadOk(f))
      && CmOutputs(c2).rdata == if ReadOk(f) then IssueValue(c, f, regs, k.pc, k.debugVector) else 0
  {
  }

  lemma UnreadableIsZero(x: Chip, i: ChipIn, f: Fields)
    requires x.cm.state == READ_ISSUE && f == FieldsOf(x.cm.address) && !ReadOk(f)
    ensures ReadsAs(x, i, 0)
  {
    ReadOkExact(x.cm.address);
  }

  /**
   * A read returns the value its address had in the issue clock, whatever the core
   * and the master do in the two clocks that follow.
   */
  lemma ReadReturnsIssueValue(x: Chip, i: ChipIn, i': ChipIn)
    requires CmInv(x.cm) && x.cm.state == READ_ISSUE
    ensures
      var o := CmOutputs(ChipNext(ChipNext(x, i), i').cm);
      o.rvalid && (o.rresp == OKAY <==> Readable(x.cm.address)) && ReadsAs(x, i, o.rdata)
  {
    hide CmNext, CmOutputs, SysNext, Readable, CmControl, ReadsAs, IssueValue, ReadOk, FieldsOf, CmInvFor;
    var x1, f := ChipNext(x, i), FieldsOf(x.cm.address);
    ExtraReadSamples(x, i);
    ReadPipeline(x.cm, i.master, ToCm(x.sys, i), i'.master, ToCm(x1.sys, i'), f, x.sys.core.regs);
    ReadOkExact(x.cm.address);
    if ReadOk(f) {
      IssueValueReads(x, i, f);
    } else {
      UnreadableIsZero(x, i, f);
    }
  }

  lemma ExtraReadSamples(x: Chip, i: ChipIn)
    ensures ChipNext(x, i).sys.core.extraReadData == ReadReg(x.sys.core.regs, CmControl(x.cm).regfile.addr)
  {
    ChipSys(x, i);
  }

  // ----- Writes to an idle core -----

  /** What an issued write does to the registers and the pc of an idle core. */
  ghost predicate WritesAs(c: CmRegs, before: Arch, after: Arch) {
    && after.mem == before.mem
    && (forall r: RegIndex :: c.address == RegisterAddress(r) && c.strobe == 15 ==>
          after.regs == WriteReg(before.regs, r, c.writeData))
    && (forall mode: FaultMode, r: RegIndex :: c.address == FaultAddress(mode, r) && c.strobe == 15 ==>
          after.regs == WriteReg(before.regs, r, Inject(mode, ReadReg(before.regs, r), c.writeData)))
    && (!(c.strobe == 15 && (NamesRegister(c.address) || NamesFault(c.address))) ==> after.regs == before.regs)
    && after.pc == if c.address == ControlAddress(CTRL_REG_PC) && c.pcStall then c.writeData else before.pc
  }

  lemma IdleWrite(x: Chip, i: ChipIn)
    requires SysInv(x.sys) && SlaveLegal(x.sys.slave, i.mv) && x.cm.state == WRITE_ISSUE && Boundary(x.sys.core)
    ensures SysInv(ChipNext(x, i).sys) && WritesAs(x.cm, Abs(x.sys), Abs(ChipNext(x, i).sys))
  {
    hide CmNext, SysNext, SysInv, Abs, CmControl, ToSys, SlaveLegal, WritesAs;
    ChipSys(x, i);
    ToSysControl(x.cm, i);
    IdleStep(x.sys, ToSys(x.cm, i));
    ControlWrites(x.cm, Abs(x.sys));
  }

  /** The effect of the control module's outputs on an idle core. */
  ghost function Effect(a: Arch, k: Control): Arch {
    Arch(if k.pcStall && k.pcWe then k.pcWriteData else a.pc, NextRegs(a.regs, WritePort(false, 0, 0), k.regfile, k.fault), a.mem)
  }

  lemma IdleStep(s: Sys, i: SysIn)
    requires SysInv(s) && SlaveLegal(s.slave, i.mv) && Boundary(s.core)
    ensures SysInv(SysNext(s, i)) && Abs(SysNext(s, i)) == Effect(Abs(s), i.cm)
  {
    IdleConditions(s, i);
    RefinementStep(s, i);
  }

  lemma IdleConditions(s: Sys, i: SysIn)
    requires SysInv(s) && Boundary(s.core)
    ensures Undisturbed(s, i) && !Retires(s, i) && External(Abs(s), s, i) == Effect(Abs(s), i.cm)
  {
  }

  lemma ControlWrites(c: CmRegs, a: Arch)
    requires c.state == WRITE_ISSUE
    ensures WritesAs(c, a, Effect(a, CmControl(c)))
  {
    hide FieldsOf, RegisterAddress, FaultAddress, Inject;
    var k := CmControl(c);
    EnablesExact(c);
    forall r: RegIndex | c.address == RegisterAddress(r) && c.strobe == 15
      ensures Effect(a, k).regs == WriteReg(a.regs, r, c.writeData)
    {
      RegisterFields(r);
      RegisterFields(0);
    }
    forall mode: FaultMode, r: RegIndex | c.address == FaultAddress(mode, r) && c.strobe == 15
      ensures Effect(a, k).regs == WriteReg(a.regs, r, Inject(mode, ReadReg(a.regs, r), c.writeData))
    {
      FaultFields(mode, r);
    }
  }

  /** A register written while parked reads back as written, for as long as the core stays parked. */
  lemma WriteThenRead(x: Chip, i: ChipIn, inputs: seq<ChipIn>, r: RegIndex, i1: ChipIn, i2: ChipIn)
    requires SysInv(x.sys) && SlaveLegal(x.sys.slave, i.mv) && Parked(x)
    requires x.cm.state == WRITE_ISSUE && x.cm.address == RegisterAddress(r) && x.cm.strobe == 15
    requires
      var y := ChipNext(x, i);
      && HoldsStallRun(y, inputs) && SlaveLegalRun(y.sys, CoreSide(y, inputs))
      && var z := ChipRun(y, inputs); CmInv(z.cm) && z.cm.state == READ_ISSUE && z.cm.address == RegisterAddress(r)
    ensures
      var o := CmOutputs(ChipNext(ChipNext(ChipRun(ChipNext(x, i), inputs), i1), i2).cm);
      o.rvalid && o.rresp == OKAY && o.rdata == if r == 0 then 0 else x.cm.writeData
  {
    hide ChipNext, ChipRun, SysInv, SlaveLegal, HoldsStallRun, SlaveLegalRun, CoreSide, CmInv, Boundary,
      CmOutputs, CmNext, SysNext, Abs;
    var y := ChipNext(x, i);
    var z := ChipRun(y, inputs);
    IdleWrite(x, i);
    ParkedWriteStays(x, i, r);
    StaysFrozen(y, inputs);
    AbsRegs(y.sys);
    AbsRegs(z.sys);
    ReadReturnsIssueValue(z, i1, i2);
  }

  lemma AbsRegs(s: Sys)
    ensures Abs(s).regs == s.core.regs
  {
  }

  lemma ParkedWriteStays(x: Chip, i: ChipIn, r: RegIndex)
    requires SysInv(x.sys) && Parked(x) && x.cm.state == WRITE_ISSUE && x.cm.address == RegisterAddress(r)
    ensures Parked(ChipNext(x, i))
  {
    hide CmNext, SysNext, SysInv, Boundary, TokenInv, SysInvFor;
    SysInvHandshake(x.sys);
    StallMoves(x.cm, i.master, ToCm(x.sys, i));
    ToSysControl(x.cm, i);
    StalledStays(x.sys, ToSys(x.cm, i));
    ChipSys(x, i);
    RegisterFields(r);
    ControlDecode(x.cm.address);
  }
}
