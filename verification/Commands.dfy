/**
 * From a firmware command to the chip: the bus access of each command does at the
 * control module and the core what the command is named for.
 */
module Commands {
  import opened Words
  import opened Isa
  import opened RegisterFile
  import opened Machine
  import opened Refinement
  import opened Handshakes
  import opened SocControl
  import opened Transactions
  import opened CmAndCore
  import opened RegisterAccess
  import opened Firmware
  import opened Console

  /** The one access a command makes to the control module. */
  function AccessOf(c: Command, base: Word, bus: Bus, log: seq<Access>): Access
    requires c.Start? || c.Stop? || c.Step? || c.GetPc? || c.SetPc? || c.GetReg? || c.SetReg? || c.FaultReg?
  {
    CarryOut(c, base, bus, log).log[|log|]
  }

  lemma ControlAccess(base: Word, sub: nat)
    requires Base64K(base) && sub < 0x1000
    ensures BusAddress(base, ControlRegAddr(sub)) % 0x1_0000 == ControlAddress(sub)
  {
    hide BusAddress, ControlRegAddr, FaultRequest, RegfileAddr;
    BuiltAddresses(0, 0, sub);
    BaseIgnored(base, ControlAddress(sub));
  }

  lemma RegisterAddressed(base: Word, r: RegIndex)
    requires Base64K(base)
    ensures BusAddress(base, RegfileAddr(r)) % 0x1_0000 == RegisterAddress(r)
  {
    hide BusAddress, RegfileAddr, FaultRequest, ControlRegAddr;
    BuiltAddresses(0, r, 0);
    BaseIgnored(base, RegisterAddress(r));
  }

  /** START leaves the core running, STOP stalled, STEP stalled after one clock of release; all are answered OKAY. */
  lemma StartStopStepAct(c: Command, base: Word, bus: Bus, log: seq<Access>, x: Chip, i: ChipIn, i': ChipIn)
    requires Base64K(base) && CmInv(x.cm) && (c.Start? || c.Stop? || c.Step?)
    requires Requests(x.cm, AccessOf(c, base, bus, log).addr, AccessOf(c, base, bus, log).value)
    ensures
      var x1 := ChipNext(x, i);
      var x2 := ChipNext(x1, i');
      && x1.cm.pcStall == c.Stop? && x2.cm.pcStall == !c.Start?
      && CmOutputs(x2.cm).bvalid && CmOutputs(x2.cm).bresp == OKAY
      && (c.Step? ==> IssuesStep(x.cm))
  {
    hide BusAddress, ControlRegAddr, FieldsOf, CmNext, SysNext, CmInv;
    ControlAccess(base, CTRL_REG_START);
    ControlAccess(base, CTRL_REG_STOP);
    ControlAccess(base, CTRL_REG_STEP);
    WriteActs(x.cm, CmIn(i.master, ToCm(x.sys, i)), CmIn(i'.master, ToCm(ChipNext(x, i).sys, i')));
  }

  /** SET_REG changes that register of an idle core and nothing else; x0 is refused. */
  lemma SetRegActs(r: RegIndex, v: Word, base: Word, bus: Bus, log: seq<Access>, x: Chip, i: ChipIn, i': ChipIn)
    requires Base64K(base) && CmInv(x.cm) && SysInv(x.sys) && SlaveLegal(x.sys.slave, i.mv) && Boundary(x.sys.core)
    requires
      var access := AccessOf(SetReg(r, v), base, bus, log);
      Requests(x.cm, access.addr, access.value)
    ensures Abs(ChipNext(x, i).sys) == Abs(x.sys).(regs := WriteReg(Abs(x.sys).regs, r, v))
    ensures CmOutputs(ChipNext(ChipNext(x, i), i').cm).bresp == OKAY <==> r != 0
  {
    hide BusAddress, RegfileAddr, FieldsOf, CmNext, SysNext, CmInv, SysInv, Abs, CmOutputs, SlaveLegal,
      Boundary, NamesFault, Inject, FaultAddress;
    RegisterAddressed(base, r);
    RegisterNotOther(r);
    IdleWrite(x, i);
    WriteActs(x.cm, CmIn(i.master, ToCm(x.sys, i)), CmIn(i'.master, ToCm(ChipNext(x, i).sys, i')));
  }

  lemma RegisterNotOther(r: RegIndex)
    ensures NamesRegister(RegisterAddress(r)) && !NamesFault(RegisterAddress(r))
    ensures RegisterAddress(r) != ControlAddress(CTRL_REG_PC)
    ensures Writable(RegisterAddress(r), 15) <==> r != 0
  {
    hide FieldsOf;
    RegisterFields(r);
    RegisterFields(0);
    FaultDecode(RegisterAddress(r));
    ControlDecode(RegisterAddress(r));
  }

  /** SET_PC sets the pc of an idle, stalled core and nothing else. */
  lemma SetPcActs(v: Word, base: Word, bus: Bus, log: seq<Access>, x: Chip, i: ChipIn, i': ChipIn)
    requires Base64K(base) && CmInv(x.cm) && SysInv(x.sys) && SlaveLegal(x.sys.slave, i.mv) && Parked(x)
    requires
      var access := AccessOf(SetPc(v), base, bus, log);
      Requests(x.cm, access.addr, access.value)
    ensures Abs(ChipNext(x, i).sys) == Abs(x.sys).(pc := v)
    ensures CmOutputs(ChipNext(ChipNext(x, i), i').cm).bresp == OKAY
  {
    hide BusAddress, ControlRegAddr, FieldsOf, CmNext, SysNext, CmInv, SysInv, Abs, CmOutputs, SlaveLegal,
      Boundary, NamesFault, NamesRegister, Inject, FaultAddress, RegisterAddress;
    ControlAccess(base, CTRL_REG_PC);
    PcNotOther();
    IdleWrite(x, i);
    WriteActs(x.cm, CmIn(i.master, ToCm(x.sys, i)), CmIn(i'.master, ToCm(ChipNext(x, i).sys, i')));
  }

  lemma PcNotOther()
    ensures !NamesRegister(ControlAddress(CTRL_REG_PC)) && !NamesFault(ControlAddress(CTRL_REG_PC))
    ensures Writable(ControlAddress(CTRL_REG_PC), 15)
  {
    RegisterDecode(ControlAddress(CTRL_REG_PC));
    FaultDecode(ControlAddress(CTRL_REG_PC));
  }

  /** GET_REG and GET_PC read the register or pc of the issue clock. */
  lemma GettersRead(c: Command, base: Word, bus: Bus, log: seq<Access>, x: Chip, i: ChipIn, i': ChipIn)
    requires Base64K(base) && CmInv(x.cm) && (c.GetPc? || c.GetReg?)
    requires x.cm.state == READ_ISSUE && x.cm.address == AccessOf(c, base, bus, log).addr % 0x1_0000
    ensures
      var o := CmOutputs(ChipNext(ChipNext(x, i), i').cm);
      && o.rvalid && o.rresp == OKAY
      && o.rdata == if c.GetPc? then x.sys.core.pc else ReadReg(x.sys.core.regs, c.reg)
  {
    hide BusAddress, ControlRegAddr, RegfileAddr, FieldsOf, CmNext, SysNext, CmInv, CmOutputs, ReadReg;
    ControlAccess(base, CTRL_REG_PC);
    if c.GetReg? {
      RegisterAddressed(base, c.reg);
      RegisterNotOther(c.reg);
    }
    ReadReturnsIssueValue(x, i, i');
  }

  /** FAULT_REG injects its fault into that register of an idle core and nothing else. */
  lemma FaultRegActs(r: RegIndex, mode: FaultMode, mask: Word, base: Word, bus: Bus, log: seq<Access>,
                     x: Chip, i: ChipIn, i': ChipIn)
    requires Base64K(base) && CmInv(x.cm) && SysInv(x.sys) && SlaveLegal(x.sys.slave, i.mv) && Boundary(x.sys.core)
    requires
      var access := AccessOf(FaultReg(r, mode, mask), base, bus, log);
      Requests(x.cm, access.addr, access.value)
    ensures
      Abs(ChipNext(x, i).sys)
        == Abs(x.sys).(regs := WriteReg(Abs(x.sys).regs, r, Inject(mode, ReadReg(Abs(x.sys).regs, r), mask)))
    ensures CmOutputs(ChipNext(ChipNext(x, i), i').cm).bresp == OKAY <==> r != 0
  {
    hide BusAddress, FaultRequest, FieldsOf, CmNext, SysNext, CmInv, SysInv, Abs, CmOutputs, SlaveLegal,
      Boundary, Inject;
    FaultInjected(x, i, i', base, r, mask, mode);
  }
}
