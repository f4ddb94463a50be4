/**
 * The address map and the bus accesses of the firmware with every address written out, as
 * soc_control.v and control_definitions.h each write them.
 */
module AddressMap {
  import opened Words
  import opened Isa
  import opened ByteLanes
  import opened RegisterFile
  import opened SocControl
  import opened Transactions
  import opened CmAndCore
  import opened RegisterAccess
  import opened Firmware
  import opened Console

  // ----- The slave's side -----

  /** The 32 words from 0x2000 on. */
  predicate RegisterSlot(a: UsedAddr) {
    0x2000 <= a < 0x2080 && a % 4 == 0
  }

  /** The first 32 words of each of the four pages from 0x3000 on. */
  predicate FaultSlot(a: UsedAddr) {
    0x3000 <= a < 0x3400 && a % 0x100 < 0x80 && a % 4 == 0
  }

  function SlotRegister(a: UsedAddr): RegIndex {
    a % 0x80 / 4
  }

  lemma RegisterSlots(a: UsedAddr)
    ensures NamesRegister(a) <==> RegisterSlot(a)
    ensures RegisterSlot(a) ==> a == RegisterAddress(SlotRegister(a))
    ensures RegisterAddress(0) == 0x2000
  {
    if RegisterSlot(a) {
      assert a == RegisterAddress(SlotRegister(a));
    }
  }

  lemma FaultSlots(a: UsedAddr)
    ensures NamesFault(a) <==> FaultSlot(a) && a % 0x80 != 0
    ensures FaultSlot(a) ==> a == FaultAddress((a - 0x3000) / 0x100, SlotRegister(a))
  {
    if FaultSlot(a) {
      FaultSlotFields(a, (a - 0x3000) / 0x100, a % 0x100);
      assert a == FaultAddress((a - 0x3000) / 0x100, SlotRegister(a));
    }
    if mode: FaultMode, r: RegIndex :| a == FaultAddress(mode, r) && r != 0 {
      QuotientUnique(a, 0x30 + mode, 4 * r, 0x100);
      QuotientUnique(a, 0x60 + 2 * mode, 4 * r, 0x80);
    }
  }

  lemma FaultSlotFields(a: UsedAddr, page: nat, low: nat)
    requires FaultSlot(a) && page == (a - 0x3000) / 0x100 && low == a % 0x100
    ensures a == 0x3000 + 0x100 * page + low && page < 4 && low % 4 == 0 && SlotRegister(a) == low / 4 && a % 0x80 == low
  {
    assert a == (0x30 + page) * 0x100 + low;
    QuotientUnique(a, 0x60 + 2 * page, low, 0x80);
  }

  lemma OneFaultSlot(m: FaultMode, r: RegIndex, m': FaultMode, r': RegIndex)
    requires FaultAddress(m, r) == FaultAddress(m', r')
    ensures m == m' && r == r'
  {
  }

  lemma WriteEnables(c: CmRegs)
    requires c.state == WRITE_ISSUE
    ensures
      var a, k := c.address, CmControl(c);
      && (k.pcWe <==> a == 0x1010)
      && (k.regfile.enable <==> c.strobe == 15 && RegisterSlot(a) && a != 0x2000)
      && (k.fault.enable <==> c.strobe == 15 && FaultSlot(a) && a % 0x80 != 0)
      && (k.pcWe ==> k.pcWriteData == c.writeData)
      && (k.regfile.enable ==> k.regfile.addr == SlotRegister(a) && k.regfile.data == c.writeData)
      && (k.fault.enable ==>
            k.fault.addr == SlotRegister(a) && k.fault.mode == (a - 0x3000) / 0x100 && k.fault.mask == c.writeData)
  {
    hide CmControl, NamesRegister, NamesFault, RegisterSlot, SlotRegister, FaultAddress;
    var a, k := c.address, CmControl(c);
    EnablesExact(c);
    RegisterSlots(a);
    FaultSlots(a);
    if k.fault.enable {
      FaultSlotRange(a);
      OneFaultSlot(k.fault.mode, k.fault.addr, (a - 0x3000) / 0x100, SlotRegister(a));
    }
  }

  lemma FaultSlotRange(a: UsedAddr)
    requires FaultSlot(a)
    ensures 0 <= (a - 0x3000) / 0x100 < 4
  {
  }

  lemma WriteAnswer(a: UsedAddr, strobe: Strobe)
    ensures
      Writable(a, strobe) <==>
        strobe == 15 &&
        (a in {0x1004, 0x1008, 0x100C, 0x1010} || (RegisterSlot(a) && a != 0x2000) || (FaultSlot(a) && a % 0x80 != 0))
  {
    hide NamesRegister, NamesFault, RegisterSlot, FaultSlot;
    RegisterSlots(a);
    FaultSlots(a);
  }

  /**
   * An issued write: START at 0x1004, STOP at 0x1008, STEP at 0x100C, the pc at
   * 0x1010, registers and faults in their slots.
   */
  lemma WriteMap(c: CmRegs, i: CmIn, i': CmIn)
    requires CmInv(c) && c.state == WRITE_ISSUE
    ensures
      var a, k := c.address, CmControl(c);
      var c1 := CmNext(c, i.m, i.k);
      var c2 := CmNext(c1, i'.m, i'.k);
      && c1.pcStall == (if a == 0x1004 || a == 0x100C then false else if a == 0x1008 then true else c.pcStall)
      && c2.pcStall == (if a == 0x1004 then false else if a == 0x1008 || a == 0x100C then true else c.pcStall)
      && (k.pcWe <==> a == 0x1010)
      && (k.regfile.enable <==> c.strobe == 15 && RegisterSlot(a) && a != 0x2000)
      && (k.fault.enable <==> c.strobe == 15 && FaultSlot(a) && a % 0x80 != 0)
      && (k.pcWe ==> k.pcWriteData == c.writeData)
      && (k.regfile.enable ==> k.regfile.addr == SlotRegister(a) && k.regfile.data == c.writeData)
      && (k.fault.enable ==>
            k.fault.addr == SlotRegister(a) && k.fault.mode == (a - 0x3000) / 0x100 && k.fault.mask == c.writeData)
      && CmOutputs(c2).bvalid
      && (CmOutputs(c2).bresp == OKAY <==>
            c.strobe == 15 &&
            (a in {0x1004, 0x1008, 0x100C, 0x1010} || (RegisterSlot(a) && a != 0x2000) || (FaultSlot(a) && a % 0x80 != 0)))
  {
    hide CmNext, CmControl, CmInv, RegisterSlot, FaultSlot, SlotRegister, Writable;
    WriteActs(c, i, i');
    WriteEnables(c);
    WriteAnswer(c.address, c.strobe);
  }

  /** A read, answered two clocks after its issue with what the core holds in its issue clock. */
  lemma ReadMap(x: Chip, i: ChipIn, i': ChipIn)
    requires CmInv(x.cm) && x.cm.state == READ_ISSUE
    ensures
      var a, o := x.cm.address, CmOutputs(ChipNext(ChipNext(x, i), i').cm);
      && o.rvalid && (o.rresp == OKAY <==> a in {0x1000, 0x100C, 0x1010, 0x101C} || RegisterSlot(a))
      && o.rdata ==
         if a == 0x1000 then (if x.cm.pcStall then 1 else 0)
         else if a == 0x1010 then x.sys.core.pc
         else if a == 0x101C then i.debugVector
         else if RegisterSlot(a) then ReadReg(x.sys.core.regs, SlotRegister(a))
         else 0
  {
    hide ChipNext, CmInv, NamesRegister, CmOutputs;
    ReadReturnsIssueValue(x, i, i');
    RegisterSlots(x.cm.address);
  }

  // ----- The firmware's side -----

  lemma OffsetAdded(base: Word, offset: nat)
    requires base % 0x1_0000 == 0 && offset < 0x1_0000
    ensures BusAddress(base, offset) == base + offset
  {
    assert base == base / 0x1_0000 * 0x1_0000;
  }

  lemma ControlAt(base: Word, sub: nat)
    requires base % 0x1_0000 == 0 && sub < 0x1000
    ensures BusAddress(base, ControlRegAddr(sub)) == base + 0x1000 + sub
  {
    hide ControlRegAddr, FaultRequest, RegfileAddr, BusAddress, FaultAddress, RegisterAddress;
    BuiltAddresses(0, 0, sub);
    OffsetAdded(base, 0x1000 + sub);
  }

  lemma RegisterAt(base: Word, r: RegIndex)
    requires base % 0x1_0000 == 0
    ensures BusAddress(base, RegfileAddr(r)) == base + 0x2000 + 4 * r
  {
    hide ControlRegAddr, FaultRequest, RegfileAddr, BusAddress, FaultAddress, ControlAddress;
    BuiltAddresses(0, r, 0);
    OffsetAdded(base, 0x2000 + 4 * r);
  }

  lemma FaultAt(base: Word, mode: FaultMode, r: RegIndex)
    requires base % 0x1_0000 == 0
    ensures BusAddress(base, FaultRequest(mode, r)) == base + 0x3000 + 0x100 * mode + 4 * r
  {
    hide ControlRegAddr, FaultRequest, RegfileAddr, BusAddress, ControlAddress, RegisterAddress;
    BuiltAddresses(mode, r, 0);
    OffsetAdded(base, 0x3000 + 0x100 * mode + 4 * r);
  }

  /** What each command sends over the bus, and the number it answers, if any. */
  lemma CommandAccesses(c: Command, base: Word, bus: Bus, log: seq<Access>)
    requires base % 0x1_0000 == 0
    ensures
      var done := CarryOut(c, base, bus, log);
      match c
      case ProtocolVersion => done == Done(Number(1), log)
      case Start => done == Done(Ack, log + [Out(base + 0x1004, 1)])
      case Stop => done == Done(Ack, log + [Out(base + 0x1008, 1)])
      case Step => done == Done(Ack, log + [Out(base + 0x100C, 1)])
      case SetPc(v) => done == Done(Ack, log + [Out(base + 0x1010, v)])
      case GetPc => var v := bus(log, base + 0x1010); done == Done(Number(v), log + [In(base + 0x1010, v)])
      case SetReg(r, v) => done == Done(Ack, log + [Out(base + 0x2000 + 4 * r, v)])
      case GetReg(r) =>
        var v := bus(log, base + 0x2000 + 4 * r); done == Done(Number(v), log + [In(base + 0x2000 + 4 * r, v)])
      case FaultReg(r, mode, mask) => done == Done(Ack, log + [Out(base + 0x3000 + 0x100 * mode + 4 * r, mask)])
      case ReadMem(at) => done == Done(Number(bus(log, at)), log + [In(at, bus(log, at))])
      case WriteMem(at, v) => done == Done(Ack, log + [Out(at, v)])
      case FaultMem(at, mode, mask) =>
        done == Done(Ack, log + [In(at, bus(log, at)), Out(at, Inject(mode, bus(log, at), mask))])
  {
    hide BusAddress, ControlRegAddr, RegfileAddr, FaultRequest, Inject;
    ControlAt(base, 0x004);
    ControlAt(base, 0x008);
    ControlAt(base, 0x00C);
    ControlAt(base, 0x010);
    if c.GetReg? || c.SetReg? || c.FaultReg? {
      RegisterAt(base, c.reg);
      if c.FaultReg? {
        FaultAt(base, c.mode, c.reg);
      }
    }
  }
}
