/**
 * control_definitions.h and control_module.c: the addresses the firmware builds,
 * and fault injection from firmware call to register file.
 */
module Firmware {
  import opened Words
  import opened Isa
  import opened Encoding
  import opened RegisterFile
  import opened Machine
  import opened Refinement
  import opened Handshakes
  import opened SocControl
  import opened Transactions
  import opened CmAndCore
  import opened RegisterAccess

  // ----- Address macros -----

  /** FAULT_REQUEST(mode, reg_idx). */
  function FaultRequest(mode: nat, reg: nat): nat {
    Or(Or(SUB_SEL_FAULT * 0x1000, And(mode, 3) * 0x100), And(reg, 0x1F) * 4)
  }

  /** REGFILE_ADDR(reg_idx). */
  function RegfileAddr(reg: nat): nat {
    Or(SUB_SEL_REGFILE * 0x1000, And(reg, 0x1F) * 4)
  }

  /** CONTROL_REG_ADDR(reg). */
  function ControlRegAddr(reg: nat): nat {
    Or(SUB_SEL_CTRL * 0x1000, reg)
  }

  lemma AndOdd(x: nat, p: nat)
    requires p > 0
    ensures And(x, 2 * p - 1) == 2 * And(x / 2, p - 1) + x % 2
  {
    assert (2 * p - 1) / 2 == p - 1;
  }

  lemma {:induction false} AndMask(x: nat, n: nat)
    ensures And(x, Pow2(n) - 1) == x % Pow2(n)
    decreases n
  {
    hide And;
    if n == 0 {
      AndNothing(x);
    } else {
      AndMask(x / 2, n - 1);
      AndOdd(x, Pow2(n - 1));
      HalfMod(x, Pow2(n - 1));
    }
  }

  lemma AndNothing(x: nat)
    ensures And(x, 0) == 0
  {
  }

  lemma HalfMod(x: nat, p: nat)
    requires p > 0
    ensures x % (2 * p) == 2 * (x / 2 % p) + x % 2
  {
    var q, r := x / 2 / p, x / 2 % p;
    assert x / 2 == q * p + r;
    assert x == q * (2 * p) + (2 * r + x % 2);
    QuotientUnique(x, q, 2 * r + x % 2, 2 * p);
  }

  lemma FieldMasks(mode: nat, reg: nat)
    ensures And(mode, 3) == mode % 4 && And(reg, 0x1F) == reg % 32
  {
    hide And;
    assert Pow2(2) == 4;
    assert Pow2(5) == 4 * Pow2(3) == 32;
    AndMask(mode, 2);
    AndMask(reg, 5);
  }

  lemma BuiltFault(mode: nat, reg: nat)
    requires mode < 4 && reg < 32
    ensures Or(Or(0x3000, mode * 0x100), reg * 4) == 0x3000 + mode * 0x100 + reg * 4
  {
    hide Or;
    Join12(0x3000, 3, mode * 0x100);
    Join7(0x3000 + mode * 0x100, 0x60 + 2 * mode, reg * 4);
  }

  lemma BuiltRegister(reg: nat)
    requires reg < 32
    ensures Or(0x2000, reg * 4) == 0x2000 + reg * 4
  {
    hide Or;
    Join12(0x2000, 2, reg * 4);
  }

  lemma BuiltControl(sub: nat)
    requires sub < 0x1000
    ensures Or(0x1000, sub) == 0x1000 + sub
  {
    hide Or;
    Join12(0x1000, 1, sub);
  }

  /** The fields of a built address never overlap, so `|` places them side by side. */
  lemma BuiltAddresses(mode: nat, reg: nat, sub: nat)
    ensures FaultRequest(mode, reg) == FaultAddress(mode % 4, reg % 32)
    ensures RegfileAddr(reg) == RegisterAddress(reg % 32)
    ensures sub < 0x1000 ==> ControlRegAddr(sub) == ControlAddress(sub)
  {
    hide Or, And;
    FieldMasks(mode, reg);
    BuiltFault(mode % 4, reg % 32);
    BuiltRegister(reg % 32);
    if sub < 0x1000 {
      BuiltControl(sub);
    }
  }

  /** The control module may be placed at any base that leaves its 16 address bits free. */
  predicate Base64K(base: Word) {
    base % 0x1_0000 == 0
  }

  function BusAddress(base: Word, offset: nat): Word {
    Wrap(base + offset)
  }

  lemma BaseIgnored(base: Word, offset: nat)
    requires Base64K(base) && offset < 0x1_0000
    ensures BusAddress(base, offset) % 0x1_0000 == offset
  {
    assert base + offset < 0x1_0000_0000;
  }

  /** Addresses built by the firmware decode to the register and mode they were built from. */
  lemma FirmwareAddressesDecode(base: Word, mode: FaultMode, reg: RegIndex)
    requires Base64K(base)
    ensures
      var fault := FieldsOf(BusAddress(base, FaultRequest(mode, reg)) % 0x1_0000);
      FaultWriteValid(fault, 15) == (reg != 0) && fault.sel == SUB_SEL_FAULT && fault.mode == mode && fault.reg == reg
    ensures
      var register := FieldsOf(BusAddress(base, RegfileAddr(reg)) % 0x1_0000);
      RegfileReadValid(register) && register.reg == reg
  {
    hide FaultRequest, RegfileAddr, BusAddress, FieldsOf;
    BuiltAddresses(mode, reg, 0);
    BaseIgnored(base, FaultAddress(mode, reg));
    BaseIgnored(base, RegisterAddress(reg));
    FaultFields(mode, reg);
    RegisterFields(reg);
  }

  // ----- Fault injection -----

  /** apply_fault_mode: the firmware's own fault function, for memory words. */
  function ApplyFaultMode(original: Word, mode: Word, mask: Word): Word {
    if mode == FAULT_MODE_OVERWRITE then mask
    else if mode == FAULT_MODE_XOR_MASK then XorW(original, mask)
    else if mode == FAULT_MODE_OR_MASK then OrW(original, mask)
    else AndW(original, Not(mask))
  }

  /** Bit by bit: replaced, flipped, set, or cleared where the mask says so. */
  predicate FaultedBit(mode: FaultMode, before: bool, mask: bool) {
    match mode
    case 0 => mask
    case 1 => before != mask
    case 2 => before || mask
    case 3 => before && !mask
  }

  lemma InjectBits(mode: FaultMode, current: Word, mask: Word, i: nat)
    requires i < 32
    ensures Bit(Inject(mode, current, mask), i) <==> FaultedBit(mode, Bit(current, i), Bit(mask, i))
  {
    Pow2At32();
    NotBits(mask, i, 32);
    XorBits(current, mask, i);
    OrBits(current, mask, i);
    AndBits(current, Not(mask), i);
  }

  lemma {:induction false} NotBits(x: nat, i: nat, n: nat)
    requires i < n && x < Pow2(n)
    ensures Bit(Pow2(n) - 1 - x, i) <==> !Bit(x, i)
    decreases n
  {
    var p := Pow2(n - 1);
    assert (2 * p - 1 - x) / 2 == p - 1 - x / 2;
    if i > 0 {
      NotBits(x / 2, i - 1, n - 1);
    }
  }

  /** Memory faults are the same four functions as register faults, bit by bit. */
  lemma MemoryFaultsAgree(original: Word, mode: FaultMode, mask: Word, i: nat)
    requires i < 32
    ensures ApplyFaultMode(original, mode, mask) == Inject(mode, original, mask)
    ensures Bit(ApplyFaultMode(original, mode, mask), i) <==> FaultedBit(mode, Bit(original, i), Bit(mask, i))
  {
    InjectBits(mode, original, mask, i);
  }

  /** The write a firmware call leaves in the control module's latches once accepted. */
  predicate Requests(c: CmRegs, address: Word, value: Word) {
    c.state == WRITE_ISSUE && c.address == address % 0x1_0000 && c.writeData == value && c.strobe == 15
  }

  /**
   * cm_regfile_fault_inject on an idle core: exactly that register changes, by
   * exactly that mode; x0 never changes, and only then is the answer SLVERR.
   */
  lemma FaultInjected(x: Chip, i: ChipIn, i': ChipIn, base: Word, reg: RegIndex, mask: Word, mode: FaultMode)
    requires SysInv(x.sys) && SlaveLegal(x.sys.slave, i.mv) && CmInv(x.cm) && Boundary(x.sys.core) && Base64K(base)
    requires Requests(x.cm, BusAddress(base, FaultRequest(mode, reg)), mask)
    ensures
      var y := ChipNext(x, i);
      && SysInv(y.sys)
      && Abs(y.sys) == Abs(x.sys).(regs := WriteReg(Abs(x.sys).regs, reg, Inject(mode, ReadReg(Abs(x.sys).regs, reg), mask)))
      && (CmOutputs(ChipNext(y, i').cm).bresp == OKAY <==> reg != 0)
      && (CmControl(x.cm).fault.enable <==> reg != 0)
  {
    hide SysInv, Abs, CmNext, SysNext, CmOutputs, CmControl, CmInvFor, FieldsOf, SlaveLegal, Boundary, Inject,
      FaultRequest, BusAddress, NamesFault, NamesRegister, Writable, FaultAddress, RegisterAddress,
      ControlAddress, WriteReg, ReadReg, Readable;
    BuiltAddresses(mode, reg, 0);
    BaseIgnored(base, FaultAddress(mode, reg));
    IdleWrite(x, i);
    WriteActs(x.cm, CmIn(i.master, ToCm(x.sys, i)), CmIn(i'.master, ToCm(ChipNext(x, i).sys, i')));
    FaultAddressNames(mode, reg);
    EnablesExact(x.cm);
  }

  lemma FaultAddressNames(mode: FaultMode, reg: RegIndex)
    ensures NamesFault(FaultAddress(mode, reg)) <==> reg != 0
    ensures Writable(FaultAddress(mode, reg), 15) <==> reg != 0
    ensures FaultAddress(mode, reg) != ControlAddress(CTRL_REG_PC)
  {
    FaultFields(mode, reg);
    FaultDecode(FaultAddress(mode, reg));
    RegisterDecode(FaultAddress(mode, reg));
    ControlDecode(FaultAddress(mode, reg));
  }
}
