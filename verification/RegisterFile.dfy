/** register_file.v and fault_injector.v. */
module RegisterFile {
  import opened Words
  import opened Isa

  type FaultMode = m: int | 0 <= m < 4

  const FAULT_MODE_OVERWRITE: FaultMode := 0
  const FAULT_MODE_XOR_MASK: FaultMode := 1
  const FAULT_MODE_OR_MASK: FaultMode := 2
  const FAULT_MODE_ANDN_MASK: FaultMode := 3

  function Inject(mode: FaultMode, current: Word, mask: Word): Word {
    match mode
    case 0 => mask
    case 1 => XorW(current, mask)
    case 2 => OrW(current, mask)
    case 3 => AndW(current, Not(mask))
  }

  datatype WritePort = WritePort(enable: bool, addr: RegIndex, data: Word)
  datatype FaultPort = FaultPort(enable: bool, addr: RegIndex, mode: FaultMode, mask: Word)

  /** The three writers, in priority order; a port addressing x0 writes nothing. */
  function NextRegs(regs: Regs, core: WritePort, extra: WritePort, fault: FaultPort): Regs {
    if core.enable && core.addr != 0 then WriteReg(regs, core.addr, core.data)
    else if extra.enable && extra.addr != 0 then WriteReg(regs, extra.addr, extra.data)
    else if fault.enable && fault.addr != 0 then
      WriteReg(regs, fault.addr, Inject(fault.mode, ReadReg(regs, fault.addr), fault.mask))
    else regs
  }

  predicate SameExcept(before: Regs, after: Regs, w: RegIndex) {
    forall r: RegIndex :: r != w ==> ReadReg(after, r) == ReadReg(before, r)
  }

  /** The port that wins the clock: the first enabled one that does not address x0. */
  predicate Wins(enable: bool, addr: RegIndex) {
    enable && addr != 0
  }

  /** In one clock at most one register changes, and what the winning port writes lands in it. */
  lemma OneRegisterChanges(regs: Regs, core: WritePort, extra: WritePort, fault: FaultPort)
    ensures exists w: RegIndex :: SameExcept(regs, NextRegs(regs, core, extra, fault), w)
    ensures
      var next := NextRegs(regs, core, extra, fault);
      && (Wins(core.enable, core.addr) ==>
            ReadReg(next, core.addr) == core.data && SameExcept(regs, next, core.addr))
      && (!Wins(core.enable, core.addr) && Wins(extra.enable, extra.addr) ==>
            ReadReg(next, extra.addr) == extra.data && SameExcept(regs, next, extra.addr))
      && (!Wins(core.enable, core.addr) && !Wins(extra.enable, extra.addr) && Wins(fault.enable, fault.addr) ==>
            ReadReg(next, fault.addr) == Inject(fault.mode, ReadReg(regs, fault.addr), fault.mask)
            && SameExcept(regs, next, fault.addr))
    ensures !Wins(core.enable, core.addr) && !Wins(extra.enable, extra.addr) && !Wins(fault.enable, fault.addr) ==>
      NextRegs(regs, core, extra, fault) == regs
  {
    var w :=
      if Wins(core.enable, core.addr) then core.addr
      else if Wins(extra.enable, extra.addr) then extra.addr
      else fault.addr;
    assert SameExcept(regs, NextRegs(regs, core, extra, fault), w);
  }

  class RegFile {
    const registers: array<Word>
    var extraReadData: Word

    ghost predicate Valid() {
      registers.Length == 31
    }

    ghost function Contents(): Regs
      requires Valid()
      reads registers
    {
      registers[..]
    }

    constructor ()
      ensures Valid() && fresh(registers)
      ensures Contents() == ZERO_REGS && extraReadData == 0
    {
      registers := new Word[31];
      extraReadData := 0;
      new;
      Reset();
    }

    /** The reset loop over x1 to x31. */
    method Reset()
      requires Valid()
      modifies registers
      ensures Contents() == ZERO_REGS
    {
      for i := 1 to 32
        invariant forall k :: 0 <= k < i - 1 ==> registers[k] == 0
      {
        registers[i - 1] := 0;
      }
    }

    method Read(addr: RegIndex) returns (v: Word)
      requires Valid()
      ensures v == ReadReg(Contents(), addr)
    {
      if addr == 0 {
        v := 0;
      } else {
        v := registers[addr - 1];
      }
    }

    /** One rising edge; the read port samples the value before the write. */
    method Clock(core: WritePort, extra: WritePort, fault: FaultPort)
      requires Valid()
      modifies this`extraReadData, registers
      ensures Contents() == NextRegs(old(Contents()), core, extra, fault)
      ensures extraReadData == ReadReg(old(Contents()), extra.addr)
    {
      var current := Read(fault.addr);
      extraReadData := Read(extra.addr);
      if core.enable && core.addr != 0 {
        registers[core.addr - 1] := core.data;
      } else if extra.enable && extra.addr != 0 {
        registers[extra.addr - 1] := extra.data;
      } else if fault.enable && fault.addr != 0 {
        registers[fault.addr - 1] := Inject(fault.mode, current, fault.mask);
      }
    }
  }
}
