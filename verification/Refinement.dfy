/**
 * The handshake machine against an adversarial memory refines one-at-a-time
 * execution of the reference instruction set.
 */
module Refinement {
  import opened Wrappers
  import opened Words
  import opened Isa
  import opened Encoding
  import opened Decode
  import opened ByteLanes
  import opened Arbiter
  import opened RegisterFile
  import opened Core
  import opened Tokens
  import opened Datapath
  import opened Machine

  // ----- The reference machine over instruction words -----

  ghost predicate Encodes(w: Word, i: Instr) {
    Legal(i) && Encode(i) == w
  }

  /** No opcode of the nine the core knows. */
  predicate Unsupported(w: Word) {
    FormatOf(w % 0x80) == Invalid
  }

  function Fetch(a: Arch): Word {
    ReadWord(a.mem, a.pc)
  }

  ghost predicate Defined(a: Arch) {
    (exists i :: Encodes(Fetch(a), i) && Runs(i, a)) || Unsupported(Fetch(a))
  }

  /** One reference step of a defined state: decode by inverting the encoder, then execute. */
  ghost function IsaStep(a: Arch): Arch {
    if exists i :: Encodes(Fetch(a), i) && Runs(i, a) then
      var i :| Encodes(Fetch(a), i) && Runs(i, a);
      Execute(i, a)
    else Skip(a)
  }

  // ----- Abstraction -----

  /** A store whose write the memory has performed, but whose NEXT_PC is still to come. */
  predicate StoreDone(s: Sys) {
    && IsStore(s.core.instruction)
    && (s.slave.committed || PlaceOf(s.core) == MEM_RESULT || PlaceOf(s.core) == NEXT_PC)
  }

  function Abs(s: Sys): Arch {
    Arch(if StoreDone(s) then Plus4(s.core.pc) else s.core.pc, s.core.regs, s.slave.mem)
  }

  /** The clock in which the reference machine takes its step. */
  predicate Retires(s: Sys, i: SysIn) {
    || Performs(s.slave, SysBus(s, i), i.mv)
    || (PlaceOf(s.core) == NEXT_PC && !IsStore(s.core.instruction))
  }

  /** A PC write that takes effect. */
  predicate WritesPc(s: Sys, i: SysIn) {
    i.cm.pcStall && i.cm.pcWe && !NextPcTransaction(s.core) && !PcTransaction(s.core, CoreInput(s, i))
  }

  /** The control module writes no state an instruction in flight depends on. */
  predicate Undisturbed(s: Sys, i: SysIn) {
    && (WritesPc(s, i) ==> PlaceOf(s.core) == RELEASE)
    && (i.cm.regfile.enable || i.cm.fault.enable ==> PlaceOf(s.core) == RELEASE || PlaceOf(s.core) == FETCH)
  }

  /** What the control module changes in this clock. */
  function External(a: Arch, s: Sys, i: SysIn): Arch {
    Arch(if WritesPc(s, i) then i.cm.pcWriteData else a.pc,
         NextRegs(a.regs, WritePort(false, 0, 0), i.cm.regfile, i.cm.fault),
         a.mem)
  }

  // ----- Invariant -----

  /** w stands for the wires of the current instruction. */
  ghost predicate SysInvFor(s: Sys, w: Wires) {
    var st, place := s.core.arb.state, PlaceOf(s.core);
    && s.slave.reading == (if st == PC_DATA then Some(s.core.pc) else if st == L_DATA then Some(w.memAddr) else None)
    && s.slave.writeAddr == (if st == S_WAIT_WREADY || st == S_RESP then Some(w.memAddr) else None)
    && (s.slave.writeBeat.Some? <==> st == S_WAIT_AWREADY || st == S_RESP)
    && (s.slave.writeBeat.Some? ==>
          && s.slave.writeBeat.value.strobe == w.strobe
          && (w.strobe != 0 ==> s.slave.writeBeat.value.data == w.storeData))
    && (s.slave.committed ==> st == S_RESP)
    && (place != RELEASE && place != FETCH && !StoreDone(s) ==> s.core.instruction == ReadWord(s.slave.mem, s.core.pc))
    && ((place == MEM_RESULT || place == NEXT_PC) && w.d.useMem && !w.d.memIsWrite ==>
          s.core.arb.loadData == ReadWord(s.slave.mem, w.memAddr))
  }

  ghost predicate SysInv(s: Sys) {
    && TokenInv(s.core)
    && SysInvFor(s, WiresOf(s.core, Held(0, 0)))
  }

  /** The bus side of the wires does not depend on latches, save for data in unstrobed beats. */
  lemma HeldDoesNotMatter(c: CoreRegs, loadData: Word, h: Held, h': Held)
    ensures
      var w := Combinational(c.instruction, c.pc, c.regs, loadData, h);
      var w' := WiresOf(c, h');
      && w.d == w'.d && w.memAddr == w'.memAddr && w.strobe == w'.strobe
      && (w.strobe != 0 ==> w.storeData == w'.storeData)
  {
    var d := DecodeWord(c.instruction);
    var x, y := ReadReg(c.regs, d.rs1Addr), ReadReg(c.regs, d.rs2Addr);
    var alu := AluOutput(d, x, y, c.pc);
    if ByteEnable(alu, d.func3) != 0 {
      StrobedDataIsAssigned(alu, d.func3, y, h.store, h'.store);
    }
  }

  lemma StrobedDataIsAssigned(addr: Word, func3: nat, v: Word, h: Word, h': Word)
    requires ByteEnable(addr, func3) != 0
    ensures StoreData(addr, func3, v, h) == StoreData(addr, func3, v, h')
  {
  }

  // ----- One clock, place by place -----

  /** w and w' are the wires before and after; they move only with what they are computed from. */
  ghost predicate SameBus(c: CoreRegs, n: CoreRegs, w: Wires, w': Wires) {
    n.instruction == c.instruction && n.pc == c.pc && n.regs == c.regs ==>
      && w'.d == w.d && w'.memAddr == w.memAddr && w'.strobe == w.strobe
      && (w.strobe != 0 ==> w'.storeData == w.storeData)
  }

  ghost predicate Clocked(s: Sys, i: SysIn, n: Sys, w: Wires, w': Wires) {
    && TokenInv(s.core) && SysInvFor(s, w) && SlaveLegal(s.slave, i.mv) && Undisturbed(s, i)
    && w.d.useMem == UsesMem(s.core.instruction) && w.d.memIsWrite == IsStore(s.core.instruction)
    && w'.d.useMem == UsesMem(n.core.instruction) && w'.d.memIsWrite == IsStore(n.core.instruction)
    && n.core == Advance(s.core, CoreInput(s, i), w)
    && (var b := Outputs(s.core.arb.state, RequestOf(s.core, w, i.cm));
        && n.slave == SlaveStep(s.slave, b, i.mv, n.slave.mem)
        && (!Performs(s.slave, b, i.mv) ==> n.slave.mem == s.slave.mem))
    && TokenInv(n.core) && PlaceOf(n.core) == PlaceNext(s.core, CoreInput(s, i))
    && SameBus(s.core, n.core, w, w')
  }

  lemma ReleaseClock(s: Sys, i: SysIn, n: Sys, w: Wires, w': Wires)
    requires Clocked(s, i, n, w, w') && PlaceOf(s.core) == RELEASE
    ensures SysInvFor(n, w')
    ensures !Performs(s.slave, Outputs(s.core.arb.state, RequestOf(s.core, w, i.cm)), i.mv)
  {
  }

  lemma ReleaseAbs(s: Sys, i: SysIn, n: Sys, w: Wires, w': Wires)
    requires Clocked(s, i, n, w, w') && PlaceOf(s.core) == RELEASE
    ensures Abs(n) == External(Abs(s), s, i)
  {
    ReleaseClock(s, i, n, w, w');
  }

  lemma FetchClock(s: Sys, i: SysIn, n: Sys, w: Wires, w': Wires)
    requires Clocked(s, i, n, w, w') && PlaceOf(s.core) == FETCH
    ensures SysInvFor(n, w') && Abs(n) == External(Abs(s), s, i)
    ensures !Performs(s.slave, Outputs(s.core.arb.state, RequestOf(s.core, w, i.cm)), i.mv)
  {
  }

  lemma ComputeClock(s: Sys, i: SysIn, n: Sys, w: Wires, w': Wires)
    requires Clocked(s, i, n, w, w')
    requires PlaceOf(s.core) == DECODED || PlaceOf(s.core) == ALU_RESULT || PlaceOf(s.core) == MEM_RESULT
    ensures SysInvFor(n, w') && Abs(n) == Abs(s) == External(Abs(s), s, i)
    ensures !Performs(s.slave, Outputs(s.core.arb.state, RequestOf(s.core, w, i.cm)), i.mv)
  {
  }

  lemma LoadClock(s: Sys, i: SysIn, n: Sys, w: Wires, w': Wires)
    requires Clocked(s, i, n, w, w') && PlaceOf(s.core) == MEMORY && Loading(s.core.arb.state)
    ensures SysInvFor(n, w') && Abs(n) == Abs(s) == External(Abs(s), s, i)
    ensures !Performs(s.slave, Outputs(s.core.arb.state, RequestOf(s.core, w, i.cm)), i.mv)
  {
  }

  lemma StoreClock(s: Sys, i: SysIn, n: Sys, w: Wires, w': Wires)
    requires Clocked(s, i, n, w, w') && PlaceOf(s.core) == MEMORY && Storing(s.core.arb.state)
    ensures SysInvFor(n, w') && External(Abs(s), s, i) == Abs(s)
    ensures !Performs(s.slave, Outputs(s.core.arb.state, RequestOf(s.core, w, i.cm)), i.mv) ==> Abs(n) == Abs(s)
  {
  }

  /** When the slave performs a store, its latches hold the store's address and beat. */
  lemma StoreLatches(s: Sys, i: SysIn, n: Sys, w: Wires, w': Wires, b: ToSlave)
    requires Clocked(s, i, n, w, w') && PlaceOf(s.core) == MEMORY && Storing(s.core.arb.state)
    requires b == Outputs(s.core.arb.state, RequestOf(s.core, w, i.cm)) && Performs(s.slave, b, i.mv)
    ensures AddrLatch(s.slave, b, i.mv).value == w.memAddr
    ensures
      var beat := BeatLatch(s.slave, b, i.mv).value;
      beat.strobe == w.strobe && (w.strobe != 0 ==> beat.data == w.storeData)
  {
  }

  lemma StoreBefore(s: Sys, i: SysIn, n: Sys, w: Wires, w': Wires, b: ToSlave)
    requires Clocked(s, i, n, w, w') && PlaceOf(s.core) == MEMORY && Storing(s.core.arb.state)
    requires b == Outputs(s.core.arb.state, RequestOf(s.core, w, i.cm)) && Performs(s.slave, b, i.mv)
    ensures Abs(s) == Arch(s.core.pc, s.core.regs, s.slave.mem) && s.core.instruction == Fetch(Abs(s))
  {
  }

  lemma StoreAfter(s: Sys, i: SysIn, n: Sys, w: Wires, w': Wires, b: ToSlave)
    requires Clocked(s, i, n, w, w') && PlaceOf(s.core) == MEMORY && Storing(s.core.arb.state)
    requires b == Outputs(s.core.arb.state, RequestOf(s.core, w, i.cm)) && Performs(s.slave, b, i.mv)
    ensures Abs(n) == Arch(Plus4(s.core.pc), s.core.regs, n.slave.mem)
  {
    assert n.slave.committed;
    assert n.core.instruction == s.core.instruction;
    assert n.core.pc == s.core.pc;
    assert n.core.regs == s.core.regs;
  }

  lemma SlaveWrites(s: Slave, b: ToSlave, mv: Moves, addr: Word, beat: Beat)
    requires Performs(s, b, mv) && AddrLatch(s, b, mv).value == addr && BeatLatch(s, b, mv).value == beat
    ensures MemNext(s, b, mv) == WriteWord(s.mem, addr, beat.data, beat.strobe)
  {
  }

  lemma NextPcClock(s: Sys, i: SysIn, n: Sys, w: Wires, w': Wires)
    requires Clocked(s, i, n, w, w') && PlaceOf(s.core) == NEXT_PC
    requires IsStore(s.core.instruction) ==> w.nextPc == Plus4(s.core.pc) && !w.d.doWriteBack
    ensures SysInvFor(n, w')
    ensures !Performs(s.slave, Outputs(s.core.arb.state, RequestOf(s.core, w, i.cm)), i.mv)
    ensures
      if IsStore(s.core.instruction) then Abs(n) == Abs(s) == External(Abs(s), s, i)
      else !StoreDone(s) && s.core.instruction == Fetch(Abs(s)) && Abs(n) == Retired(w, Abs(s))
  {
  }

  // ----- One clock -----

  lemma UnsupportedWires(instruction: Word, a: Arch, loadData: Word, held: Held)
    requires Unsupported(instruction)
    ensures !UsesMem(instruction) && !IsStore(instruction)
    ensures Retired(WiresIn(instruction, a, loadData, held), a) == Skip(a)
  {
    var d := DecodeWord(instruction);
    var alu := AluOutput(d, ReadReg(a.regs, d.rs1Addr), ReadReg(a.regs, d.rs2Addr), a.pc);
    SettledSelects(d, a, loadData, held, WiresIn(instruction, a, loadData, held), alu,
                   WriteBackData(loadData, d.func3, ByteEnable(alu, d.func3), held.load));
  }

  /** A NEXT_PC transaction of anything but a store is the reference step. */
  lemma NextPcIsStep(a: Arch, loadData: Word, held: Held)
    requires Defined(a) && !IsStore(Fetch(a))
    requires UsesMem(Fetch(a)) ==> loadData == ReadWord(a.mem, WiresIn(Fetch(a), a, loadData, held).memAddr)
    ensures Retired(WiresIn(Fetch(a), a, loadData, held), a) == IsaStep(a)
  {
    var w := Fetch(a);
    DecodedMem(w);
    if exists i :: Encodes(w, i) && Runs(i, a) {
      var i :| Encodes(w, i) && Runs(i, a) && IsaStep(a) == Execute(i, a);
      if i.Store? {
        DatapathStores(i, w, a, loadData, held);
      } else {
        if i.Load? {
          LoadAddress(i, w, a, loadData, held);
        }
        DatapathExecutes(i, w, a, loadData, held);
      }
    } else {
      UnsupportedWires(w, a, loadData, held);
    }
  }

  lemma LoadAddress(i: Instr, w: Word, a: Arch, loadData: Word, held: Held)
    requires Encodes(w, i) && i.Load?
    ensures UsesMem(w) && WiresIn(w, a, loadData, held).memAddr == Address(a, i.rs1, i.imm)
  {
    MemControls(i, w);
    DecodedMem(w);
    MemWires(i, DecodeWord(w), a, loadData, held, WiresIn(w, a, loadData, held), Address(a, i.rs1, i.imm));
  }

  /** Performing a store's write beat is the reference step. */
  lemma WriteIsStep(a: Arch, loadData: Word, held: Held, data: Word, x: Wires, m: Memory)
    requires Defined(a) && IsStore(Fetch(a)) && x == WiresIn(Fetch(a), a, loadData, held)
    requires x.strobe != 0 ==> data == x.storeData
    requires m == WriteWord(a.mem, x.memAddr, data, x.strobe)
    ensures IsaStep(a) == Arch(Plus4(a.pc), a.regs, m)
  {
    var w := Fetch(a);
    DecodedMem(w);
    if exists i :: Encodes(w, i) && Runs(i, a) {
      var i :| Encodes(w, i) && Runs(i, a) && IsaStep(a) == Execute(i, a);
      if i.Store? {
        DatapathStores(i, w, a, loadData, held);
        NoLanesNoWrite(a.mem, x.memAddr, x.storeData);
        NoLanesNoWrite(a.mem, x.memAddr, data);
      } else {
        OnlyStoresStore(i, w);
      }
    }
  }

  lemma OnlyStoresStore(i: Instr, w: Word)
    requires Encodes(w, i) && !i.Store?
    ensures !IsStore(w)
  {
    ControlsInRange(i, w);
    DecodedMem(w);
  }

  lemma StoreAdvancesPc(instruction: Word, a: Arch, loadData: Word, held: Held)
    requires IsStore(instruction)
    ensures
      var w := WiresIn(instruction, a, loadData, held);
      w.nextPc == Plus4(a.pc) && !w.d.doWriteBack
  {
    var d := DecodeWord(instruction);
    var alu := AluOutput(d, ReadReg(a.regs, d.rs1Addr), ReadReg(a.regs, d.rs2Addr), a.pc);
    SettledSelects(d, a, loadData, held, WiresIn(instruction, a, loadData, held), alu,
                   WriteBackData(loadData, d.func3, ByteEnable(alu, d.func3), held.load));
  }

  /** The settled wires of this clock and the next satisfy the premises above. */
  lemma ClockIsClocked(s: Sys, i: SysIn, n: Sys, w: Wires, w': Wires)
    requires SysInv(s) && SlaveLegal(s.slave, i.mv) && Undisturbed(s, i) && n == SysNext(s, i)
    requires w == WiresOf(s.core, i.held) && w' == WiresOf(n.core, Held(0, 0))
    ensures Clocked(s, i, n, w, w')
  {
    HeldDoesNotMatter(s.core, s.core.arb.loadData, i.held, Held(0, 0));
    HeldDoesNotMatter(s.core, n.core.arb.loadData, Held(0, 0), i.held);
    DecodedMem(s.core.instruction);
    DecodedMem(n.core.instruction);
    TokenStep(s.core, CoreInput(s, i));
  }

  /** One clock stutters, lets the control module write, or takes exactly one reference step. */
  lemma RefinementStep(s: Sys, i: SysIn)
    requires SysInv(s) && SlaveLegal(s.slave, i.mv) && Undisturbed(s, i)
    requires Retires(s, i) ==> Defined(Abs(s))
    ensures SysInv(SysNext(s, i))
    ensures Abs(SysNext(s, i)) == if Retires(s, i) then IsaStep(Abs(s)) else External(Abs(s), s, i)
  {
    var n := SysNext(s, i);
    var w, w' := WiresOf(s.core, i.held), WiresOf(n.core, Held(0, 0));
    ClockIsClocked(s, i, n, w, w');
    match PlaceOf(s.core) {
      case RELEASE => ReleaseClock(s, i, n, w, w'); ReleaseAbs(s, i, n, w, w');
      case FETCH => FetchClock(s, i, n, w, w');
      case DECODED => ComputeClock(s, i, n, w, w');
      case ALU_RESULT => ComputeClock(s, i, n, w, w');
      case MEM_RESULT => ComputeClock(s, i, n, w, w');
      case MEMORY =>
        if Loading(s.core.arb.state) {
          LoadClock(s, i, n, w, w');
        } else {
          StoringClock(s, i, n, w, w');
        }
      case NEXT_PC => RetiringClock(s, i, n, w, w');
    }
  }

  lemma StoringClock(s: Sys, i: SysIn, n: Sys, w: Wires, w': Wires)
    requires Clocked(s, i, n, w, w') && w == WiresOf(s.core, i.held) && n == SysNext(s, i)
    requires PlaceOf(s.core) == MEMORY && Storing(s.core.arb.state)
    requires Retires(s, i) ==> Defined(Abs(s))
    ensures SysInvFor(n, w')
    ensures Abs(n) == if Retires(s, i) then IsaStep(Abs(s)) else External(Abs(s), s, i)
  {
    StoreClock(s, i, n, w, w');
    var b := SysBus(s, i);
    if Performs(s.slave, b, i.mv) {
      assert Retires(s, i);
      PerformingClock(s, i, n, w, w', b, BeatLatch(s.slave, b, i.mv).value, Abs(s), n.slave.mem);
    } else {
      assert !Retires(s, i);
    }
  }

  lemma PerformingClock(s: Sys, i: SysIn, n: Sys, w: Wires, w': Wires, b: ToSlave, beat: Beat, a: Arch, m: Memory)
    requires Clocked(s, i, n, w, w') && w == WiresOf(s.core, i.held) && n.slave.mem == MemNext(s.slave, b, i.mv)
    requires PlaceOf(s.core) == MEMORY && Storing(s.core.arb.state)
    requires b == Outputs(s.core.arb.state, RequestOf(s.core, w, i.cm)) && Performs(s.slave, b, i.mv)
    requires beat == BeatLatch(s.slave, b, i.mv).value && a == Abs(s) && m == n.slave.mem && Defined(a)
    ensures Abs(n) == IsaStep(a)
  {
    StoreLatches(s, i, n, w, w', b);
    StoreBefore(s, i, n, w, w', b);
    StoreAfter(s, i, n, w, w', b);
    SlaveWrites(s.slave, b, i.mv, w.memAddr, beat);
    PerformIsStep(s.core, a, w, i.held, beat.data, m);
  }

  lemma PerformIsStep(c: CoreRegs, a: Arch, w: Wires, held: Held, data: Word, m: Memory)
    requires a.pc == c.pc && a.regs == c.regs && c.instruction == Fetch(a)
    requires IsStore(c.instruction) && Defined(a) && w == WiresOf(c, held)
    requires w.strobe != 0 ==> data == w.storeData
    requires m == WriteWord(a.mem, w.memAddr, data, w.strobe)
    ensures IsaStep(a) == Arch(Plus4(a.pc), a.regs, m)
  {
    WriteIsStep(a, c.arb.loadData, held, data, w, m);
  }

  lemma RetiringClock(s: Sys, i: SysIn, n: Sys, w: Wires, w': Wires)
    requires Clocked(s, i, n, w, w') && w == WiresOf(s.core, i.held) && PlaceOf(s.core) == NEXT_PC
    requires Retires(s, i) ==> Defined(Abs(s))
    ensures SysInvFor(n, w')
    ensures Abs(n) == if Retires(s, i) then IsaStep(Abs(s)) else External(Abs(s), s, i)
  {
    if IsStore(s.core.instruction) {
      StoreAdvancesPc(s.core.instruction, Arch(s.core.pc, s.core.regs, s.slave.mem), s.core.arb.loadData, i.held);
      NextPcClock(s, i, n, w, w');
    } else {
      NextPcClock(s, i, n, w, w');
      TransactionIsStep(s, n, Abs(s), w, i.held);
    }
  }

  lemma TransactionIsStep(s: Sys, n: Sys, a: Arch, w: Wires, held: Held)
    requires a == Arch(s.core.pc, s.core.regs, s.slave.mem) && s.core.instruction == Fetch(a)
    requires !IsStore(s.core.instruction) && Defined(a) && w == WiresOf(s.core, held)
    requires UsesMem(s.core.instruction) ==> s.core.arb.loadData == ReadWord(a.mem, w.memAddr)
    ensures Retired(w, a) == IsaStep(a)
  {
    NextPcIsStep(a, s.core.arb.loadData, held);
  }

  // ----- Every run -----

  datatype Event =
    | RETIRE
    | CONTROL(pc: Option<Word>, regfile: WritePort, fault: FaultPort)

  function EventOf(s: Sys, i: SysIn): Event {
    if Retires(s, i) then RETIRE
    else CONTROL(if WritesPc(s, i) then Some(i.cm.pcWriteData) else None, i.cm.regfile, i.cm.fault)
  }

  function Trace(s: Sys, inputs: seq<SysIn>): seq<Event>
    decreases |inputs|
  {
    if inputs == [] then [] else [EventOf(s, inputs[0])] + Trace(SysNext(s, inputs[0]), inputs[1..])
  }

  /** The slave is legal and the control module undisturbing in every clock. */
  predicate Admissible(s: Sys, inputs: seq<SysIn>)
    decreases |inputs|
  {
    inputs == [] ||
    (SlaveLegal(s.slave, inputs[0].mv) && Undisturbed(s, inputs[0]) && Admissible(SysNext(s, inputs[0]), inputs[1..]))
  }

  ghost function Apply(a: Arch, e: Event): Arch {
    match e
    case RETIRE => IsaStep(a)
    case CONTROL(pc, regfile, fault) =>
      Arch(if pc.Some? then pc.value else a.pc, NextRegs(a.regs, WritePort(false, 0, 0), regfile, fault), a.mem)
  }

  /** Every instruction reached by the reference machine is defined. */
  ghost predicate LegalTrace(a: Arch, es: seq<Event>)
    decreases |es|
  {
    es == [] || ((es[0].RETIRE? ==> Defined(a)) && LegalTrace(Apply(a, es[0]), es[1..]))
  }

  ghost function Replay(a: Arch, es: seq<Event>): Arch
    decreases |es|
  {
    if es == [] then a else Replay(Apply(a, es[0]), es[1..])
  }

  lemma EventApplies(s: Sys, i: SysIn)
    requires SysInv(s) && SlaveLegal(s.slave, i.mv) && Undisturbed(s, i)
    requires EventOf(s, i).RETIRE? ==> Defined(Abs(s))
    ensures SysInv(SysNext(s, i)) && Abs(SysNext(s, i)) == Apply(Abs(s), EventOf(s, i))
  {
    hide SysNext, SysInv, Abs, SlaveLegal, Undisturbed, Retires, Defined, WritesPc;
    RefinementStep(s, i);
  }

  /** Over every run the abstract state is the reference machine's, event by event. */
  lemma {:induction false} RefinementRun(s: Sys, inputs: seq<SysIn>)
    requires SysInv(s) && Admissible(s, inputs) && LegalTrace(Abs(s), Trace(s, inputs))
    ensures SysInv(Run(s, inputs)) && Abs(Run(s, inputs)) == Replay(Abs(s), Trace(s, inputs))
    decreases |inputs|
  {
    hide SysNext, SysInv, Abs, EventOf, Apply, SlaveLegal, Undisturbed;
    if inputs != [] {
      var n, rest := SysNext(s, inputs[0]), inputs[1..];
      var es := Trace(s, inputs);
      assert es[0] == EventOf(s, inputs[0]) && es[1..] == Trace(n, rest);
      EventApplies(s, inputs[0]);
      RefinementRun(n, rest);
    }
  }

  lemma ResetRefines(m: Memory)
    ensures SysInv(ResetSys(m)) && Abs(ResetSys(m)) == Arch(BOOT_ADDR, ZERO_REGS, m)
    ensures Abs(ResetSys(m)).pc == 0x1000 && forall k :: 0 <= k < 31 ==> Abs(ResetSys(m)).regs[k] == 0
  {
    ResetHasToken();
  }
}
