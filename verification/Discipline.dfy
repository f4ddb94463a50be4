/**
 * What the core offers on its AXI4-Lite master port, and what it shows its own
 * arbiter, does not move under the other side's feet.  Every lemma here holds for
 * any slave whatsoever.
 */
module Discipline {
  import opened Words
  import opened Isa
  import opened Decode
  import opened ByteLanes
  import opened Arbiter
  import opened Core
  import opened Tokens
  import opened Machine
  import opened Refinement

  // ----- VALID and its payload are held until READY (sections A3.2.1 and A3.3.1 of ARM IHI 0022) -----

  /** b and next are the master's outputs in consecutive clocks, mv the slave's moves in the first. */
  predicate KeepsOffer(b: ToSlave, mv: Moves, next: ToSlave) {
    && (b.arvalid && !mv.arready ==> next.arvalid && next.araddr == b.araddr)
    && (b.awvalid && !mv.awready ==> next.awvalid && next.awaddr == b.awaddr)
    && (b.wvalid && !mv.wready ==>
          next.wvalid && next.wstrb == b.wstrb && (b.wstrb != 0 ==> next.wdata == b.wdata))
  }

  /** The control module disturbs neither an instruction in flight nor a fetch on offer. */
  predicate Calm(s: Sys, i: SysIn) {
    Undisturbed(s, i) && !(WritesPc(s, i) && PcValid(s.core, i.cm))
  }

  /** A fetch on offer stays on offer; its address moves exactly with a PC write that changes the pc. */
  lemma FetchOffer(s: Sys, i: SysIn, i': SysIn)
    requires TokenInv(s.core) && PcValid(s.core, i.cm) && !i.mv.arready
    ensures
      var n := SysNext(s, i);
      && SysBus(s, i).arvalid && SysBus(n, i').arvalid
      && (SysBus(n, i').araddr == SysBus(s, i).araddr <==> !(WritesPc(s, i) && i.cm.pcWriteData != s.core.pc))
  {
    FetchOfferFor(s, i, i', SysNext(s, i).core, WiresOf(s.core, i.held), WiresOf(SysNext(s, i).core, i'.held));
  }

  lemma FetchOfferFor(s: Sys, i: SysIn, i': SysIn, n: CoreRegs, w: Wires, w': Wires)
    requires TokenInv(s.core) && PcValid(s.core, i.cm) && !i.mv.arready && n == Advance(s.core, CoreInput(s, i), w)
    ensures
      var b, b' := Outputs(s.core.arb.state, RequestOf(s.core, w, i.cm)), Outputs(n.arb.state, RequestOf(n, w', i'.cm));
      b.arvalid && b'.arvalid && (b'.araddr == b.araddr <==> !(WritesPc(s, i) && i.cm.pcWriteData != s.core.pc))
  {
  }

  /** The load/store side of a clock and the next. */
  ghost predicate Steps(s: Sys, i: SysIn, n: CoreRegs, w: Wires, w': Wires) {
    && TokenInv(s.core) && n == Advance(s.core, CoreInput(s, i), w)
    && w.d.useMem == UsesMem(s.core.instruction) && w.d.memIsWrite == IsStore(s.core.instruction)
    && PlaceOf(n) == PlaceNext(s.core, CoreInput(s, i)) && TokenInv(n)
    && SameBus(s.core, n, w, w')
  }

  lemma StepSteps(s: Sys, i: SysIn, held: Held)
    requires TokenInv(s.core)
    ensures Steps(s, i, SysNext(s, i).core, WiresOf(s.core, i.held), WiresOf(SysNext(s, i).core, held))
  {
    DecodedMem(s.core.instruction);
    TokenStep(s.core, CoreInput(s, i));
    HeldDoesNotMatter(s.core, SysNext(s, i).core.arb.loadData, held, i.held);
  }

  predicate InFlight(c: CoreRegs) {
    !c.releasePending && c.arb.state != PC_DATA
  }

  /** Nothing an instruction in flight is computed from changes before its NEXT_PC transaction. */
  lemma SourcesHeld(s: Sys, i: SysIn, n: CoreRegs, w: Wires, w': Wires)
    requires Steps(s, i, n, w, w') && Undisturbed(s, i) && InFlight(s.core) && PlaceOf(s.core) != NEXT_PC
    ensures InFlight(n) && n.instruction == s.core.instruction && n.pc == s.core.pc && n.regs == s.core.regs
  {
  }

  lemma MemoryOffer(s: Sys, i: SysIn, i': SysIn, n: CoreRegs, w: Wires, w': Wires)
    requires Steps(s, i, n, w, w') && Undisturbed(s, i) && PlaceOf(s.core) == MEMORY
    ensures
      KeepsOffer(Outputs(s.core.arb.state, RequestOf(s.core, w, i.cm)), i.mv,
                 Outputs(n.arb.state, RequestOf(n, w', i'.cm)))
  {
    SourcesHeld(s, i, n, w, w');
  }

  lemma NoOffer(s: Sys, i: SysIn, w: Wires)
    requires TokenInv(s.core) && PlaceOf(s.core) != MEMORY && !PcValid(s.core, i.cm)
    ensures
      var b := Outputs(s.core.arb.state, RequestOf(s.core, w, i.cm));
      !b.arvalid && !b.awvalid && !b.wvalid
  {
  }

  lemma FetchOffersNoWrite(s: Sys, i: SysIn, w: Wires)
    requires TokenInv(s.core) && PcValid(s.core, i.cm)
    ensures
      var b := Outputs(s.core.arb.state, RequestOf(s.core, w, i.cm));
      !b.awvalid && !b.wvalid
  {
  }

  lemma OfferKept(s: Sys, i: SysIn, i': SysIn)
    requires TokenInv(s.core) && Calm(s, i)
    ensures KeepsOffer(SysBus(s, i), i.mv, SysBus(SysNext(s, i), i'))
  {
    var w := WiresOf(s.core, i.held);
    if PcValid(s.core, i.cm) {
      FetchOffersNoWrite(s, i, w);
      if !i.mv.arready {
        FetchOffer(s, i, i');
      }
    } else if PlaceOf(s.core) == MEMORY {
      StepSteps(s, i, i'.held);
      MemoryOffer(s, i, i', SysNext(s, i).core, w, WiresOf(SysNext(s, i).core, i'.held));
    } else {
      NoOffer(s, i, w);
    }
  }

  predicate CalmRun(s: Sys, inputs: seq<SysIn>)
    decreases |inputs|
  {
    inputs == [] || (Calm(s, inputs[0]) && CalmRun(SysNext(s, inputs[0]), inputs[1..]))
  }

  /** Every offer of the run is kept in the following clock. */
  predicate OffersKept(s: Sys, inputs: seq<SysIn>)
    decreases |inputs|
  {
    |inputs| < 2 ||
    (var n := SysNext(s, inputs[0]);
     KeepsOffer(SysBus(s, inputs[0]), inputs[0].mv, SysBus(n, inputs[1])) && OffersKept(n, inputs[1..]))
  }

  lemma {:induction false} OffersKeptOverRuns(s: Sys, inputs: seq<SysIn>)
    requires TokenInv(s.core) && CalmRun(s, inputs)
    ensures OffersKept(s, inputs)
    decreases |inputs|
  {
    if |inputs| >= 2 {
      TokenStep(s.core, CoreInput(s, inputs[0]));
      OfferKept(s, inputs[0], inputs[1]);
      OffersKeptOverRuns(SysNext(s, inputs[0]), inputs[1..]);
    }
  }

  // ----- With the data latch of the load/store decoder as the register it is -----

  /** The latch enters the next clock with the value it left this one with. */
  predicate LatchKeeps(s: Sys, i: SysIn, i': SysIn) {
    i'.held.store == WiresOf(s.core, i.held).storeData
  }

  /** As KeepsOffer, for all of the payload. */
  predicate KeepsPayload(b: ToSlave, mv: Moves, next: ToSlave) {
    KeepsOffer(b, mv, next) && (b.wvalid && !mv.wready ==> next.wdata == b.wdata)
  }

  /** The decoder fed with its own output gives it again. */
  lemma LatchSettles(addr: Word, func3: nat, v: Word, held: Word)
    ensures StoreData(addr, func3, v, StoreData(addr, func3, v, held)) == StoreData(addr, func3, v, held)
  {
    hide ToLanes, FromLanes;
    var l := PlaceAt(addr % 4, func3, ToLanes(v), ToLanes(held));
    LanesRoundTrip(l);
  }

  lemma StoreDataKept(c: CoreRegs, loadData: Word, h: Held, h': Held)
    requires h'.store == WiresOf(c, h).storeData
    ensures Combinational(c.instruction, c.pc, c.regs, loadData, h').storeData == WiresOf(c, h).storeData
  {
    hide StoreData, ByteEnable, WriteBackData, AluOutput, MemAddr, NextPc, WriteBackMux, DecodeWord, ReadReg;
    var d := DecodeWord(c.instruction);
    var alu := AluOutput(d, ReadReg(c.regs, d.rs1Addr), ReadReg(c.regs, d.rs2Addr), c.pc);
    LatchSettles(alu, d.func3, ReadReg(c.regs, d.rs2Addr), h.store);
  }

  lemma DataKept(s: Sys, i: SysIn, i': SysIn, n: CoreRegs, w: Wires, w': Wires)
    requires Steps(s, i, n, w, w') && Undisturbed(s, i) && PlaceOf(s.core) == MEMORY
    requires w == WiresOf(s.core, i.held) && w' == WiresOf(n, i'.held) && i'.held.store == w.storeData
    ensures w'.storeData == w.storeData
  {
    hide WiresOf, Combinational, Steps, Undisturbed;
    SourcesHeldStill(s, i, n, w, w');
    StoreDataKept(s.core, n.arb.loadData, i.held, i'.held);
    WiresAre(s.core, n, i'.held);
  }

  lemma SourcesHeldStill(s: Sys, i: SysIn, n: CoreRegs, w: Wires, w': Wires)
    requires Steps(s, i, n, w, w') && Undisturbed(s, i) && PlaceOf(s.core) == MEMORY
    ensures n.instruction == s.core.instruction && n.pc == s.core.pc && n.regs == s.core.regs
  {
    hide WiresOf, Advance, SameBus;
    MemoryIsInFlight(s.core);
    SourcesHeld(s, i, n, w, w');
  }

  lemma MemoryIsInFlight(c: CoreRegs)
    requires TokenInv(c) && PlaceOf(c) == MEMORY
    ensures InFlight(c)
  {
  }

  lemma WiresAre(c: CoreRegs, n: CoreRegs, held: Held)
    requires n.instruction == c.instruction && n.pc == c.pc && n.regs == c.regs
    ensures WiresOf(n, held) == Combinational(c.instruction, c.pc, c.regs, n.arb.loadData, held)
  {
    hide Combinational;
  }

  lemma WriteOnlyInMemory(s: Sys, i: SysIn, w: Wires)
    requires TokenInv(s.core) && Outputs(s.core.arb.state, RequestOf(s.core, w, i.cm)).wvalid
    ensures PlaceOf(s.core) == MEMORY
  {
  }

  lemma BeatKept(s: Sys, i: SysIn, i': SysIn)
    requires TokenInv(s.core) && Undisturbed(s, i) && LatchKeeps(s, i, i') && SysBus(s, i).wvalid && !i.mv.wready
    ensures SysBus(SysNext(s, i), i').wdata == SysBus(s, i).wdata
  {
    hide WiresOf, Advance, Undisturbed, TokenInv, Steps, PlaceOf;
    var w, w' := WiresOf(s.core, i.held), WiresOf(SysNext(s, i).core, i'.held);
    WriteOnlyInMemory(s, i, w);
    StepSteps(s, i, i'.held);
    DataKept(s, i, i', SysNext(s, i).core, w, w');
    BeatShown(s, i, i', w, w');
  }

  lemma BeatShown(s: Sys, i: SysIn, i': SysIn, w: Wires, w': Wires)
    requires Steps(s, i, SysNext(s, i).core, w, w') && w'.storeData == w.storeData && !i.mv.wready
    requires Outputs(s.core.arb.state, RequestOf(s.core, w, i.cm)).wvalid
    ensures
      Outputs(SysNext(s, i).core.arb.state, RequestOf(SysNext(s, i).core, w', i'.cm)).wdata
        == Outputs(s.core.arb.state, RequestOf(s.core, w, i.cm)).wdata
  {
    hide WiresOf, TokenInv, SameBus, ReadWord, PlaceOf, PlaceNext;
  }

  predicate LatchRun(s: Sys, inputs: seq<SysIn>)
    decreases |inputs|
  {
    |inputs| < 2 || (LatchKeeps(s, inputs[0], inputs[1]) && LatchRun(SysNext(s, inputs[0]), inputs[1..]))
  }

  predicate PayloadsKept(s: Sys, inputs: seq<SysIn>)
    decreases |inputs|
  {
    |inputs| < 2 ||
    (var n := SysNext(s, inputs[0]);
     KeepsPayload(SysBus(s, inputs[0]), inputs[0].mv, SysBus(n, inputs[1])) && PayloadsKept(n, inputs[1..]))
  }

  /** Over every run, every offer keeps all of its payload until it is accepted. */
  lemma {:induction false} PayloadsKeptOverRuns(s: Sys, inputs: seq<SysIn>)
    requires TokenInv(s.core) && CalmRun(s, inputs) && LatchRun(s, inputs)
    ensures PayloadsKept(s, inputs)
    decreases |inputs|
  {
    hide SysNext, SysBus, TokenInv, Calm, LatchKeeps, KeepsPayload;
    if |inputs| >= 2 {
      PayloadKept(s, inputs[0], inputs[1]);
      PayloadsKeptOverRuns(SysNext(s, inputs[0]), inputs[1..]);
    }
  }

  lemma PayloadKept(s: Sys, i: SysIn, i': SysIn)
    requires TokenInv(s.core) && Calm(s, i) && LatchKeeps(s, i, i')
    ensures KeepsPayload(SysBus(s, i), i.mv, SysBus(SysNext(s, i), i')) && TokenInv(SysNext(s, i).core)
  {
    hide SysBus, TokenInv, KeepsOffer, LatchKeeps, Undisturbed, CoreNext;
    TokenStep(s.core, CoreInput(s, i));
    OfferKept(s, i, i');
    if SysBus(s, i).wvalid && !i.mv.wready {
      BeatKept(s, i, i');
    }
  }

  // ----- The arbiter may assume that its load/store inputs stay constant -----

  datatype LoadStoreInputs = LoadStoreInputs(addr: Word, isWrite: bool, strobe: Strobe, data: Word)

  /** Store data count only where a lane is strobed. */
  function ShownToArbiter(w: Wires): LoadStoreInputs {
    LoadStoreInputs(w.memAddr, w.d.memIsWrite, w.strobe, if w.strobe == 0 then 0 else w.storeData)
  }

  /** The run stays within one instruction: no NEXT_PC transaction completes. */
  predicate BeforeRetirement(s: Sys, inputs: seq<SysIn>)
    decreases |inputs|
  {
    inputs == [] ||
    (PlaceOf(s.core) != NEXT_PC && Undisturbed(s, inputs[0]) && BeforeRetirement(SysNext(s, inputs[0]), inputs[1..]))
  }

  /** From the decoder to retirement the arbiter sees the same address, data, strobe and direction. */
  lemma {:induction false} ArbiterInputsConstant(s: Sys, inputs: seq<SysIn>, held: Held, held': Held)
    requires TokenInv(s.core) && InFlight(s.core) && BeforeRetirement(s, inputs)
    ensures InFlight(Run(s, inputs).core)
    ensures ShownToArbiter(WiresOf(Run(s, inputs).core, held')) == ShownToArbiter(WiresOf(s.core, held))
    decreases |inputs|
  {
    if inputs == [] {
      HeldDoesNotMatter(s.core, s.core.arb.loadData, held, held');
    } else {
      var i, n := inputs[0], SysNext(s, inputs[0]);
      var w := WiresOf(s.core, i.held);
      HeldDoesNotMatter(s.core, s.core.arb.loadData, held, i.held);
      StepSteps(s, i, i.held);
      SourcesHeld(s, i, n.core, w, WiresOf(n.core, i.held));
      ArbiterInputsConstant(n, inputs[1..], i.held, held');
    }
  }
}
