/**
 * What every run keeps on the memory bus and between release and retirement,
 * for every input of the control module: handshake counts, and the conservation
 * of instructions.
 */
module Handshakes {
  import opened Words
  import opened Isa
  import opened Arbiter
  import opened Core
  import opened Tokens
  import opened Machine
  import opened Refinement

  /** The slave's latches and the arbiter's state tell the same story. */
  ghost predicate LatchesMatch(st: ArbState, s: Slave) {
    && (s.reading.Some? <==> st == PC_DATA || st == L_DATA)
    && (s.writeAddr.Some? <==> st == S_WAIT_WREADY || st == S_RESP)
    && (s.writeBeat.Some? <==> st == S_WAIT_AWREADY || st == S_RESP)
    && (s.committed ==> st == S_RESP)
  }

  ghost predicate HandshakeInv(s: Sys) {
    TokenInv(s.core) && LatchesMatch(s.core.arb.state, s.slave)
  }

  /** n follows s when the wires of this clock are w. */
  ghost predicate Follows(s: Sys, i: SysIn, n: Sys, w: Wires) {
    && HandshakeInv(s) && SlaveLegal(s.slave, i.mv)
    && w.d.useMem == UsesMem(s.core.instruction) && w.d.memIsWrite == IsStore(s.core.instruction)
    && n.core == Advance(s.core, CoreInput(s, i), w)
    && n.slave == SlaveStep(s.slave, Outputs(s.core.arb.state, RequestOf(s.core, w, i.cm)), i.mv, n.slave.mem)
    && TokenInv(n.core) && PlaceOf(n.core) == PlaceNext(s.core, CoreInput(s, i))
  }

  lemma StepFollows(s: Sys, i: SysIn, n: Sys, w: Wires)
    requires HandshakeInv(s) && SlaveLegal(s.slave, i.mv) && n == SysNext(s, i) && w == WiresOf(s.core, i.held)
    ensures Follows(s, i, n, w)
  {
    DecodedMem(s.core.instruction);
    TokenStep(s.core, CoreInput(s, i));
  }

  // ----- One clock -----

  /** Handshakes of this clock. */
  predicate ArDone(b: ToSlave, mv: Moves) { b.arvalid && mv.arready }
  predicate RDone(b: ToSlave, mv: Moves) { b.rready && mv.rvalid }
  predicate AwDone(b: ToSlave, mv: Moves) { b.awvalid && mv.awready }
  predicate WDone(b: ToSlave, mv: Moves) { b.wvalid && mv.wready }
  predicate BDone(b: ToSlave, mv: Moves) { b.bready && mv.bvalid }

  /** The decoder hands a store to the arbiter. */
  predicate StartsStore(s: Sys) {
    PlaceOf(s.core) == DECODED && IsStore(s.core.instruction)
  }

  /** The handshake lines of a clock, without the read data. */
  predicate Drives(mv: Moves, sig: FromSlave) {
    && sig.arready == mv.arready && sig.rvalid == mv.rvalid
    && sig.awready == mv.awready && sig.wready == mv.wready && sig.bvalid == mv.bvalid
  }

  lemma ReadLatchKept(st: ArbState, r: Request, s: Slave, mv: Moves, sig: FromSlave, m: Memory)
    requires LatchesMatch(st, s) && (mv.rvalid ==> s.reading.Some?) && Drives(mv, sig)
    ensures
      var n := SlaveStep(s, Outputs(st, r), mv, m);
      n.reading.Some? <==> NextState(st, r, sig) == PC_DATA || NextState(st, r, sig) == L_DATA
  {
  }

  lemma WriteLatchesKept(st: ArbState, r: Request, s: Slave, mv: Moves, sig: FromSlave, m: Memory)
    requires LatchesMatch(st, s) && (mv.bvalid ==> s.committed) && Drives(mv, sig)
    ensures
      var n, st' := SlaveStep(s, Outputs(st, r), mv, m), NextState(st, r, sig);
      && (n.writeAddr.Some? <==> st' == S_WAIT_WREADY || st' == S_RESP)
      && (n.writeBeat.Some? <==> st' == S_WAIT_AWREADY || st' == S_RESP)
      && (n.committed ==> st' == S_RESP)
  {
  }

  lemma LatchesKept(st: ArbState, r: Request, s: Slave, mv: Moves, sig: FromSlave, m: Memory)
    requires LatchesMatch(st, s) && SlaveLegal(s, mv) && Drives(mv, sig)
    ensures LatchesMatch(NextState(st, r, sig), SlaveStep(s, Outputs(st, r), mv, m))
  {
    ReadLatchKept(st, r, s, mv, sig, m);
    WriteLatchesKept(st, r, s, mv, sig, m);
  }

  /** Outstanding reads and half-done writes are exactly what is latched. */
  lemma HandshakeCounts(st: ArbState, r: Request, s: Slave, mv: Moves, m: Memory)
    requires LatchesMatch(st, s) && SlaveLegal(s, mv)
    ensures
      var b, n := Outputs(st, r), SlaveStep(s, Outputs(st, r), mv, m);
      && Count(n.reading.Some?) + Count(RDone(b, mv)) == Count(s.reading.Some?) + Count(ArDone(b, mv))
      && Count(n.writeAddr.Some?) + Count(BDone(b, mv)) == Count(s.writeAddr.Some?) + Count(AwDone(b, mv))
      && Count(n.writeBeat.Some?) + Count(BDone(b, mv)) == Count(s.writeBeat.Some?) + Count(WDone(b, mv))
  {
  }

  /** The response is accepted only after both halves of the write. */
  lemma ResponseLast(st: ArbState, r: Request, s: Slave)
    requires LatchesMatch(st, s) && Outputs(st, r).bready
    ensures s.writeAddr.Some? && s.writeBeat.Some?
  {
  }

  /** A store is in the arbiter from the clock it is handed over to its response. */
  lemma StoresInArbiter(st: ArbState, r: Request, s: Slave, mv: Moves, sig: FromSlave)
    requires LatchesMatch(st, s) && (mv.bvalid ==> s.committed) && Drives(mv, sig)
    ensures
      Count(Storing(NextState(st, r, sig))) + Count(BDone(Outputs(st, r), mv))
        == Count(Storing(st)) + Count(st == IDLE && !r.pcValid && r.lsValid && r.lsIsWrite)
  {
  }

  // ----- Instructions released and retired -----

  /** Between instructions: the next one has not been released. */
  predicate Boundary(c: CoreRegs) {
    c.releasePending && !c.stallReleased
  }

  /** Instructions released but not yet retired. */
  function Owed(s: Sys): nat {
    if s.core.releasePending then Count(s.core.stallReleased) else Count(!StoreDone(s))
  }

  predicate Releases(s: Sys, i: SysIn) {
    Boundary(s.core) && !i.cm.pcStall
  }

  /** Retirement pays exactly what release borrowed, whatever else happens in the clock. */
  lemma OwedConserved(s: Sys, i: SysIn, n: Sys, w: Wires)
    requires Follows(s, i, n, w)
    requires SysBus(s, i) == Outputs(s.core.arb.state, RequestOf(s.core, w, i.cm))
    ensures Owed(n) + Count(Retires(s, i)) == Owed(s) + Count(Releases(s, i))
  {
  }

  // ----- Every run -----

  /** Handshakes, stores handed over, and instructions released and retired. */
  datatype Tally = Tally(ar: nat, r: nat, aw: nat, w: nat, b: nat, stores: nat, released: nat, retired: nat)

  function Tallied(s: Sys, i: SysIn): Tally {
    var b, mv := SysBus(s, i), i.mv;
    Tally(Count(ArDone(b, mv)), Count(RDone(b, mv)), Count(AwDone(b, mv)), Count(WDone(b, mv)), Count(BDone(b, mv)),
          Count(StartsStore(s)), Count(Releases(s, i)), Count(Retires(s, i)))
  }

  function Add(x: Tally, y: Tally): Tally {
    Tally(x.ar + y.ar, x.r + y.r, x.aw + y.aw, x.w + y.w, x.b + y.b,
          x.stores + y.stores, x.released + y.released, x.retired + y.retired)
  }

  function Totals(s: Sys, inputs: seq<SysIn>): Tally
    decreases |inputs|
  {
    if inputs == [] then Tally(0, 0, 0, 0, 0, 0, 0, 0)
    else Add(Tallied(s, inputs[0]), Totals(SysNext(s, inputs[0]), inputs[1..]))
  }

  predicate SlaveLegalRun(s: Sys, inputs: seq<SysIn>)
    decreases |inputs|
  {
    inputs == [] || (SlaveLegal(s.slave, inputs[0].mv) && SlaveLegalRun(SysNext(s, inputs[0]), inputs[1..]))
  }

  /** What was outstanding at s plus what t began is what t finished plus what is outstanding at n. */
  predicate Balanced(s: Sys, t: Tally, n: Sys) {
    && Count(s.slave.reading.Some?) + t.ar == t.r + Count(n.slave.reading.Some?)
    && Count(s.slave.writeAddr.Some?) + t.aw == t.b + Count(n.slave.writeAddr.Some?)
    && Count(s.slave.writeBeat.Some?) + t.w == t.b + Count(n.slave.writeBeat.Some?)
    && Count(Storing(s.core.arb.state)) + t.stores == t.b + Count(Storing(n.core.arb.state))
    && Owed(s) + t.released == t.retired + Owed(n)
  }

  lemma StartsAtArbiter(s: Sys, i: SysIn, r: Request, w: Wires)
    requires TokenInv(s.core) && r == RequestOf(s.core, w, i.cm)
    requires w.d.useMem == UsesMem(s.core.instruction) && w.d.memIsWrite == IsStore(s.core.instruction)
    ensures StartsStore(s) <==> s.core.arb.state == IDLE && !r.pcValid && r.lsValid && r.lsIsWrite
  {
  }

  lemma ClockBalanced(s: Sys, i: SysIn)
    requires HandshakeInv(s) && SlaveLegal(s.slave, i.mv)
    ensures HandshakeInv(SysNext(s, i)) && Balanced(s, Tallied(s, i), SysNext(s, i))
  {
    hide SysNext, Tallied, Follows, HandshakeInv, SlaveLegal, Balanced, Owed, Retires, Releases, RequestOf,
      Outputs, WiresOf;
    var n, w := SysNext(s, i), WiresOf(s.core, i.held);
    var r := RequestOf(s.core, w, i.cm);
    StepFollows(s, i, n, w);
    OwedConserved(s, i, n, w);
    ClockHandshakes(s, i, n, w, r);
  }

  lemma ClockHandshakes(s: Sys, i: SysIn, n: Sys, w: Wires, r: Request)
    requires Follows(s, i, n, w) && r == RequestOf(s.core, w, i.cm) && SysBus(s, i) == Outputs(s.core.arb.state, r)
    requires Owed(n) + Count(Retires(s, i)) == Owed(s) + Count(Releases(s, i))
    ensures HandshakeInv(n) && Balanced(s, Tallied(s, i), n)
  {
    var st, sig := s.core.arb.state, CoreInput(s, i).slave;
    LatchesKept(st, r, s.slave, i.mv, sig, n.slave.mem);
    HandshakeCounts(st, r, s.slave, i.mv, n.slave.mem);
    StoresInArbiter(st, r, s.slave, i.mv, sig);
    StartsAtArbiter(s, i, r, w);
  }

  /** Over every run nothing is lost, invented or repeated. */
  lemma {:induction false} RunBalanced(s: Sys, inputs: seq<SysIn>)
    requires HandshakeInv(s) && SlaveLegalRun(s, inputs)
    ensures HandshakeInv(Run(s, inputs)) && Balanced(s, Totals(s, inputs), Run(s, inputs))
    decreases |inputs|
  {
    hide SysNext, Tallied, HandshakeInv, SlaveLegal, Owed, Storing;
    if inputs != [] {
      ClockBalanced(s, inputs[0]);
      RunBalanced(SysNext(s, inputs[0]), inputs[1..]);
    }
  }

  /**
   * From one boundary to another, every store has made exactly one AW, one W and
   * one B handshake and every released instruction has retired.
   */
  lemma BetweenBoundaries(s: Sys, inputs: seq<SysIn>)
    requires HandshakeInv(s) && SlaveLegalRun(s, inputs)
    requires Boundary(s.core) && Boundary(Run(s, inputs).core)
    ensures
      var t := Totals(s, inputs);
      t.aw == t.w == t.b == t.stores && t.ar == t.r && t.released == t.retired
  {
    hide SysNext, Run, Totals, SlaveLegalRun, TokenInv, HandshakeInv;
    RunBalanced(s, inputs);
    BoundaryIsIdle(s);
    BoundaryIsIdle(Run(s, inputs));
  }

  lemma BoundaryIsIdle(s: Sys)
    requires HandshakeInv(s) && Boundary(s.core)
    ensures s.core.arb.state == IDLE && Owed(s) == 0
    ensures s.slave.reading.None? && s.slave.writeAddr.None? && s.slave.writeBeat.None? && !s.slave.committed
  {
  }

  lemma ResetIsQuiet(m: Memory)
    ensures HandshakeInv(ResetSys(m)) && Boundary(ResetSys(m).core)
  {
    ResetHasToken();
  }
}
