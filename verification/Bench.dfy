/** The core on the mock memory: the reference machine, at no more than 18 clocks an instruction. */
module Bench {
  import opened Words
  import opened Isa
  import opened ByteLanes
  import opened Arbiter
  import opened Core
  import opened Tokens
  import opened Machine
  import opened Refinement
  import opened Handshakes
  import opened Progress
  import opened Stepping
  import opened MockMemory
  import opened MockRefines
  import opened MockRuns

  datatype Setup = Setup(core: CoreRegs, mock: MockRegs)

  datatype SetupIn = SetupIn(cm: Control, held: Held)

  function SetupBus(x: Setup, i: SetupIn): ToSlave {
    BusOf(x.core, CoreIn(MockSignals(x.mock), i.cm, i.held))
  }

  function SetupNext(x: Setup, i: SetupIn): Setup {
    Setup(CoreNext(x.core, CoreIn(MockSignals(x.mock), i.cm, i.held)), MockNext(x.mock, SetupBus(x, i)))
  }

  function SetupRun(x: Setup, inputs: seq<SetupIn>): Setup
    decreases |inputs|
  {
    if inputs == [] then x else SetupRun(SetupNext(x, inputs[0]), inputs[1..])
  }

  /** The same clock seen as a clock of the abstract slave. */
  function SlaveSide(x: Setup, i: SetupIn): SysIn {
    SysIn(MovesOf(x.mock), i.cm, i.held)
  }

  function SlaveSides(x: Setup, inputs: seq<SetupIn>): seq<SysIn>
    decreases |inputs|
  {
    if inputs == [] then [] else [SlaveSide(x, inputs[0])] + SlaveSides(SetupNext(x, inputs[0]), inputs[1..])
  }

  /** The program stays within the two halves and stores into the data half only. */
  predicate InRange(b: ToSlave) {
    (b.arvalid ==> b.araddr < 0x2000) && (b.awvalid ==> b.awaddr < 0x1000)
  }

  predicate InRangeRun(x: Setup, inputs: seq<SetupIn>)
    decreases |inputs|
  {
    inputs == [] || (InRange(SetupBus(x, inputs[0])) && InRangeRun(SetupNext(x, inputs[0]), inputs[1..]))
  }

  predicate StoresToData(s: Slave) {
    s.writeAddr.Some? ==> s.writeAddr.value < 0x1000
  }

  /** The bench and the abstract system are in step. */
  ghost predicate InStep(x: Setup, s: Sys) {
    x.core == s.core && HandshakeInv(s) && Simulates(x.mock, s.slave) && StoresToData(s.slave)
  }

  lemma SmallAddresses(st: ArbState, r: Request)
    requires InRange(Outputs(st, r))
    ensures Aliased(Outputs(st, r)) == Outputs(st, r)
  {
  }

  lemma DataHalf(a: Word)
    requires a < 0x1000
    ensures !Selector(a) && Alias(a) == a
  {
  }

  /** Read data count only in a clock with RVALID. */
  lemma IdleDataIgnored(c: CoreRegs, sig: FromSlave, sig': FromSlave, cm: Control, held: Held)
    requires Drives(Moves(sig.arready, sig.rvalid, sig.awready, sig.wready, sig.bvalid, true), sig')
    requires sig.rvalid ==> sig'.rdata == sig.rdata
    ensures CoreNext(c, CoreIn(sig, cm, held)) == CoreNext(c, CoreIn(sig', cm, held))
    ensures BusOf(c, CoreIn(sig, cm, held)) == BusOf(c, CoreIn(sig', cm, held))
  {
    hide Combinational, ReadReg;
  }

  lemma SameClock(x: Setup, s: Sys, i: SetupIn)
    requires InStep(x, s)
    ensures Drives(MovesOf(x.mock), MockSignals(x.mock))
    ensures CoreInput(s, SlaveSide(x, i)).cm == i.cm
    ensures SysNext(s, SlaveSide(x, i)).core == SetupNext(x, i).core
    ensures SysBus(s, SlaveSide(x, i)) == SetupBus(x, i)
  {
    hide CoreNext, BusOf, ReadWord, TokenInv, Holds;
    IdleDataIgnored(x.core, MockSignals(x.mock), Signals(s.slave, MovesOf(x.mock)), i.cm, i.held);
  }

  lemma ClockInStep(x: Setup, s: Sys, i: SetupIn)
    requires InStep(x, s) && InRange(SetupBus(x, i))
    ensures SlaveLegal(s.slave, SlaveSide(x, i).mv) && InStep(SetupNext(x, i), SysNext(s, SlaveSide(x, i)))
  {
    hide CoreNext, TokenInv, LatchesMatch, Simulates, MockNext, WiresOf, InRange, StoresToData, SlaveNext,
      Balanced;
    var b, si := SetupBus(x, i), SlaveSide(x, i);
    SameClock(x, s, i);
    var r := RequestOf(x.core, WiresOf(x.core, i.held), i.cm);
    SmallAddresses(x.core.arb.state, r);
    BenchTiming(x, s, x.core.arb.state, r);
    MockStep(x.mock, s.slave, b);
    ClockBalanced(s, si);
    DataOnly(s.slave, b, si.mv);
  }

  lemma BenchTiming(x: Setup, s: Sys, st: ArbState, r: Request)
    requires InStep(x, s) && st == s.core.arb.state
    ensures WellTimed(x.mock, s.slave, Outputs(st, r))
  {
    hide TokenInv, Holds, ReadWord, Selector, Alias, IndexOf;
    if s.slave.writeAddr.Some? {
      DataHalf(s.slave.writeAddr.value);
    }
    ArbiterTiming(st, r, x.mock, s.slave);
  }

  lemma DataOnly(s: Slave, b: ToSlave, mv: Moves)
    requires StoresToData(s) && InRange(b)
    ensures StoresToData(SlaveNext(s, b, mv))
  {
    hide MemNext;
  }

  // ----- Promptness -----

  /** The mock keeps no handshake waiting for more than one clock. */
  predicate WaitedOnce(k: MockRegs, wt: Waits) {
    && (wt.ar == 0 || (wt.ar == 1 && k.arready)) && (wt.w == 0 || (wt.w == 1 && k.wready))
    && wt.r == 0 && wt.aw == 0 && wt.b == 0
  }

  lemma MockIsPrompt(st: ArbState, r: Request, k: MockRegs, s: Slave, wt: Waits)
    requires FlagsMatch(k, s) && LatchesMatch(st, s) && WaitedOnce(k, wt)
    ensures
      var wt' := WaitsNext(wt, Outputs(st, r), MovesOf(k));
      Within(wt', 1) && WaitedOnce(MockNext(k, Outputs(st, r)), wt')
  {
    hide Merge, Update, ToLanes, FromLanes, Selector, IndexOf;
  }

  lemma ClockIsPrompt(x: Setup, s: Sys, i: SetupIn, wt: Waits)
    requires InStep(x, s) && WaitedOnce(x.mock, wt)
    ensures
      var wt' := WaitsNext(wt, SysBus(s, SlaveSide(x, i)), MovesOf(x.mock));
      Within(wt', 1) && WaitedOnce(SetupNext(x, i).mock, wt')
  {
    hide CoreNext, TokenInv, LatchesMatch, FlagsMatch, DataMatch, MockNext, WiresOf, WaitedOnce, WaitsNext,
      Within;
    SameClock(x, s, i);
    MockIsPrompt(x.core.arb.state, RequestOf(x.core, WiresOf(x.core, i.held), i.cm), x.mock, s.slave, wt);
  }

  // ----- Every run -----

  lemma SidesHead(x: Setup, inputs: seq<SetupIn>, n: Setup, rest: seq<SetupIn>)
    requires inputs != [] && n == SetupNext(x, inputs[0]) && rest == inputs[1..]
    ensures SlaveSides(x, inputs) == [SlaveSide(x, inputs[0])] + SlaveSides(n, rest)
    ensures SetupRun(x, inputs) == SetupRun(n, rest)
    ensures InRangeRun(x, inputs) <==> InRange(SetupBus(x, inputs[0])) && InRangeRun(n, rest)
  {
    hide SetupNext, SlaveSide, SetupBus, InRange;
  }

  /** A run on the bench is a run against a legal slave that answers within one clock. */
  lemma {:induction false} RunInStep(x: Setup, s: Sys, inputs: seq<SetupIn>, wt: Waits)
    requires InStep(x, s) && InRangeRun(x, inputs) && WaitedOnce(x.mock, wt)
    ensures SlaveLegalRun(s, SlaveSides(x, inputs)) && Prompt(s, wt, SlaveSides(x, inputs), 1)
    ensures InStep(SetupRun(x, inputs), Run(s, SlaveSides(x, inputs)))
    decreases |inputs|
  {
    hide SetupNext, SysNext, SlaveSides, SetupRun, Run, InStep, InRange, SetupBus, WaitedOnce, WaitsNext,
      Within, SysBus, SlaveLegalRun, Prompt, SlaveLegal, InRangeRun;
    if inputs == [] {
      SetupEmpty(x, s, wt);
    } else {
      var i, n, rest := inputs[0], SetupNext(x, inputs[0]), inputs[1..];
      var si := SlaveSide(x, i);
      var m, wt' := SysNext(s, si), WaitsNext(wt, SysBus(s, si), si.mv);
      SidesHead(x, inputs, n, rest);
      var sides, more := SlaveSides(x, inputs), SlaveSides(n, rest);
      assert sides[0] == si && sides[1..] == more;
      ClockInStep(x, s, i);
      ClockIsPrompt(x, s, i, wt);
      RunInStep(n, m, rest, wt');
      LegalHead(s, sides, m, more);
      PromptHead(s, wt, sides, 1, m, more, wt');
      RunHead(s, sides, m, more);
    }
  }

  lemma SetupEmpty(x: Setup, s: Sys, wt: Waits)
    ensures SlaveSides(x, []) == [] && SetupRun(x, []) == x && Run(s, []) == s
    ensures SlaveLegalRun(s, []) && Prompt(s, wt, [], 1)
  {
  }

  /** The bench shows an architectural state: registers, pc, and both memory halves. */
  ghost predicate Shows(x: Setup, a: Arch) {
    x.core.pc == a.pc && x.core.regs == a.regs && Holds(x.mock.dData, a.mem, 0) && Holds(x.mock.iData, a.mem, 0x1000)
  }

  lemma BoundaryShows(x: Setup, s: Sys)
    requires InStep(x, s) && Boundary(s.core)
    ensures Shows(x, Abs(s))
  {
    hide LatchesMatch, Holds, ReadWord;
    BoundaryIsIdle(s);
  }

  /** Between instructions the bench shows the reference machine, one step per released instruction. */
  lemma BenchExecutes(x: Setup, s: Sys, inputs: seq<SetupIn>, wt: Waits)
    requires InStep(x, s) && SysInv(s) && InRangeRun(x, inputs) && WaitedOnce(x.mock, wt)
    requires Boundary(x.core) && Boundary(SetupRun(x, inputs).core) && QuietRun(SlaveSides(x, inputs))
    requires DefinedFor(Abs(s), Totals(s, SlaveSides(x, inputs)).released)
    ensures Shows(SetupRun(x, inputs), IsaSteps(Abs(s), Totals(s, SlaveSides(x, inputs)).released))
  {
    hide SysInv, Abs, Run, Totals, SlaveLegalRun, HandshakeInv, DefinedFor, IsaSteps, Boundary, QuietRun,
      SlaveSides, SetupRun, InRangeRun, WaitedOnce, Prompt, Shows, Simulates, StoresToData;
    RunInStep(x, s, inputs, wt);
    ReleasedAreSteps(s, SlaveSides(x, inputs));
    BoundaryShows(SetupRun(x, inputs), Run(s, SlaveSides(x, inputs)));
  }

  // ----- Every program, whatever addresses it uses -----

  /** The flags of the mock, the state of the arbiter and the latches of a slave tell the same story. */
  ghost predicate Paired(x: Setup, s: Slave) {
    TokenInv(x.core) && LatchesMatch(x.core.arb.state, s) && FlagsMatch(x.mock, s)
  }

  function Shadow(x: Setup, s: Slave, i: SetupIn): Slave {
    SlaveStep(s, Aliased(SetupBus(x, i)), MovesOf(x.mock), s.mem)
  }

  function Asked(x: Setup, i: SetupIn): Request {
    RequestOf(x.core, WiresOf(x.core, i.held), i.cm)
  }

  function PortOf(x: Setup): Port {
    Port(x.core.arb, x.mock)
  }

  lemma PortClock(x: Setup, i: SetupIn)
    ensures PortOf(SetupNext(x, i)) == PortNext(PortOf(x), Asked(x, i)) && SetupBus(x, i) == PortBus(PortOf(x), Asked(x, i))
  {
    hide WiresOf, MockNext, NextState, Outputs;
  }

  lemma PairedKept(x: Setup, s: Slave, i: SetupIn)
    requires Paired(x, s)
    ensures Paired(SetupNext(x, i), Shadow(x, s, i))
  {
    hide CoreNext, TokenInv, LatchesMatch, FlagsMatch, MockNext, WiresOf, SlaveStep;
    PortClock(x, i);
    TokenStep(x.core, CoreIn(MockSignals(x.mock), i.cm, i.held));
    FlagsStep(x.mock, s, SetupBus(x, i), s.mem);
    PortLatches(PortOf(x), Asked(x, i), s, s.mem);
  }

  lemma PairedIsPrompt(x: Setup, s: Slave, i: SetupIn, wt: Waits)
    requires Paired(x, s) && WaitedOnce(x.mock, wt)
    ensures
      var wt' := WaitsNext(wt, SetupBus(x, i), MovesOf(x.mock));
      Within(wt', 1) && WaitedOnce(SetupNext(x, i).mock, wt')
  {
    hide CoreNext, TokenInv, LatchesMatch, FlagsMatch, MockNext, WiresOf, WaitedOnce, WaitsNext, Within;
    MockIsPrompt(x.core.arb.state, Asked(x, i), x.mock, s, wt);
  }

  lemma SetupRankFalls(x: Setup, i: SetupIn, wt: Waits)
    requires TokenInv(x.core) && !Boundary(x.core) && Within(WaitsNext(wt, SetupBus(x, i), MovesOf(x.mock)), 1)
    ensures
      Rank(SetupNext(x, i).core, WaitsNext(wt, SetupBus(x, i), MovesOf(x.mock)), 1) < Rank(x.core, wt, 1)
  {
    hide CoreNext, BusOf, Rank, WaitsNext, TokenInv, Boundary, MockNext;
    CoreRankFalls(x.core, CoreIn(MockSignals(x.mock), i.cm, i.held), MovesOf(x.mock), wt, 1);
  }

  /** A boundary is entered by a NEXT_PC transaction and by nothing else. */
  lemma RetiresIntoBoundary(x: Setup, i: SetupIn)
    requires TokenInv(x.core)
    ensures Boundary(x.core) ==> !NextPcTransaction(x.core)
    ensures !Boundary(x.core) ==> (Boundary(SetupNext(x, i).core) <==> NextPcTransaction(x.core))
  {
    hide MockNext;
    TokenStep(x.core, CoreIn(MockSignals(x.mock), i.cm, i.held));
  }

  /** Clocks until the core is between instructions, and NEXT_PC transactions in a run. */
  function SetupUntil(x: Setup, inputs: seq<SetupIn>): (k: nat)
    ensures k <= |inputs|
    decreases |inputs|
  {
    if inputs == [] || Boundary(x.core) then 0 else 1 + SetupUntil(SetupNext(x, inputs[0]), inputs[1..])
  }

  function NextPcs(x: Setup, inputs: seq<SetupIn>): nat
    decreases |inputs|
  {
    if inputs == [] then 0 else Count(NextPcTransaction(x.core)) + NextPcs(SetupNext(x, inputs[0]), inputs[1..])
  }

  lemma SetupSplits(x: Setup, inputs: seq<SetupIn>, k: nat, n: Setup, rest: seq<SetupIn>)
    requires k < |inputs| && n == SetupNext(x, inputs[0]) && rest == inputs[1..]
    ensures SetupRun(x, inputs[..k + 1]) == SetupRun(n, rest[..k])
    ensures NextPcs(x, inputs[..k + 1]) == Count(NextPcTransaction(x.core)) + NextPcs(n, rest[..k])
  {
    hide SetupNext, NextPcTransaction;
    assert inputs[..k + 1][0] == inputs[0];
    assert inputs[..k + 1][1..] == rest[..k];
  }

  lemma SetupNothing(x: Setup, inputs: seq<SetupIn>)
    ensures SetupRun(x, inputs[..0]) == x && NextPcs(x, inputs[..0]) == 0
  {
  }

  lemma {:induction false} SetupReaches(x: Setup, s: Slave, inputs: seq<SetupIn>, wt: Waits)
    requires Paired(x, s) && WaitedOnce(x.mock, wt) && |inputs| >= Rank(x.core, wt, 1)
    ensures SetupUntil(x, inputs) <= Rank(x.core, wt, 1)
    ensures
      var k := SetupUntil(x, inputs);
      Boundary(SetupRun(x, inputs[..k]).core) && NextPcs(x, inputs[..k]) == Count(!Boundary(x.core))
    decreases |inputs|
  {
    hide SetupNext, SetupRun, NextPcs, Shadow, WaitsNext, Within, WaitedOnce, SetupBus, Rank, Boundary,
      NextPcTransaction, TokenInv, LatchesMatch, FlagsMatch;
    if Boundary(x.core) {
      SetupNothing(x, inputs);
    } else {
      RankPositive(x.core, wt, 1);
      var i, n, rest := inputs[0], SetupNext(x, inputs[0]), inputs[1..];
      var wt' := WaitsNext(wt, SetupBus(x, i), MovesOf(x.mock));
      PairedKept(x, s, i);
      PairedIsPrompt(x, s, i, wt);
      SetupRankFalls(x, i, wt);
      RetiresIntoBoundary(x, i);
      SetupReaches(n, Shadow(x, s, i), rest, wt');
      SetupSplits(x, inputs, SetupUntil(n, rest), n, rest);
    }
  }

  /**
   * On the bench a released instruction retires, alone, within 18 clocks, whatever
   * addresses the program uses and whatever the control module does meanwhile.
   */
  lemma BenchRetires(x: Setup, s: Slave, inputs: seq<SetupIn>, wt: Waits)
    requires Paired(x, s) && WaitedOnce(x.mock, wt)
    requires |inputs| >= 18 && Boundary(x.core) && !inputs[0].cm.pcStall
    ensures
      exists k :: 0 < k <= 18 && Boundary(SetupRun(x, inputs[..k]).core) && NextPcs(x, inputs[..k]) == 1
  {
    hide SetupNext, SetupRun, NextPcs, Shadow, WaitsNext, Within, WaitedOnce, SetupBus, Rank, NextPcTransaction,
      TokenInv, LatchesMatch, FlagsMatch;
    var i, n, rest := inputs[0], SetupNext(x, inputs[0]), inputs[1..];
    var wt' := WaitsNext(wt, SetupBus(x, i), MovesOf(x.mock));
    PairedKept(x, s, i);
    PairedIsPrompt(x, s, i, wt);
    RetiresIntoBoundary(x, i);
    LeavesBoundary(x, i);
    RankBound(n.core, wt', 1);
    SetupReaches(n, Shadow(x, s, i), rest, wt');
    var k := SetupUntil(n, rest);
    SetupSplits(x, inputs, k, n, rest);
    assert 0 < k + 1 <= 18;
  }

  lemma LeavesBoundary(x: Setup, i: SetupIn)
    requires TokenInv(x.core) && Boundary(x.core) && !i.cm.pcStall
    ensures !Boundary(SetupNext(x, i).core)
  {
    hide MockNext;
    TokenStep(x.core, CoreIn(MockSignals(x.mock), i.cm, i.held));
  }

  function AskedRun(x: Setup, inputs: seq<SetupIn>): seq<Request>
    decreases |inputs|
  {
    if inputs == [] then [] else [Asked(x, inputs[0])] + AskedRun(SetupNext(x, inputs[0]), inputs[1..])
  }

  /** What the core asks of its arbiter in a run is one of the request sequences of MockRuns. */
  lemma {:induction false} SetupIsPort(x: Setup, inputs: seq<SetupIn>)
    ensures PortRun(PortOf(x), AskedRun(x, inputs)) == PortOf(SetupRun(x, inputs))
    decreases |inputs|
  {
    hide SetupNext, PortNext, Asked;
    if inputs != [] {
      var asked := AskedRun(x, inputs);
      PortClock(x, inputs[0]);
      assert asked[0] == Asked(x, inputs[0]) && asked[1..] == AskedRun(SetupNext(x, inputs[0]), inputs[1..]);
      SetupIsPort(SetupNext(x, inputs[0]), inputs[1..]);
    }
  }

  /** Out of reset, whatever the program: every word and every read answer is what was last strobed there. */
  lemma BenchReadsLastWrites(inputs: seq<SetupIn>)
    requires StoresDataRun(ResetPort(), AskedRun(Setup(RESET_CORE, ResetMock()), inputs))
    ensures
      var x := Setup(RESET_CORE, ResetMock());
      ShowsLast(PortOf(SetupRun(x, inputs)), RecordRun(ResetPort(), BLANK, AskedRun(x, inputs)), map[])
  {
    hide SetupRun, PortRun, RecordRun, ShowsLast, StoresDataRun, AskedRun, ResetMock;
    SetupIsPort(Setup(RESET_CORE, ResetMock()), inputs);
    ReadsReturnLastWrites(AskedRun(Setup(RESET_CORE, ResetMock()), inputs));
  }

  /** Out of reset, with any memory contents the two halves agree on, the bench is in step. */
  lemma BenchStarts(x: Setup, m: Memory)
    requires x.core == RESET_CORE && x.mock == ResetMock().(iData := x.mock.iData, dData := x.mock.dData)
    requires Holds(x.mock.dData, m, 0) && Holds(x.mock.iData, m, 0x1000)
    ensures InStep(x, ResetSys(m)) && SysInv(ResetSys(m)) && WaitedOnce(x.mock, NO_WAITS) && Boundary(x.core)
    ensures Paired(x, ResetSys(m).slave)
  {
    hide Holds;
    ResetIsQuiet(m);
    ResetRefines(m);
  }
}
