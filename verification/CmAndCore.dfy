/**
 * cm_and_core.v: the control module wired to the core, with the memory behind it.
 * Single-stepping, free running and stopping are all the reference machine.
 */
module CmAndCore {
  import opened Words
  import opened Isa
  import opened Core
  import opened Tokens
  import opened Machine
  import opened Refinement
  import opened Handshakes
  import opened Progress
  import opened Stepping
  import opened SocControl
  import opened Transactions

  datatype Chip = Chip(cm: CmRegs, sys: Sys)

  datatype ChipIn = ChipIn(master: FromMaster, mv: Moves, held: Held, debugVector: Word)

  /** The wires from the control module to the core. */
  function ToSys(c: CmRegs, i: ChipIn): SysIn {
    SysIn(i.mv, CmControl(c), i.held)
  }

  /** The wires from the core to the control module. */
  function ToCm(s: Sys, i: ChipIn): FromCore {
    FromCore(s.core.pc, s.core.extraReadData, i.debugVector)
  }

  function ChipNext(x: Chip, i: ChipIn): Chip {
    Chip(CmNext(x.cm, i.master, ToCm(x.sys, i)), SysNext(x.sys, ToSys(x.cm, i)))
  }

  function ChipRun(x: Chip, inputs: seq<ChipIn>): Chip
    decreases |inputs|
  {
    if inputs == [] then x else ChipRun(ChipNext(x, inputs[0]), inputs[1..])
  }

  /** What the core sees during a run of the whole. */
  function CoreSide(x: Chip, inputs: seq<ChipIn>): seq<SysIn>
    decreases |inputs|
  {
    if inputs == [] then [] else [ToSys(x.cm, inputs[0])] + CoreSide(ChipNext(x, inputs[0]), inputs[1..])
  }

  lemma {:induction false} CoreSideLength(x: Chip, inputs: seq<ChipIn>)
    ensures |CoreSide(x, inputs)| == |inputs|
    decreases |inputs|
  {
    hide ChipNext, ToSys;
    if inputs != [] {
      CoreSideLength(ChipNext(x, inputs[0]), inputs[1..]);
    }
  }

  lemma CoreSideHead(x: Chip, inputs: seq<ChipIn>, n: Chip, rest: seq<ChipIn>)
    requires inputs != [] && n == ChipNext(x, inputs[0]) && rest == inputs[1..]
    ensures CoreSide(x, inputs) != [] && CoreSide(x, inputs)[0] == ToSys(x.cm, inputs[0])
    ensures CoreSide(x, inputs)[1..] == CoreSide(n, rest)
    ensures ChipRun(x, inputs) == ChipRun(n, rest)
    ensures n.sys == SysNext(x.sys, CoreSide(x, inputs)[0])
  {
    hide SysNext, CmNext, CmControl;
  }

  /** The core's part of a run is a run of the core. */
  lemma {:induction false} CoreSideRuns(x: Chip, inputs: seq<ChipIn>)
    ensures ChipRun(x, inputs).sys == Run(x.sys, CoreSide(x, inputs))
    decreases |inputs|
  {
    hide ChipNext, ToSys, SysNext, Run, ChipRun, CoreSide;
    if inputs == [] {
      ChipEmptyRun(x);
    } else {
      var n, rest := ChipNext(x, inputs[0]), inputs[1..];
      CoreSideHead(x, inputs, n, rest);
      RunHead(x.sys, CoreSide(x, inputs), n.sys, CoreSide(n, rest));
      CoreSideRuns(n, rest);
    }
  }

  lemma ChipEmptyRun(x: Chip)
    ensures ChipRun(x, []) == x && CoreSide(x, []) == [] && Run(x.sys, []) == x.sys
  {
  }

  // ----- Single steps -----

  predicate IssuesStep(c: CmRegs) {
    c.state == WRITE_ISSUE && c.address == ControlAddress(CTRL_REG_STEP)
  }

  /** The clock after: pc_stall is low because of a STEP. */
  predicate Pulsing(c: CmRegs) {
    c.state == WRITE_WAIT_DONE && c.address == ControlAddress(CTRL_REG_STEP)
  }

  predicate Parked(x: Chip) {
    Boundary(x.sys.core) && x.cm.pcStall
  }

  /** pc_stall is low in the pulse of a STEP and at no other time. */
  predicate Stepped(x: Chip) {
    && (x.cm.pcStall <==> !Pulsing(x.cm))
    && (Pulsing(x.cm) ==> Boundary(x.sys.core))
  }

  /** In this clock the master issues nothing that writes core state, no START, and STEP only while parked. */
  predicate StepsOnly(x: Chip) {
    && Quiet(CmControl(x.cm))
    && (x.cm.state == WRITE_ISSUE ==> x.cm.address != ControlAddress(CTRL_REG_START))
    && (IssuesStep(x.cm) ==> Parked(x))
  }

  predicate StepsOnlyRun(x: Chip, inputs: seq<ChipIn>)
    decreases |inputs|
  {
    inputs == [] || (StepsOnly(x) && StepsOnlyRun(ChipNext(x, inputs[0]), inputs[1..]))
  }

  function StepsIssued(x: Chip, inputs: seq<ChipIn>): nat
    decreases |inputs|
  {
    if inputs == [] then 0
    else Count(IssuesStep(x.cm)) + StepsIssued(ChipNext(x, inputs[0]), inputs[1..])
  }

  /** Out of reset the core is parked at the boot address. */
  lemma ChipStarts(m: Memory)
    ensures
      var x := Chip(RESET_CM, ResetSys(m));
      && CmInv(x.cm) && SysInv(x.sys) && Stepped(x) && Parked(x)
      && Abs(x.sys) == Arch(BOOT_ADDR, ZERO_REGS, m)
  {
    hide SysInv, CmInv;
    ResetCmInv();
    ResetRefines(m);
    ResetIsQuiet(m);
  }

  lemma StallMoves(c: CmRegs, m: FromMaster, k: FromCore)
    ensures
      var n := CmNext(c, m, k);
      && n.pcStall == (if c.state == WRITE_ISSUE then StallAfterIssue(c.address, c.pcStall)
                       else Pulsing(c) || c.pcStall)
      && (Pulsing(n) <==> IssuesStep(c))
  {
    ControlDecode(c.address);
  }

  /** Every STEP issued while parked releases exactly one instruction, one clock later. */
  lemma StepClock(x: Chip, i: ChipIn, n: Chip)
    requires Stepped(x) && StepsOnly(x) && TokenInv(x.sys.core) && n == ChipNext(x, i)
    ensures Stepped(n) && TokenInv(n.sys.core)
    ensures
      Count(Pulsing(x.cm)) + Count(IssuesStep(x.cm))
        == Count(Releases(x.sys, ToSys(x.cm, i))) + Count(Pulsing(n.cm))
  {
    hide SysNext, CmNext, TokenInv, Boundary, FieldsOf;
    StallMoves(x.cm, i.master, ToCm(x.sys, i));
    TokenKept(x.sys, ToSys(x.cm, i), n.sys);
    if IssuesStep(x.cm) {
      StalledStays(x.sys, ToSys(x.cm, i));
    }
  }

  lemma {:induction false} StepsRelease(x: Chip, inputs: seq<ChipIn>)
    requires Stepped(x) && StepsOnlyRun(x, inputs) && TokenInv(x.sys.core)
    ensures Stepped(ChipRun(x, inputs)) && QuietRun(CoreSide(x, inputs))
    ensures
      Count(Pulsing(x.cm)) + StepsIssued(x, inputs)
        == Totals(x.sys, CoreSide(x, inputs)).released + Count(Pulsing(ChipRun(x, inputs).cm))
    decreases |inputs|
  {
    hide ChipNext, ToSys, SysNext, Totals, TokenInv, Stepped, Pulsing, IssuesStep, Releases, CoreSide, Quiet,
      ChipRun, CmControl;
    if inputs == [] {
      ChipEmptyRun(x);
      EmptyRun(x.sys);
    } else {
      var n, rest, core := ChipNext(x, inputs[0]), inputs[1..], CoreSide(x, inputs);
      StepClock(x, inputs[0], n);
      CoreSideHead(x, inputs, n, rest);
      StepsRelease(n, rest);
      ReleasedHead(x.sys, core, n.sys, CoreSide(n, rest));
      ToSysControl(x.cm, inputs[0]);
      assert forall k :: 0 < k < |core| ==> core[k] == CoreSide(n, rest)[k - 1];
    }
  }

  lemma ToSysControl(c: CmRegs, i: ChipIn)
    ensures ToSys(c, i).cm == CmControl(c) && ToSys(c, i).mv == i.mv && CmControl(c).pcStall == c.pcStall
  {
  }

  /** k STEPs, each issued with the core parked, are k steps of the reference machine. */
  lemma StepsAreSteps(x: Chip, inputs: seq<ChipIn>)
    requires SysInv(x.sys) && SlaveLegalRun(x.sys, CoreSide(x, inputs)) && Stepped(x) && StepsOnlyRun(x, inputs)
    requires Parked(x) && Parked(ChipRun(x, inputs)) && DefinedFor(Abs(x.sys), StepsIssued(x, inputs))
    ensures SysInv(ChipRun(x, inputs).sys)
    ensures Abs(ChipRun(x, inputs).sys) == IsaSteps(Abs(x.sys), StepsIssued(x, inputs))
  {
    hide SysInv, Abs, Run, Totals, SlaveLegalRun, DefinedFor, IsaSteps, ChipRun, CoreSide, StepsIssued,
      StepsOnlyRun, TokenInv, LatchesMatch, Boundary, QuietRun;
    SysInvHandshake(x.sys);
    StepsRelease(x, inputs);
    CoreSideRuns(x, inputs);
    ReleasedAreSteps(x.sys, CoreSide(x, inputs));
  }

  // ----- Stopping -----

  /** In this clock the master issues nothing that writes core state or lowers pc_stall. */
  predicate HoldsStall(c: CmRegs) {
    && Quiet(CmControl(c))
    && (c.state == WRITE_ISSUE ==>
          c.address != ControlAddress(CTRL_REG_START) && c.address != ControlAddress(CTRL_REG_STEP))
  }

  predicate HoldsStallRun(x: Chip, inputs: seq<ChipIn>)
    decreases |inputs|
  {
    inputs == [] || (HoldsStall(x.cm) && HoldsStallRun(ChipNext(x, inputs[0]), inputs[1..]))
  }

  lemma HoldsClock(x: Chip, i: ChipIn)
    requires x.cm.pcStall && HoldsStall(x.cm)
    ensures ChipNext(x, i).cm.pcStall && ToSys(x.cm, i).cm.pcStall && Quiet(ToSys(x.cm, i).cm)
  {
    hide SysNext, CmNext, FieldsOf;
    StallMoves(x.cm, i.master, ToCm(x.sys, i));
  }

  lemma {:induction false} HoldsRun(x: Chip, inputs: seq<ChipIn>)
    requires x.cm.pcStall && HoldsStallRun(x, inputs)
    ensures StalledRun(CoreSide(x, inputs)) && QuietRun(CoreSide(x, inputs)) && ChipRun(x, inputs).cm.pcStall
    decreases |inputs|
  {
    hide ChipNext, ToSys, CoreSide, Quiet, ChipRun, HoldsStall, SysNext;
    if inputs == [] {
      ChipEmptyRun(x);
    } else {
      var n, rest, core := ChipNext(x, inputs[0]), inputs[1..], CoreSide(x, inputs);
      HoldsClock(x, inputs[0]);
      CoreSideHead(x, inputs, n, rest);
      HoldsRun(n, rest);
      assert forall k :: 0 < k < |core| ==> core[k] == CoreSide(n, rest)[k - 1];
    }
  }

  /** Parked, the whole architectural state is frozen until the master releases or writes it. */
  lemma StaysFrozen(x: Chip, inputs: seq<ChipIn>)
    requires SysInv(x.sys) && SlaveLegalRun(x.sys, CoreSide(x, inputs)) && HoldsStallRun(x, inputs) && Parked(x)
    ensures Parked(ChipRun(x, inputs)) && SysInv(ChipRun(x, inputs).sys)
    ensures Abs(ChipRun(x, inputs).sys) == Abs(x.sys)
  {
    hide SysInv, Abs, Run, SlaveLegalRun, ChipRun, CoreSide, HoldsStallRun, Boundary, QuietRun, StalledRun;
    HoldsRun(x, inputs);
    CoreSideRuns(x, inputs);
    Frozen(x.sys, CoreSide(x, inputs));
  }

  /** Once stalled, the core finishes the instruction in flight, if any, and parks. */
  lemma StopDrains(x: Chip, inputs: seq<ChipIn>, wt: Waits, limit: nat)
    requires SysInv(x.sys) && SlaveLegalRun(x.sys, CoreSide(x, inputs)) && HoldsStallRun(x, inputs) && x.cm.pcStall
    requires Prompt(x.sys, wt, CoreSide(x, inputs), limit) && |inputs| >= 9 * (limit + 1)
    requires DefinedFor(Abs(x.sys), Owed(x.sys))
    ensures Parked(ChipRun(x, inputs)) && SysInv(ChipRun(x, inputs).sys)
    ensures Abs(ChipRun(x, inputs).sys) == IsaSteps(Abs(x.sys), Owed(x.sys))
  {
    hide SysInv, Abs, Run, SlaveLegalRun, ChipRun, CoreSide, HoldsStallRun, Boundary, QuietRun, StalledRun,
      Prompt, Owed, DefinedFor, IsaSteps;
    HoldsRun(x, inputs);
    CoreSideRuns(x, inputs);
    CoreSideLength(x, inputs);
    StoppedRun(x.sys, wt, CoreSide(x, inputs), limit);
  }

  lemma SysInvKept(s: Sys, inputs: seq<SysIn>)
    requires SysInv(s) && SlaveLegalRun(s, inputs) && QuietRun(inputs) && Boundary(s.core)
    requires DefinedFor(Abs(s), Totals(s, inputs).released)
    ensures SysInv(Run(s, inputs)) && Totals(s, inputs).released == Totals(s, inputs).retired + Owed(Run(s, inputs))
    ensures DefinedFor(Abs(s), Totals(s, inputs).retired)
    ensures Abs(Run(s, inputs)) == IsaSteps(Abs(s), Totals(s, inputs).retired)
  {
    hide SysInv, Abs, Run, Totals, SlaveLegalRun, HandshakeInv, DefinedFor, IsaSteps, Boundary, QuietRun, Owed;
    SysInvHandshake(s);
    RunBalanced(s, inputs);
    BoundaryIsIdle(s);
    StepsCompose(Abs(s), Totals(s, inputs).retired, Owed(Run(s, inputs)));
    QuietRunSteps(s, inputs);
  }

  /**
   * Any run from parked, such as START, some time, STOP, then stalled long enough:
   * the core lands on as many reference steps as it released instructions.
   */
  lemma StartThenStop(x: Chip, before: seq<ChipIn>, y: Chip, after: seq<ChipIn>, wt: Waits, limit: nat)
    requires SysInv(x.sys) && Parked(x) && y == ChipRun(x, before)
    requires SlaveLegalRun(x.sys, CoreSide(x, before)) && QuietRun(CoreSide(x, before))
    requires y.cm.pcStall && HoldsStallRun(y, after) && SlaveLegalRun(y.sys, CoreSide(y, after))
    requires Prompt(y.sys, wt, CoreSide(y, after), limit) && |after| >= 9 * (limit + 1)
    requires DefinedFor(Abs(x.sys), Totals(x.sys, CoreSide(x, before)).released)
    ensures Parked(ChipRun(y, after)) && SysInv(ChipRun(y, after).sys)
    ensures Abs(ChipRun(y, after).sys) == IsaSteps(Abs(x.sys), Totals(x.sys, CoreSide(x, before)).released)
  {
    hide SysInv, Abs, Run, Totals, SlaveLegalRun, ChipRun, CoreSide, HoldsStallRun, QuietRun, Prompt, Owed,
      DefinedFor, IsaSteps, Boundary;
    CoreSideRuns(x, before);
    SysInvKept(x.sys, CoreSide(x, before));
    StepsCompose(Abs(x.sys), Totals(x.sys, CoreSide(x, before)).retired, Owed(y.sys));
    StopDrains(y, after, wt, limit);
  }

  // ----- One STEP -----

  lemma StepIsQuiet(c: CmRegs)
    requires IssuesStep(c) || c.state != WRITE_ISSUE
    ensures Quiet(CmControl(c))
  {
    ControlDecode(c.address);
  }

  /** The pulse: stall is low in the clock after the STEP, and high again in the one after that. */
  lemma StepPulse(x: Chip, i: ChipIn, i': ChipIn)
    requires IssuesStep(x.cm) && Parked(x) && TokenInv(x.sys.core)
    ensures
      var x1 := ChipNext(x, i);
      && Quiet(CmControl(x.cm)) && Quiet(CmControl(x1.cm))
      && Boundary(x1.sys.core) && !x1.cm.pcStall && ChipNext(x1, i').cm.pcStall
  {
    hide SysNext, CmNext, TokenInv, Boundary, FieldsOf;
    var x1 := ChipNext(x, i);
    StepIsQuiet(x.cm);
    StallMoves(x.cm, i.master, ToCm(x.sys, i));
    StepIsQuiet(x1.cm);
    StallMoves(x1.cm, i'.master, ToCm(x1.sys, i'));
    StalledStays(x.sys, ToSys(x.cm, i));
  }

  /** A STEP always starts an instruction one clock later, unless one is still in flight by then. */
  lemma StepStartsIff(x: Chip, i: ChipIn, i': ChipIn)
    requires IssuesStep(x.cm) && x.cm.pcStall && TokenInv(x.sys.core)
    ensures
      Releases(ChipNext(x, i).sys, ToSys(ChipNext(x, i).cm, i')) <==>
      Boundary(x.sys.core) || PlaceOf(x.sys.core) == NEXT_PC
  {
    StallMoves(x.cm, i.master, ToCm(x.sys, i));
    ToSysControl(x.cm, i);
    ToSysControl(ChipNext(x, i).cm, i');
    BoundaryReached(x.sys, ToSys(x.cm, i));
  }

  lemma BoundaryReached(s: Sys, i: SysIn)
    requires TokenInv(s.core) && i.cm.pcStall
    ensures Boundary(SysNext(s, i).core) <==> Boundary(s.core) || PlaceOf(s.core) == NEXT_PC
  {
    TokenStep(s.core, CoreInput(s, i));
  }

  lemma TwoClocks(x: Chip, i: ChipIn, i': ChipIn, x1: Chip)
    requires x1 == ChipNext(x, i)
    ensures ChipRun(x, [i, i']) == ChipNext(x1, i') && CoreSide(x, [i, i']) == [ToSys(x.cm, i), ToSys(x1.cm, i')]
  {
    hide CmNext, SysNext, CmControl;
    var inputs := [i, i'];
    assert inputs[1..] == [i'];
    assert inputs[1..][1..] == [];
    CoreSideHead(x, inputs, x1, [i']);
    CoreSideHead(x1, [i'], ChipNext(x1, i'), []);
    ChipEmptyRun(ChipNext(x1, i'));
  }

  lemma TwoClocksRelease(s: Sys, i: SysIn, i': SysIn)
    ensures
      Totals(s, [i, i']).released == Count(Releases(s, i)) + Count(Releases(SysNext(s, i), i'))
  {
    hide SysNext, Totals, Releases;
    var inputs := [i, i'];
    assert inputs[1..] == [i'];
    ReleasedHead(s, inputs, SysNext(s, i), [i']);
    assert [i'][1..] == [];
    ReleasedHead(SysNext(s, i), [i'], SysNext(SysNext(s, i), i'), []);
    EmptyRun(SysNext(SysNext(s, i), i'));
  }

  lemma PulseReleasesOne(x: Chip, i: ChipIn, i': ChipIn)
    requires IssuesStep(x.cm) && Parked(x) && TokenInv(x.sys.core)
    ensures ChipRun(x, [i, i']).cm.pcStall && QuietRun(CoreSide(x, [i, i']))
    ensures Totals(x.sys, CoreSide(x, [i, i'])).released == 1
  {
    hide ChipNext, SysNext, CmNext, TokenInv, Boundary, FieldsOf, Totals, CmControl, ToSys, CoreSide, ChipRun,
      Quiet, IssuesStep;
    var x1 := ChipNext(x, i);
    StepPulse(x, i, i');
    TwoClocks(x, i, i', x1);
    ToSysControl(x.cm, i);
    ToSysControl(x1.cm, i');
    ChipSys(x, i);
    TwoClocksRelease(x.sys, ToSys(x.cm, i), ToSys(x1.cm, i'));
  }

  lemma ChipSys(x: Chip, i: ChipIn)
    ensures ChipNext(x, i).sys == SysNext(x.sys, ToSys(x.cm, i))
  {
    hide SysNext, CmNext, ToSys;
  }

  /**
   * A STEP issued while parked retires exactly one instruction and parks again,
   * for every memory that answers at all, however much longer than the pulse it takes.
   */
  lemma SingleStep(x: Chip, i: ChipIn, i': ChipIn, after: seq<ChipIn>, wt: Waits, limit: nat)
    requires SysInv(x.sys) && Parked(x) && IssuesStep(x.cm) && Defined(Abs(x.sys))
    requires SlaveLegalRun(x.sys, CoreSide(x, [i, i']))
    requires
      var y := ChipRun(x, [i, i']);
      && HoldsStallRun(y, after) && SlaveLegalRun(y.sys, CoreSide(y, after))
      && Prompt(y.sys, wt, CoreSide(y, after), limit) && |after| >= 9 * (limit + 1)
    ensures
      var z := ChipRun(ChipRun(x, [i, i']), after);
      Parked(z) && SysInv(z.sys) && Abs(z.sys) == IsaStep(Abs(x.sys))
  {
    hide SysInv, Abs, Run, Totals, SlaveLegalRun, ChipRun, CoreSide, HoldsStallRun, QuietRun, Prompt, Defined,
      IsaStep, Boundary, IssuesStep, TokenInv, LatchesMatch;
    SysInvHandshake(x.sys);
    PulseReleasesOne(x, i, i');
    StartThenStop(x, [i, i'], ChipRun(x, [i, i']), after, wt, limit);
  }
}
