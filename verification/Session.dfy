/**
 * The chip as the host's bus: a host access is an AXI transaction with the control
 * module, or a word of the memory behind the core, and between accesses the memory
 * gets time to answer.
 */
module Session {
  import opened Words
  import opened Isa
  import opened ByteLanes
  import opened RegisterFile
  import opened Core
  import opened Tokens
  import opened Machine
  import opened Refinement
  import opened Handshakes
  import opened Progress
  import opened Stepping
  import opened SocControl
  import opened Transactions
  import opened CmAndCore
  import opened RegisterAccess
  import opened Firmware
  import opened Console
  import opened Commands

  // ----- What the host's bus master drives -----

  /** The control module's 64 KiB of addresses. */
  predicate InWindow(base: Word, addr: Word) {
    base <= addr < base + 0x1_0000
  }

  /** The memory host and core share: `size` bytes from `from` on. */
  datatype Ram = Ram(from: int, size: nat)

  /** The host's addresses that are the chip's: anything else on its bus is not part of this model. */
  predicate Mapped(base: Word, ram: Ram, addr: Word) {
    InWindow(base, addr) || ram.from <= addr < ram.from + ram.size
  }

  predicate AllMapped(more: seq<Access>, base: Word, ram: Ram) {
    forall k :: 0 <= k < |more| ==> Mapped(base, ram, more[k].addr)
  }

  datatype Ask = AskRead(addr: Word) | AskWrite(addr: Word, value: Word)

  function AskOf(x: Access): Ask {
    match x
    case In(addr, _) => AskRead(addr)
    case Out(addr, value) => AskWrite(addr, value)
  }

  /** The master's own delays: before its write data, and before it takes a write or read response. */
  datatype Delays = Delays(data: nat, writeResponse: nat, readResponse: nat)

  /** The first clock in which the master takes the response of an access to the control module. */
  function TakesFrom(q: Ask, d: Delays): nat {
    if q.AskRead? then 3 + d.readResponse else 5 + d.data + d.writeResponse
  }

  /** The master in clock k of an access: each VALID until it is accepted, each READY when it pleases. */
  function MasterSignals(q: Ask, base: Word, d: Delays, k: nat): FromMaster {
    if !InWindow(base, q.addr) then FromMaster(false, 0, true, false, 0, false, 0, 0, true)
    else
      var takes := k >= TakesFrom(q, d);
      match q
      case AskRead(addr) => FromMaster(k == 0, addr, takes, false, 0, false, 0, 0, takes)
      case AskWrite(addr, value) => FromMaster(false, 0, takes, k < 2, addr, k == 2 + d.data, value, 15, takes)
  }

  /** One clock of everything but the master: memory, inferred latches, debug vector. */
  datatype Around = Around(mv: Moves, held: Held, debugVector: Word)

  /** How an access goes: the master's delays, and its surroundings until the next access. */
  datatype Conduct = Conduct(delays: Delays, around: seq<Around>)

  function ClockIn(m: FromMaster, e: Around): ChipIn {
    ChipIn(m, e.mv, e.held, e.debugVector)
  }

  /** An access from its clock k on. */
  function Driven(q: Ask, base: Word, d: Delays, k: nat, es: seq<Around>): (inputs: seq<ChipIn>)
    ensures |inputs| == |es|
    decreases |es|
  {
    if es == [] then [] else [ClockIn(MasterSignals(q, base, d, k), es[0])] + Driven(q, base, d, k + 1, es[1..])
  }

  /** How each access goes may depend on everything that went before. */
  type Environment = (seq<Access>, Chip, Ask) -> Conduct

  /** The chip's side of an access. */
  function Carried(x: Chip, q: Ask, base: Word, c: Conduct): Chip {
    ChipRun(x, Driven(q, base, c.delays, 0, c.around))
  }

  /** The host's own port to the memory behind the core. */
  function Deposit(x: Chip, addr: Word, value: Word): Chip {
    x.(sys := x.sys.(slave := x.sys.slave.(mem := WriteWord(x.sys.slave.mem, addr, value, 15))))
  }

  /** An access: a transaction with the control module, or a word read from or written to the memory. */
  function Accessed(x: Chip, q: Ask, base: Word, c: Conduct): Chip {
    var y := Carried(x, q, base, c);
    if q.AskWrite? && !InWindow(base, q.addr) then Deposit(y, q.addr, q.value) else y
  }

  function ChipAfter(x: Chip, more: seq<Access>, base: Word, env: Environment): Chip
    decreases |more|
  {
    if more == [] then x
    else
      var m := |more| - 1;
      var y, q := ChipAfter(x, more[..m], base, env), AskOf(more[m]);
      Accessed(y, q, base, env(more[..m], y, q))
  }

  /** A read's answer: the response the master takes, or the word of memory. */
  function Answer(x: Chip, addr: Word, base: Word, c: Conduct): Word {
    if InWindow(base, addr) then
      var n := 3 + c.delays.readResponse;
      var es := if |c.around| < n then c.around else c.around[..n];
      CmOutputs(ChipRun(x, Driven(AskRead(addr), base, c.delays, 0, es)).cm).rdata
    else ReadWord(x.sys.slave.mem, addr)
  }

  /** From `start` on, as long as the host keeps to the chip's addresses, its bus is this chip. */
  ghost predicate IsChip(bus: Bus, start: seq<Access>, x: Chip, base: Word, ram: Ram, env: Environment) {
    forall more: seq<Access>, addr: Word :: AllMapped(more, base, ram) && Mapped(base, ram, addr) ==>
      var y := ChipAfter(x, more, base, env);
      bus(start + more, addr) == Answer(y, addr, base, env(more, y, AskRead(addr)))
  }

  // ----- Splitting runs -----

  lemma {:induction false} ChipRunAppend(x: Chip, a: seq<ChipIn>, b: seq<ChipIn>)
    ensures ChipRun(x, a + b) == ChipRun(ChipRun(x, a), b)
    ensures CoreSide(x, a + b) == CoreSide(x, a) + CoreSide(ChipRun(x, a), b)
    decreases |a|
  {
    hide ChipNext, ToSys;
    if a == [] {
      assert a + b == b;
    } else {
      assert (a + b)[1..] == a[1..] + b;
      ChipRunAppend(ChipNext(x, a[0]), a[1..], b);
    }
  }

  lemma {:induction false} LegalAppend(s: Sys, p: seq<SysIn>, q: seq<SysIn>)
    ensures SlaveLegalRun(s, p + q) <==> SlaveLegalRun(s, p) && SlaveLegalRun(Run(s, p), q)
    decreases |p|
  {
    hide SysNext, SlaveLegal;
    if p == [] {
      assert p + q == q;
    } else {
      assert (p + q)[1..] == p[1..] + q;
      LegalAppend(SysNext(s, p[0]), p[1..], q);
    }
  }

  lemma LegalParts(x: Chip, a: seq<ChipIn>, b: seq<ChipIn>)
    requires SlaveLegalRun(x.sys, CoreSide(x, a + b))
    ensures SlaveLegalRun(x.sys, CoreSide(x, a)) && SlaveLegalRun(ChipRun(x, a).sys, CoreSide(ChipRun(x, a), b))
  {
    hide SlaveLegalRun, CoreSide, ChipRun, Run;
    ChipRunAppend(x, a, b);
    CoreSideRuns(x, a);
    LegalAppend(x.sys, CoreSide(x, a), CoreSide(ChipRun(x, a), b));
  }

  lemma {:induction false} DrivenAppend(q: Ask, base: Word, d: Delays, k: nat, e: seq<Around>, f: seq<Around>)
    ensures Driven(q, base, d, k, e + f) == Driven(q, base, d, k, e) + Driven(q, base, d, k + |e|, f)
    decreases |e|
  {
    hide MasterSignals, ClockIn;
    if e == [] {
      assert e + f == f;
    } else {
      assert (e + f)[1..] == e[1..] + f;
      DrivenAppend(q, base, d, k + 1, e[1..], f);
    }
  }

  lemma DrivenHead(q: Ask, base: Word, d: Delays, k: nat, es: seq<Around>)
    requires es != []
    ensures Driven(q, base, d, k, es)[0] == ClockIn(MasterSignals(q, base, d, k), es[0])
    ensures Driven(q, base, d, k, es)[1..] == Driven(q, base, d, k + 1, es[1..])
  {
    hide MasterSignals, ClockIn;
  }

  lemma NothingDriven(q: Ask, base: Word, d: Delays, k: nat)
    ensures Driven(q, base, d, k, []) == []
  {
  }

  // ----- A chip between accesses -----

  /** Parked, with the slave port idle. */
  ghost predicate Ready(x: Chip) {
    SysInv(x.sys) && CmInv(x.cm) && Parked(x) && x.cm.state == CM_IDLE
  }

  lemma ResetIsReady(m: Memory)
    ensures Ready(Chip(RESET_CM, ResetSys(m))) && Abs(ResetSys(m)) == Arch(BOOT_ADDR, ZERO_REGS, m)
  {
    hide SysInv, CmInv;
    ChipStarts(m);
  }

  lemma HoldsNothing(x: Chip)
    ensures HoldsStallRun(x, [])
  {
  }

  lemma HoldsHead(x: Chip, inputs: seq<ChipIn>, n: Chip, rest: seq<ChipIn>)
    requires inputs != [] && n == ChipNext(x, inputs[0]) && rest == inputs[1..]
    ensures HoldsStallRun(x, inputs) <==> HoldsStall(x.cm) && HoldsStallRun(n, rest)
    ensures ChipRun(x, inputs) == ChipRun(n, rest)
  {
    hide ChipNext, HoldsStall;
  }

  lemma IdleHolds(c: CmRegs)
    requires c.state != WRITE_ISSUE
    ensures HoldsStall(c)
  {
    hide CmControl, Quiet;
    StepIsQuiet(c);
  }

  /** One clock of an access whose first input is split off. */
  lemma DrivenClock(x: Chip, q: Ask, base: Word, d: Delays, k: nat, es: seq<Around>, n: Chip)
    requires es != [] && n == ChipNext(x, ClockIn(MasterSignals(q, base, d, k), es[0]))
    ensures
      HoldsStallRun(x, Driven(q, base, d, k, es)) <==>
      HoldsStall(x.cm) && HoldsStallRun(n, Driven(q, base, d, k + 1, es[1..]))
    ensures ChipRun(x, Driven(q, base, d, k, es)) == ChipRun(n, Driven(q, base, d, k + 1, es[1..]))
  {
    hide ChipNext, ChipRun, HoldsStallRun, HoldsStall, MasterSignals, ClockIn, Driven;
    DrivenHead(q, base, d, k, es);
    HoldsHead(x, Driven(q, base, d, k, es), n, Driven(q, base, d, k + 1, es[1..]));
  }

  lemma {:induction false} CmInvRuns(x: Chip, inputs: seq<ChipIn>)
    requires CmInv(x.cm)
    ensures CmInv(ChipRun(x, inputs).cm)
    decreases |inputs|
  {
    hide CmInv, CmNext, SysNext;
    if inputs != [] {
      CmInvKept(x.cm, inputs[0].master, ToCm(x.sys, inputs[0]));
      CmInvRuns(ChipNext(x, inputs[0]), inputs[1..]);
    }
  }

  // ----- The slave port during an access -----

  /** A request has been made and its response, if any, waits to be taken. */
  predicate Responding(st: CmState) {
    st == CM_IDLE || st == READ_RESP || st == WRITE_RESP
  }

  /** The port idles once the last clock has the master taking responses. */
  predicate TakesAtEnd(q: Ask, base: Word, d: Delays, k: nat, n: nat) {
    n > 0 && (!InWindow(base, q.addr) || k + n > TakesFrom(q, d))
  }

  /** A master that asks for nothing more leaves the chip stalled, and the port idle once it takes the response. */
  lemma {:induction false} Settles(x: Chip, q: Ask, base: Word, d: Delays, k: nat, es: seq<Around>)
    requires Responding(x.cm.state) && k >= 3
    ensures HoldsStallRun(x, Driven(q, base, d, k, es))
    ensures
      var st := ChipRun(x, Driven(q, base, d, k, es)).cm.state;
      Responding(st) && (TakesAtEnd(q, base, d, k, |es|) || (es == [] && x.cm.state == CM_IDLE) ==> st == CM_IDLE)
    decreases |es|
  {
    hide ChipNext, ChipRun, HoldsStallRun, CoreSide, HoldsStall, MasterSignals, ClockIn, Driven;
    if es == [] {
      NothingDriven(q, base, d, k);
      ChipEmptyRun(x);
      HoldsNothing(x);
    } else {
      var n := ChipNext(x, ClockIn(MasterSignals(q, base, d, k), es[0]));
      DrivenClock(x, q, base, d, k, es, n);
      IdleHolds(x.cm);
      SettlesClock(x, q, base, d, k, es[0]);
      Settles(n, q, base, d, k + 1, es[1..]);
    }
  }

  lemma SettlesClock(x: Chip, q: Ask, base: Word, d: Delays, k: nat, e: Around)
    requires Responding(x.cm.state) && k >= 3
    ensures
      var st := ChipNext(x, ClockIn(MasterSignals(q, base, d, k), e)).cm.state;
      && Responding(st) && (x.cm.state == CM_IDLE ==> st == CM_IDLE)
      && (!InWindow(base, q.addr) || k >= TakesFrom(q, d) ==> st == CM_IDLE)
  {
    hide SysNext, FieldsOf;
  }

  /** A read, or any access outside the window, holds the stall to its end. */
  lemma ReadHolds(x: Chip, q: Ask, base: Word, c: Conduct)
    requires x.cm.state == CM_IDLE && (q.AskRead? || !InWindow(base, q.addr))
    requires |c.around| > 3 && |c.around| > TakesFrom(q, c.delays)
    ensures HoldsStallRun(x, Driven(q, base, c.delays, 0, c.around)) && Carried(x, q, base, c).cm.state == CM_IDLE
  {
    hide ChipNext, ChipRun, HoldsStallRun, HoldsStall, Driven, MasterSignals, ClockIn;
    var d, es := c.delays, c.around;
    var x1, x2, x3 := ReadThree(x, q, base, d, es);
    Settles(x3, q, base, d, 3, es[3..]);
  }

  /** The first three clocks of such an access. */
  lemma ReadThree(x: Chip, q: Ask, base: Word, d: Delays, es: seq<Around>) returns (x1: Chip, x2: Chip, x3: Chip)
    requires x.cm.state == CM_IDLE && (q.AskRead? || !InWindow(base, q.addr)) && |es| >= 3
    ensures x1 == ChipNext(x, ClockIn(MasterSignals(q, base, d, 0), es[0]))
    ensures x2 == ChipNext(x1, ClockIn(MasterSignals(q, base, d, 1), es[1]))
    ensures x3 == ChipNext(x2, ClockIn(MasterSignals(q, base, d, 2), es[2]))
    ensures Responding(x3.cm.state)
    ensures InWindow(base, q.addr) ==>
      x1.cm.state == READ_ISSUE && x1.cm.address == q.addr % 0x1_0000 && x3.cm.state == READ_RESP
    ensures
      HoldsStallRun(x3, Driven(q, base, d, 3, es[3..])) ==> HoldsStallRun(x, Driven(q, base, d, 0, es))
    ensures ChipRun(x, Driven(q, base, d, 0, es)) == ChipRun(x3, Driven(q, base, d, 3, es[3..]))
  {
    hide ChipNext, ChipRun, HoldsStallRun, HoldsStall, Driven, MasterSignals, ClockIn;
    x1 := ChipNext(x, ClockIn(MasterSignals(q, base, d, 0), es[0]));
    x2 := ChipNext(x1, ClockIn(MasterSignals(q, base, d, 1), es[1]));
    x3 := ChipNext(x2, ClockIn(MasterSignals(q, base, d, 2), es[2]));
    ReadStates(x, q, base, d, es[0], es[1], es[2]);
    DrivenClock(x, q, base, d, 0, es, x1);
    DrivenClock(x1, q, base, d, 1, es[1..], x2);
    DrivenClock(x2, q, base, d, 2, es[1..][1..], x3);
    assert es[1..][1..] == es[2..] && es[2..][1..] == es[3..];
    IdleHolds(x.cm);
    IdleHolds(x1.cm);
    IdleHolds(x2.cm);
  }

  lemma ReadStates(x: Chip, q: Ask, base: Word, d: Delays, e: Around, e': Around, e'': Around)
    requires x.cm.state == CM_IDLE && (q.AskRead? || !InWindow(base, q.addr))
    ensures
      var x1 := ChipNext(x, ClockIn(MasterSignals(q, base, d, 0), e));
      var x2 := ChipNext(x1, ClockIn(MasterSignals(q, base, d, 1), e'));
      var x3 := ChipNext(x2, ClockIn(MasterSignals(q, base, d, 2), e''));
      && x1.cm.state != WRITE_ISSUE && x2.cm.state != WRITE_ISSUE && Responding(x3.cm.state)
      && (InWindow(base, q.addr) ==>
            x1.cm.state == READ_ISSUE && x1.cm.address == q.addr % 0x1_0000 && x3.cm.state == READ_RESP)
  {
    hide SysNext, FieldsOf;
  }

  /** Address accepted, the port waits for the data however long they take. */
  lemma {:induction false} WaitsForData(x: Chip, q: Ask, base: Word, d: Delays, k: nat, es: seq<Around>)
    requires x.cm.state == WRITE_RECV_DATA && x.cm.address == q.addr % 0x1_0000
    requires q.AskWrite? && InWindow(base, q.addr) && 2 <= k <= 2 + d.data && |es| == 3 + d.data - k
    ensures HoldsStallRun(x, Driven(q, base, d, k, es))
    ensures Requests(ChipRun(x, Driven(q, base, d, k, es)).cm, q.addr, q.value)
    decreases |es|
  {
    hide ChipNext, ChipRun, HoldsStallRun, HoldsStall, Driven, MasterSignals, ClockIn, CoreSide;
    var n := ChipNext(x, ClockIn(MasterSignals(q, base, d, k), es[0]));
    DrivenClock(x, q, base, d, k, es, n);
    IdleHolds(x.cm);
    DataTaken(x, q, base, d, k, es[0]);
    if k < 2 + d.data {
      WaitsForData(n, q, base, d, k + 1, es[1..]);
    } else {
      assert es[1..] == [];
      NothingDriven(q, base, d, k + 1);
      ChipEmptyRun(n);
      HoldsNothing(n);
    }
  }

  lemma DataTaken(x: Chip, q: Ask, base: Word, d: Delays, k: nat, e: Around)
    requires x.cm.state == WRITE_RECV_DATA && x.cm.address == q.addr % 0x1_0000
    requires q.AskWrite? && InWindow(base, q.addr) && 2 <= k <= 2 + d.data
    ensures
      var n := ChipNext(x, ClockIn(MasterSignals(q, base, d, k), e)).cm;
      if k < 2 + d.data then n.state == WRITE_RECV_DATA && n.address == x.cm.address
      else Requests(n, q.addr, q.value)
  {
    hide SysNext, FieldsOf;
  }

  lemma AddressClocks(x: Chip, q: Ask, base: Word, d: Delays, e: Around, e': Around)
    requires x.cm.state == CM_IDLE && q.AskWrite? && InWindow(base, q.addr)
    ensures
      var x1 := ChipNext(x, ClockIn(MasterSignals(q, base, d, 0), e));
      var x2 := ChipNext(x1, ClockIn(MasterSignals(q, base, d, 1), e'));
      x1.cm.state == WRITE_RECV_ADDR && x2.cm.state == WRITE_RECV_DATA && x2.cm.address == q.addr % 0x1_0000
  {
    hide SysNext, FieldsOf;
  }

  /** Up to its issue a write holds the stall. */
  lemma ReachesIssue(x: Chip, q: Ask, base: Word, d: Delays, es: seq<Around>)
    requires |es| == 3 + d.data && x.cm.state == CM_IDLE && q.AskWrite? && InWindow(base, q.addr)
    ensures HoldsStallRun(x, Driven(q, base, d, 0, es))
    ensures Requests(ChipRun(x, Driven(q, base, d, 0, es)).cm, q.addr, q.value)
  {
    hide ChipNext, ChipRun, HoldsStallRun, HoldsStall, Driven, MasterSignals, ClockIn;
    var x1 := ChipNext(x, ClockIn(MasterSignals(q, base, d, 0), es[0]));
    var x2 := ChipNext(x1, ClockIn(MasterSignals(q, base, d, 1), es[1]));
    AddressClocks(x, q, base, d, es[0], es[1]);
    DrivenClock(x, q, base, d, 0, es, x1);
    DrivenClock(x1, q, base, d, 1, es[1..], x2);
    assert es[1..][1..] == es[2..];
    IdleHolds(x.cm);
    IdleHolds(x1.cm);
    WaitsForData(x2, q, base, d, 2, es[2..]);
  }

  lemma IssuedResponds(x: Chip, i: ChipIn, i': ChipIn)
    requires x.cm.state == WRITE_ISSUE
    ensures ChipNext(x, i).cm.state == WRITE_WAIT_DONE && ChipNext(ChipNext(x, i), i').cm.state == WRITE_RESP
  {
    hide SysNext, FieldsOf;
  }

  // ----- What is asked of the surroundings -----

  /** Where a write stands two clocks after its issue. */
  function AfterIssue(q: Ask, d: Delays): nat {
    5 + d.data
  }

  /** Legality and time, and prompt answers of the memory once a STEP's pulse is over. */
  ghost predicate Served(x: Chip, q: Ask, base: Word, c: Conduct, limit: nat) {
    var k := AfterIssue(q, c.delays);
    && |c.around| > k + 9 * (limit + 1) && |c.around| > TakesFrom(q, c.delays)
    && SlaveLegalRun(x.sys, CoreSide(x, Driven(q, base, c.delays, 0, c.around)))
    && (var z := ChipRun(x, Driven(q, base, c.delays, 0, c.around[..k]));
        Prompt(z.sys, NO_WAITS, CoreSide(z, Driven(q, base, c.delays, k, c.around[k..])), limit))
  }

  ghost predicate Serves(env: Environment, base: Word, limit: nat) {
    forall log, x, q :: Ready(x) ==> Served(x, q, base, env(log, x, q), limit)
  }

  // ----- Accesses that change nothing of the core -----

  lemma ReadChangesNothing(x: Chip, q: Ask, base: Word, c: Conduct, limit: nat)
    requires Ready(x) && Served(x, q, base, c, limit) && (q.AskRead? || !InWindow(base, q.addr))
    ensures Ready(Carried(x, q, base, c)) && Abs(Carried(x, q, base, c).sys) == Abs(x.sys)
  {
    hide SysInv, CmInv, Abs, ChipRun, HoldsStallRun, CoreSide, SlaveLegalRun, Driven, Boundary, Prompt;
    ReadHolds(x, q, base, c);
    StaysFrozen(x, Driven(q, base, c.delays, 0, c.around));
    CmInvRuns(x, Driven(q, base, c.delays, 0, c.around));
  }

  /** A word the host writes into the memory of a parked chip changes that word and nothing else. */
  lemma DepositChanges(x: Chip, addr: Word, value: Word)
    requires Ready(x)
    ensures Ready(Deposit(x, addr, value))
    ensures
      Abs(Deposit(x, addr, value).sys) == Abs(x.sys).(mem := WriteWord(Abs(x.sys).mem, addr, value, 15))
  {
    hide CmInv, WriteWord, ReadWord, ReadReg;
  }

  // ----- Writes to the control module -----

  /** The write up to its issue, its two clocks of effect, and the rest. */
  lemma WriteSplits(q: Ask, base: Word, d: Delays, es: seq<Around>)
    requires |es| >= AfterIssue(q, d)
    ensures
      var k := 3 + d.data;
      var e, pulse := Driven(q, base, d, 0, es[..k]), Driven(q, base, d, k, es[k..k + 2]);
      var f := Driven(q, base, d, k + 2, es[k + 2..]);
      Driven(q, base, d, 0, es) == e + (pulse + f) && Driven(q, base, d, 0, es[..k + 2]) == e + pulse
  {
    hide Driven;
    var k := 3 + d.data;
    assert es == es[..k] + es[k..] && es[k..] == es[k..k + 2] + es[k + 2..] && es[..k + 2] == es[..k] + es[k..k + 2];
    DrivenAppend(q, base, d, 0, es[..k], es[k..]);
    DrivenAppend(q, base, d, k, es[k..k + 2], es[k + 2..]);
    DrivenAppend(q, base, d, 0, es[..k], es[k..k + 2]);
  }

  /** The state in which a write is issued, reached without a change of the architectural state. */
  lemma Issued(x: Chip, q: Ask, base: Word, c: Conduct, limit: nat) returns (y: Chip, pulse: seq<ChipIn>, f: seq<ChipIn>)
    requires Ready(x) && Served(x, q, base, c, limit) && q.AskWrite? && InWindow(base, q.addr)
    ensures Requests(y.cm, q.addr, q.value) && CmInv(y.cm) && SysInv(y.sys) && Parked(y) && Abs(y.sys) == Abs(x.sys)
    ensures |pulse| == 2 && SlaveLegalRun(y.sys, CoreSide(y, pulse + f))
    ensures f == Driven(q, base, c.delays, AfterIssue(q, c.delays), c.around[AfterIssue(q, c.delays)..])
    ensures Carried(x, q, base, c) == ChipRun(y, pulse + f)
    ensures ChipRun(y, pulse) == ChipRun(x, Driven(q, base, c.delays, 0, c.around[..AfterIssue(q, c.delays)]))
  {
    hide SysInv, CmInv, Abs, ChipRun, HoldsStallRun, CoreSide, SlaveLegalRun, Driven, Boundary, Prompt, MasterSignals;
    var d, es, k := c.delays, c.around, 3 + c.delays.data;
    var e := Driven(q, base, d, 0, es[..k]);
    pulse := Driven(q, base, d, k, es[k..k + 2]);
    f := Driven(q, base, d, k + 2, es[k + 2..]);
    WriteSplits(q, base, d, es);
    y := ChipRun(x, e);
    LegalParts(x, e, pulse + f);
    ChipRunAppend(x, e, pulse + f);
    ChipRunAppend(x, e, pulse);
    ReachesIssue(x, q, base, d, es[..k]);
    StaysFrozen(x, e);
    CmInvRuns(x, e);
  }

  lemma PulseStalls(y: Chip, i: ChipIn, i': ChipIn)
    requires IssuesStep(y.cm) && Parked(y) && SysInv(y.sys)
    ensures ChipRun(y, [i, i']).cm.pcStall
  {
    hide SysInv, ChipRun, CoreSide, TokenInv, LatchesMatch, Boundary, QuietRun, Totals;
    SysInvHandshake(y.sys);
    PulseReleasesOne(y, i, i');
  }

  /** The host's STEP write, handshakes and all, takes the parked chip through exactly one reference step. */
  lemma StepAccess(x: Chip, q: Ask, base: Word, c: Conduct, limit: nat)
    requires Ready(x) && Served(x, q, base, c, limit) && Defined(Abs(x.sys))
    requires q.AskWrite? && InWindow(base, q.addr) && q.addr % 0x1_0000 == ControlAddress(CTRL_REG_STEP)
    ensures Ready(Carried(x, q, base, c)) && Abs(Carried(x, q, base, c).sys) == IsaStep(Abs(x.sys))
  {
    hide SysInv, CmInv, Abs, ChipRun, HoldsStallRun, CoreSide, SlaveLegalRun, Driven, Boundary, Prompt, Defined,
      IsaStep, MasterSignals, ChipNext;
    var k := AfterIssue(q, c.delays);
    var y, pulse, f := Issued(x, q, base, c, limit);
    var i, i' := pulse[0], pulse[1];
    assert pulse == [i, i'];
    LegalParts(y, pulse, f);
    ChipRunAppend(y, pulse, f);
    var z := ChipRun(y, pulse);
    TwoClocks(y, i, i', ChipNext(y, i));
    IssuedResponds(y, i, i');
    PulseStalls(y, i, i');
    Settles(z, q, base, c.delays, k, c.around[k..]);
    SingleStep(y, i, i', f, NO_WAITS, limit);
    CmInvRuns(y, pulse + f);
  }

  /** The effect of a control module address other than START and STEP on a parked chip. */
  ghost function WriteEffect(a: Arch, at: UsedAddr, value: Word): Arch {
    var f := FieldsOf(at);
    if at == ControlAddress(CTRL_REG_PC) then a.(pc := value)
    else if NamesRegister(at) then a.(regs := WriteReg(a.regs, f.reg, value))
    else if NamesFault(at) then a.(regs := WriteReg(a.regs, f.reg, Inject(f.mode, ReadReg(a.regs, f.reg), value)))
    else a
  }

  lemma WritesAsEffect(c: CmRegs, a: Arch, after: Arch)
    requires WritesAs(c, a, after) && c.strobe == 15 && c.pcStall
    ensures after == WriteEffect(a, c.address, c.writeData)
  {
    hide Inject, WriteReg, ReadReg, NamesRegister, NamesFault, RegisterAddress, FaultAddress, FieldsOf;
    RegisterDecode(c.address);
    FaultDecode(c.address);
    PcNotOther();
  }

  /** The host's write of any other address has that address's effect and leaves the chip parked. */
  lemma WriteAccess(x: Chip, q: Ask, base: Word, c: Conduct, limit: nat)
    requires Ready(x) && Served(x, q, base, c, limit) && q.AskWrite? && InWindow(base, q.addr)
    requires q.addr % 0x1_0000 != ControlAddress(CTRL_REG_STEP) && q.addr % 0x1_0000 != ControlAddress(CTRL_REG_START)
    ensures Ready(Carried(x, q, base, c))
    ensures Abs(Carried(x, q, base, c).sys) == WriteEffect(Abs(x.sys), q.addr % 0x1_0000, q.value)
  {
    hide SysInv, CmInv, Abs, ChipRun, HoldsStallRun, CoreSide, SlaveLegalRun, Driven, Boundary, Prompt, MasterSignals,
      ChipNext, WritesAs, WriteEffect, HoldsStall, SlaveLegal, Transactions.RegisterAddress;
    var k := AfterIssue(q, c.delays);
    var y, pulse, f := Issued(x, q, base, c, limit);
    var i, i' := pulse[0], pulse[1];
    assert pulse == [i, i'];
    var y1, inputs := ChipNext(y, i), pulse + f;
    assert inputs[0] == i && inputs[1..] == [i'] + f;
    LegalFirst(y, inputs, y1, inputs[1..]);
    IdleWrite(y, i);
    WritesAsEffect(y.cm, Abs(y.sys), Abs(y1.sys));
    OtherWriteStays(y, i);
    IssuedResponds(y, i, i');
    var z := ChipNext(y1, i');
    Settles(z, q, base, c.delays, k, c.around[k..]);
    IdleHolds(y1.cm);
    assert inputs[1..][1..] == f;
    HoldsHead(y1, inputs[1..], z, f);
    HoldsHead(y, inputs, y1, inputs[1..]);
    StaysFrozen(y1, inputs[1..]);
    CmInvRuns(y, inputs);
  }

  lemma LegalFirst(x: Chip, inputs: seq<ChipIn>, n: Chip, rest: seq<ChipIn>)
    requires inputs != [] && n == ChipNext(x, inputs[0]) && rest == inputs[1..]
    requires SlaveLegalRun(x.sys, CoreSide(x, inputs))
    ensures SlaveLegal(x.sys.slave, inputs[0].mv) && SlaveLegalRun(n.sys, CoreSide(n, rest))
  {
    hide ChipNext, SysNext, SlaveLegal, SlaveLegalRun, CoreSide, ChipRun;
    CoreSideHead(x, inputs, n, rest);
    ToSysControl(x.cm, inputs[0]);
    LegalHead(x.sys, CoreSide(x, inputs), n.sys, CoreSide(n, rest));
  }

  lemma OtherWriteStays(x: Chip, i: ChipIn)
    requires SysInv(x.sys) && Parked(x) && x.cm.state == WRITE_ISSUE
    requires x.cm.address != ControlAddress(CTRL_REG_STEP) && x.cm.address != ControlAddress(CTRL_REG_START)
    ensures Parked(ChipNext(x, i))
  {
    hide CmNext, SysNext, SysInv, Boundary, TokenInv, SysInvFor;
    SysInvHandshake(x.sys);
    StallMoves(x.cm, i.master, ToCm(x.sys, i));
    ToSysControl(x.cm, i);
    StalledStays(x.sys, ToSys(x.cm, i));
    ChipSys(x, i);
  }

  // ----- Answers -----

  /** A response waiting to be taken does not change. */
  lemma {:induction false} ResponseWaits(x: Chip, q: Ask, base: Word, d: Delays, k: nat, es: seq<Around>)
    requires x.cm.state == READ_RESP && q.AskRead? && InWindow(base, q.addr) && 3 <= k && k + |es| <= 3 + d.readResponse
    ensures CmOutputs(ChipRun(x, Driven(q, base, d, k, es)).cm) == CmOutputs(x.cm)
    decreases |es|
  {
    hide ChipNext, ChipRun, Driven, CmOutputs, ClockIn, HoldsStallRun, CoreSide, MasterSignals;
    if es == [] {
      NothingDriven(q, base, d, k);
      ChipEmptyRun(x);
    } else {
      var n := ChipNext(x, ClockIn(MasterSignals(q, base, d, k), es[0]));
      DrivenClock(x, q, base, d, k, es, n);
      ResponseClock(x, q, base, d, k, es[0]);
      ResponseWaits(n, q, base, d, k + 1, es[1..]);
    }
  }

  lemma ResponseClock(x: Chip, q: Ask, base: Word, d: Delays, k: nat, e: Around)
    requires x.cm.state == READ_RESP && q.AskRead? && InWindow(base, q.addr) && k < 3 + d.readResponse
    ensures
      var n := ChipNext(x, ClockIn(MasterSignals(q, base, d, k), e)).cm;
      n.state == READ_RESP && CmOutputs(n) == CmOutputs(x.cm)
  {
    hide SysNext, FieldsOf;
  }

  /** The answer of the control module is the value its address has in the parked chip. */
  lemma WindowAnswer(x: Chip, addr: Word, base: Word, c: Conduct, limit: nat) returns (x1: Chip, i: ChipIn)
    requires Ready(x) && Served(x, AskRead(addr), base, c, limit) && InWindow(base, addr)
    ensures Parked(x1) && SysInv(x1.sys) && Abs(x1.sys) == Abs(x.sys) && x1.cm.address == addr % 0x1_0000
    ensures ReadsAs(x1, i, Answer(x, addr, base, c))
  {
    hide SysInv, CmInv, ChipRun, HoldsStallRun, CoreSide, SlaveLegalRun, Driven, Prompt, ChipNext, CmOutputs, MasterSignals,
      HoldsStall, Abs, Boundary, ReadsAs, Readable, ClockIn;
    var q, d, n := AskRead(addr), c.delays, 3 + c.delays.readResponse;
    var es := c.around[..n];
    var x2, x3;
    x1, x2, x3 := ReadThree(x, q, base, d, es);
    i := ClockIn(MasterSignals(q, base, d, 1), es[1]);
    ResponseWaits(x3, q, base, d, 3, es[3..]);
    FirstClockFrozen(x, q, base, d, c.around);
    FirstClockInv(x, ClockIn(MasterSignals(q, base, d, 0), es[0]));
    ReadReturnsIssueValue(x1, i, ClockIn(MasterSignals(q, base, d, 2), es[2]));
  }

  lemma FirstClockInv(x: Chip, i: ChipIn)
    requires CmInv(x.cm)
    ensures CmInv(ChipNext(x, i).cm)
  {
    hide CmInv, CmNext, SysNext;
    CmInvKept(x.cm, i.master, ToCm(x.sys, i));
  }

  lemma FirstClockFrozen(x: Chip, q: Ask, base: Word, d: Delays, es: seq<Around>)
    requires Ready(x) && es != [] && SlaveLegalRun(x.sys, CoreSide(x, Driven(q, base, d, 0, es)))
    ensures
      var x1 := ChipNext(x, ClockIn(MasterSignals(q, base, d, 0), es[0]));
      Parked(x1) && Abs(x1.sys) == Abs(x.sys) && SysInv(x1.sys)
  {
    hide SysInv, CmInv, Abs, ChipRun, HoldsStallRun, CoreSide, SlaveLegalRun, Boundary, Driven, MasterSignals, ChipNext;
    var one := Driven(q, base, d, 0, es[..1]);
    assert es == es[..1] + es[1..];
    DrivenAppend(q, base, d, 0, es[..1], es[1..]);
    LegalParts(x, one, Driven(q, base, d, 1, es[1..]));
    DrivenHead(q, base, d, 0, es[..1]);
    NothingDriven(q, base, d, 1);
    assert es[..1][1..] == [];
    var x1 := ChipNext(x, one[0]);
    HoldsHead(x, one, x1, []);
    HoldsNothing(x1);
    ChipEmptyRun(x1);
    IdleHolds(x.cm);
    StaysFrozen(x, one);
  }

  lemma ParkedPc(x: Chip)
    requires SysInv(x.sys) && Parked(x)
    ensures Abs(x.sys).pc == x.sys.core.pc && Abs(x.sys).regs == x.sys.core.regs
  {
    hide SysInvFor, LatchesMatch;
    SysInvHandshake(x.sys);
    BoundaryIsIdle(x.sys);
  }

  // ----- A memory that answers at once -----

  function EagerMoves(s: Slave): Moves {
    Moves(true, s.reading.Some?, true, true, s.committed, true)
  }

  function Eager(x: Chip, q: Ask, base: Word, d: Delays, k: nat, n: nat): (es: seq<Around>)
    ensures |es| == n
    decreases n
  {
    if n == 0 then []
    else
      var e := Around(EagerMoves(x.sys.slave), Held(0, 0), 0);
      [e] + Eager(ChipNext(x, ClockIn(MasterSignals(q, base, d, k), e)), q, base, d, k + 1, n - 1)
  }

  /** Handshakes as ever, and a write is performed before its response is awaited. */
  ghost predicate EagerInv(s: Sys) {
    HandshakeInv(s) && (s.core.arb.state == Arbiter.S_RESP ==> s.slave.committed)
  }

  lemma EagerClock(s: Sys, i: SysIn)
    requires EagerInv(s) && i.mv == EagerMoves(s.slave)
    ensures SlaveLegal(s.slave, i.mv) && EagerInv(SysNext(s, i)) && WaitsNext(NO_WAITS, SysBus(s, i), i.mv) == NO_WAITS
  {
    hide TokenInv, Balanced, Tallied;
    ClockBalanced(s, i);
    EagerPerforms(s, i, SysNext(s, i), WiresOf(s.core, i.held));
  }

  lemma EagerPerforms(s: Sys, i: SysIn, n: Sys, w: Wires)
    requires EagerInv(s) && i.mv == EagerMoves(s.slave) && n == SysNext(s, i) && w == WiresOf(s.core, i.held)
    ensures n.core.arb.state == Arbiter.S_RESP ==> n.slave.committed
    ensures WaitsNext(NO_WAITS, SysBus(s, i), i.mv) == NO_WAITS
  {
    hide TokenInv, WiresOf, MemNext;
  }

  lemma {:induction false} EagerRuns(x: Chip, q: Ask, base: Word, d: Delays, k: nat, n: nat)
    requires EagerInv(x.sys)
    ensures
      var core := CoreSide(x, Driven(q, base, d, k, Eager(x, q, base, d, k, n)));
      SlaveLegalRun(x.sys, core) && Prompt(x.sys, NO_WAITS, core, 0)
    decreases n
  {
    hide SysNext, ChipNext, MasterSignals, EagerInv, CoreSide, SlaveLegalRun, Prompt, WaitsNext, SysBus, SlaveLegal,
      ToSys;
    if n == 0 {
      NothingPrompt(x);
    } else {
      var es := Eager(x, q, base, d, k, n);
      var inputs := Driven(q, base, d, k, es);
      var y := ChipNext(x, inputs[0]);
      var core := CoreSide(x, inputs);
      assert es[1..] == Eager(y, q, base, d, k + 1, n - 1);
      CoreSideHead(x, inputs, y, inputs[1..]);
      ToSysControl(x.cm, inputs[0]);
      EagerClock(x.sys, core[0]);
      EagerRuns(y, q, base, d, k + 1, n - 1);
      LegalHead(x.sys, core, y.sys, core[1..]);
      PromptHead(x.sys, NO_WAITS, core, 0, y.sys, core[1..], NO_WAITS);
    }
  }

  lemma NothingPrompt(x: Chip)
    ensures CoreSide(x, []) == [] && SlaveLegalRun(x.sys, []) && Prompt(x.sys, NO_WAITS, [], 0)
  {
  }

  lemma {:induction false} EagerSplits(x: Chip, q: Ask, base: Word, d: Delays, k: nat, m: nat, n: nat)
    requires EagerInv(x.sys)
    ensures
      var z := ChipRun(x, Driven(q, base, d, k, Eager(x, q, base, d, k, m)));
      && EagerInv(z.sys)
      && Eager(x, q, base, d, k, m + n) == Eager(x, q, base, d, k, m) + Eager(z, q, base, d, k + m, n)
    decreases m
  {
    hide ChipNext, MasterSignals, EagerInv, SysNext, ToSys, SysBus, WaitsNext, SlaveLegal, CoreSide;
    if m > 0 {
      var es := Eager(x, q, base, d, k, m);
      var inputs := Driven(q, base, d, k, es);
      var y := ChipNext(x, inputs[0]);
      assert es[1..] == Eager(y, q, base, d, k + 1, m - 1);
      ChipSys(x, inputs[0]);
      ToSysControl(x.cm, inputs[0]);
      EagerClock(x.sys, ToSys(x.cm, inputs[0]));
      EagerSplits(y, q, base, d, k + 1, m - 1, n);
      assert ChipRun(x, inputs) == ChipRun(y, inputs[1..]);
    }
  }

  /** Such a memory serves every ready chip, whatever the master's delays. */
  lemma EagerServed(x: Chip, q: Ask, base: Word, d: Delays, n: nat)
    requires Ready(x) && n > AfterIssue(q, d) + 9 && n > TakesFrom(q, d)
    ensures Served(x, q, base, Conduct(d, Eager(x, q, base, d, 0, n)), 0)
  {
    hide SysInv, CmInv, ChipRun, CoreSide, SlaveLegalRun, Driven, Prompt, Eager, EagerInv, Boundary, TokenInv,
      LatchesMatch;
    SysInvHandshake(x.sys);
    ParkedIsEager(x.sys);
    var es, k := Eager(x, q, base, d, 0, n), AfterIssue(q, d);
    EagerSplits(x, q, base, d, 0, k, n - k);
    var z := ChipRun(x, Driven(q, base, d, 0, Eager(x, q, base, d, 0, k)));
    assert es[..k] == Eager(x, q, base, d, 0, k) && es[k..] == Eager(z, q, base, d, k, n - k);
    EagerRuns(x, q, base, d, 0, n);
    EagerRuns(z, q, base, d, k, n - k);
  }

  lemma ParkedIsEager(s: Sys)
    requires HandshakeInv(s) && Boundary(s.core)
    ensures EagerInv(s)
  {
    BoundaryIsIdle(s);
  }

  /** Out of reset with any memory there is a bus that is this chip, and an environment that serves it. */
  lemma SomeWorker(m: Memory, base: Word, ram: Ram, d: Delays)
    ensures
      exists bus: Bus, env: Environment ::
        IsChip(bus, [], Chip(RESET_CM, ResetSys(m)), base, ram, env) && Serves(env, base, 0)
  {
    hide Served, Ready, Answer, ChipAfter, Eager;
    var n := 20 + d.data + d.writeResponse + d.readResponse;
    var env: Environment := (log: seq<Access>, x: Chip, q: Ask) => Conduct(d, Eager(x, q, base, d, 0, n));
    var x := Chip(RESET_CM, ResetSys(m));
    var bus: Bus := (log: seq<Access>, addr: Word) =>
      var y := ChipAfter(x, log, base, env);
      Answer(y, addr, base, env(log, y, AskRead(addr)));
    forall log, x, q | Ready(x)
      ensures Served(x, q, base, env(log, x, q), 0)
    {
      EagerServed(x, q, base, d, n);
    }
    forall more: seq<Access>, addr: Word
      ensures
        var y := ChipAfter(x, more, base, env);
        bus([] + more, addr) == Answer(y, addr, base, env(more, y, AskRead(addr)))
    {
      assert [] + more == more;
    }
    assert IsChip(bus, [], x, base, ram, env) && Serves(env, base, 0);
  }
}
