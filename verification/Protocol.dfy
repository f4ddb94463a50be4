/**
 * What the firmware's commands mean to the reference machine, and that the chip
 * behind the serial line answers and obeys every conversation as that machine would.
 */
module Protocol {
  import opened Words
  import opened Isa
  import opened ByteLanes
  import opened RegisterFile
  import opened Refinement
  import opened SocControl
  import opened Transactions
  import opened CmAndCore
  import opened Firmware
  import opened Text
  import opened Uart
  import opened Console
  import opened Commands
  import opened Session
  import opened Board

  // ----- The meaning of a command -----

  ghost function StateAfter(c: Command, a: Arch): Arch {
    match c
    case Step => IsaStep(a)
    case SetPc(v) => a.(pc := v)
    case SetReg(r, v) => a.(regs := WriteReg(a.regs, r, v))
    case WriteMem(at, v) => a.(mem := WriteWord(a.mem, at, v, 15))
    case FaultReg(r, mode, mask) => a.(regs := WriteReg(a.regs, r, Inject(mode, ReadReg(a.regs, r), mask)))
    case FaultMem(at, mode, mask) => a.(mem := WriteWord(a.mem, at, Inject(mode, ReadWord(a.mem, at), mask), 15))
    case _ => a
  }

  function Reported(c: Command, a: Arch): Reply {
    match c
    case ProtocolVersion => Number(1)
    case GetPc => Number(a.pc)
    case GetReg(r) => Number(ReadReg(a.regs, r))
    case ReadMem(at) => Number(ReadWord(a.mem, at))
    case _ => Ack
  }

  predicate IsMemory(at: Word, base: Word, ram: Ram) {
    Mapped(base, ram, at) && !InWindow(base, at)
  }

  /** Any command but START, at memory addresses and defined instructions. */
  ghost predicate Suits(c: Command, a: Arch, base: Word, ram: Ram) {
    match c
    case Start => false
    case Step => Defined(a)
    case ReadMem(at) => IsMemory(at, base, ram)
    case WriteMem(at, _) => IsMemory(at, base, ram)
    case FaultMem(at, _, _) => IsMemory(at, base, ram)
    case _ => true
  }

  // ----- Single accesses -----

  lemma AtBase(base: Word, offset: nat)
    requires Base64K(base) && offset < 0x1_0000
    ensures InWindow(base, BusAddress(base, offset)) && BusAddress(base, offset) % 0x1_0000 == offset
  {
    BaseIgnored(base, offset);
  }

  lemma ControlInside(base: Word, sub: nat)
    requires Base64K(base) && sub < 0x1000
    ensures InWindow(base, BusAddress(base, ControlRegAddr(sub)))
    ensures BusAddress(base, ControlRegAddr(sub)) % 0x1_0000 == ControlAddress(sub)
  {
    hide BusAddress, ControlRegAddr, InWindow, Base64K, FaultRequest, RegfileAddr, RegisterAddress, FaultAddress;
    BuiltAddresses(0, 0, sub);
    AtBase(base, ControlAddress(sub));
  }

  lemma RegisterInside(base: Word, r: RegIndex)
    requires Base64K(base)
    ensures InWindow(base, BusAddress(base, RegfileAddr(r)))
    ensures BusAddress(base, RegfileAddr(r)) % 0x1_0000 == RegisterAddress(r)
  {
    hide BusAddress, RegfileAddr, InWindow, Base64K, FaultRequest, ControlRegAddr, FaultAddress;
    BuiltAddresses(0, r, 0);
    AtBase(base, RegisterAddress(r));
  }

  lemma FaultInside(base: Word, mode: FaultMode, r: RegIndex)
    requires Base64K(base)
    ensures InWindow(base, BusAddress(base, FaultRequest(mode, r)))
    ensures BusAddress(base, FaultRequest(mode, r)) % 0x1_0000 == FaultAddress(mode, r)
  {
    hide BusAddress, FaultRequest, InWindow, Base64K, RegfileAddr, ControlRegAddr, RegisterAddress;
    BuiltAddresses(mode, r, 0);
    AtBase(base, FaultAddress(mode, r));
  }

  lemma RegisterEffect(a: Arch, r: RegIndex, v: Word)
    ensures WriteEffect(a, RegisterAddress(r), v) == a.(regs := WriteReg(a.regs, r, v))
    ensures RegisterAddress(r) != ControlAddress(CTRL_REG_STEP) && RegisterAddress(r) != ControlAddress(CTRL_REG_START)
  {
    hide WriteReg, NamesRegister, NamesFault, FieldsOf, Inject;
    RegisterNotOther(r);
    RegisterFields(r);
  }

  /** A fault request for x0 names no register, and would change none. */
  lemma FaultEffect(a: Arch, mode: FaultMode, r: RegIndex, mask: Word)
    ensures WriteEffect(a, FaultAddress(mode, r), mask)
      == a.(regs := WriteReg(a.regs, r, Inject(mode, ReadReg(a.regs, r), mask)))
    ensures FaultAddress(mode, r) != ControlAddress(CTRL_REG_STEP)
    ensures FaultAddress(mode, r) != ControlAddress(CTRL_REG_START)
  {
    hide NamesRegister, NamesFault, FieldsOf, Inject, ReadReg;
    FaultAddressNames(mode, r);
    FaultFields(mode, r);
    RegisterDecode(FaultAddress(mode, r));
  }

  lemma PcEffect(a: Arch, v: Word)
    ensures WriteEffect(a, ControlAddress(CTRL_REG_PC), v) == a.(pc := v)
    ensures WriteEffect(a, ControlAddress(CTRL_REG_STOP), v) == a
  {
    RegisterDecode(ControlAddress(CTRL_REG_STOP));
    FaultDecode(ControlAddress(CTRL_REG_STOP));
  }

  // ----- Commands -----

  /** The bus accesses of a command on the board: its effect, and the reply it should give. */
  lemma CommandActs(c: Command, bus: Bus, start: seq<Access>, a: Arch, log: seq<Access>, z: Arch, base: Word, ram: Ram)
    requires Base64K(base) && IsBoard(bus, start, a, base, ram) && Reached(start, a, log, z, base, ram)
    requires Suits(c, z, base, ram)
    ensures
      var done := CarryOut(c, base, bus, log);
      done.reply == Reported(c, z) && Reached(start, a, done.log, StateAfter(c, z), base, ram)
  {
    hide IsBoard, Reached, WriteEffect, IsaStep, Defined, BusAddress, ControlRegAddr, RegfileAddr, FaultRequest,
      WriteReg, ReadReg, WriteWord, ReadWord, Inject, RegisterAddress, FaultAddress;
    match c
    case ProtocolVersion =>
    case Start =>
    case Stop =>
      ControlInside(base, CTRL_REG_STOP);
      PcEffect(z, 1);
      ReachedOne(start, a, log, z, Out(BusAddress(base, ControlRegAddr(CTRL_REG_STOP)), 1), base, ram);
    case Step =>
      ControlInside(base, CTRL_REG_STEP);
      ReachedOne(start, a, log, z, Out(BusAddress(base, ControlRegAddr(CTRL_REG_STEP)), 1), base, ram);
    case GetPc =>
      ControlInside(base, CTRL_REG_PC);
      FetchActs(BusAddress(base, ControlRegAddr(CTRL_REG_PC)), bus, start, a, log, z, base, ram);
    case SetPc(v) =>
      ControlInside(base, CTRL_REG_PC);
      PcEffect(z, v);
      ReachedOne(start, a, log, z, Out(BusAddress(base, ControlRegAddr(CTRL_REG_PC)), v), base, ram);
    case GetReg(r) =>
      RegisterInside(base, r);
      FetchActs(BusAddress(base, RegfileAddr(r)), bus, start, a, log, z, base, ram);
    case SetReg(r, v) =>
      RegisterInside(base, r);
      RegisterEffect(z, r, v);
      ReachedOne(start, a, log, z, Out(BusAddress(base, RegfileAddr(r)), v), base, ram);
    case ReadMem(at) =>
      FetchActs(at, bus, start, a, log, z, base, ram);
    case WriteMem(at, v) =>
      ReachedOne(start, a, log, z, Out(at, v), base, ram);
    case FaultReg(r, mode, mask) =>
      FaultInside(base, mode, r);
      FaultEffect(z, mode, r, mask);
      ReachedOne(start, a, log, z, Out(BusAddress(base, FaultRequest(mode, r)), mask), base, ram);
    case FaultMem(at, mode, mask) =>
      FetchActs(at, bus, start, a, log, z, base, ram);
      var v := Inject(mode, bus(log, at), mask);
      ReachedOne(start, a, log + [In(at, bus(log, at))], z, Out(at, v), base, ram);
      assert log + [In(at, bus(log, at))] + [Out(at, v)] == log + [In(at, bus(log, at)), Out(at, v)];
  }

  lemma FetchActs(at: Word, bus: Bus, start: seq<Access>, a: Arch, log: seq<Access>, z: Arch, base: Word, ram: Ram)
    requires IsBoard(bus, start, a, base, ram) && Reached(start, a, log, z, base, ram) && Mapped(base, ram, at)
    ensures Displays(z, at, base, bus(log, at))
    ensures Reached(start, a, log + [In(at, bus(log, at))], z, base, ram)
  {
    hide IsBoard, Reached, Displays, Mapped, InWindow;
    ReadShows(bus, start, a, log, z, base, ram, at);
    ReachedOne(start, a, log, z, In(at, bus(log, at)), base, ram);
  }

  // ----- Conversations -----

  /** What a machine has said, and the state it is in after it. */
  datatype Said = Said(replies: seq<Reply>, state: Arch)

  ghost function Respond(line: string, a: Arch): Said {
    if |line| >= UART_LINE_MAX then Said([Failed(LINE_TOO_LONG)], a)
    else
      var ts := TokensOf(CString(line));
      if ts == [] then Said([], a)
      else
        match ParseCommand(ts)
        case Err(e) => Said([Failed(e)], a)
        case Ok(c) => Said([Reported(c, a)], StateAfter(c, a))
  }

  ghost predicate SuitsLine(line: string, a: Arch, base: Word, ram: Ram) {
    var ts := TokensOf(CString(line));
    |line| < UART_LINE_MAX && ts != [] && ParseCommand(ts).Ok? ==> Suits(ParseCommand(ts).value, a, base, ram)
  }

  ghost function Talk(lines: seq<string>, a: Arch): Said
    decreases |lines|
  {
    hide Respond;
    if lines == [] then Said([], a)
    else
      var first := Respond(lines[0], a);
      var rest := Talk(lines[1..], first.state);
      Said(first.replies + rest.replies, rest.state)
  }

  ghost predicate SuitsAll(lines: seq<string>, a: Arch, base: Word, ram: Ram)
    decreases |lines|
  {
    hide Respond, SuitsLine;
    lines == [] || (SuitsLine(lines[0], a, base, ram) && SuitsAll(lines[1..], Respond(lines[0], a).state, base, ram))
  }

  lemma LineActs(line: string, bus: Bus, start: seq<Access>, a: Arch, log: seq<Access>, z: Arch, base: Word, ram: Ram)
    requires Base64K(base) && IsBoard(bus, start, a, base, ram) && Reached(start, a, log, z, base, ram)
    requires SuitsLine(line, z, base, ram)
    ensures
      var turn := AnswerLine(line, base, bus, log);
      turn.replies == Respond(line, z).replies && Reached(start, a, turn.log, Respond(line, z).state, base, ram)
  {
    hide IsBoard, Reached, CarryOut, Reported, StateAfter, Suits, TokensOf, ParseCommand, CString;
    var ts := TokensOf(CString(line));
    if |line| < UART_LINE_MAX && ts != [] && ParseCommand(ts).Ok? {
      CommandActs(ParseCommand(ts).value, bus, start, a, log, z, base, ram);
    }
  }

  /** A whole conversation, errors, blank and overlong lines included. */
  lemma {:induction false} TalkActs(
      lines: seq<string>, bus: Bus, start: seq<Access>, a: Arch, log: seq<Access>, z: Arch, base: Word, ram: Ram)
    requires Base64K(base) && IsBoard(bus, start, a, base, ram) && Reached(start, a, log, z, base, ram)
    requires SuitsAll(lines, z, base, ram)
    ensures
      var turn := Conversation(lines, base, bus, log);
      turn.replies == Talk(lines, z).replies && Reached(start, a, turn.log, Talk(lines, z).state, base, ram)
    decreases |lines|
  {
    hide IsBoard, Reached, AnswerLine, Respond, SuitsLine;
    if lines != [] {
      LineActs(lines[0], bus, start, a, log, z, base, ram);
      TalkActs(lines[1..], bus, start, a, AnswerLine(lines[0], base, bus, log).log, Respond(lines[0], z).state, base, ram);
    }
  }

  /**
   * From characters to clocks: whatever is typed, the firmware over the chip replies as
   * the reference machine would, and leaves the chip parked in that machine's state.
   */
  lemma TalkOnChip(input: string, bus: Bus, start: seq<Access>, x: Chip, base: Word, ram: Ram, env: Environment, limit: nat)
    requires Base64K(base) && Ready(x) && Serves(env, base, limit) && IsChip(bus, start, x, base, ram, env)
    requires SuitsAll(Lines(input), Abs(x.sys), base, ram)
    ensures
      var turn, said := Conversation(Lines(input), base, bus, start), Talk(Lines(input), Abs(x.sys));
      && turn.replies == said.replies && start <= turn.log
      && var y := ChipAfter(x, turn.log[|start|..], base, env); Ready(y) && Abs(y.sys) == said.state
  {
    hide IsBoard, Reached, Ready, Serves, IsChip, ChipAfter, Abs, Conversation, Talk, SuitsAll, Lines;
    var a := Abs(x.sys);
    ChipIsBoard(bus, start, x, base, ram, env, limit);
    ReachedStart(start, a, base, ram);
    TalkActs(Lines(input), bus, start, a, start, a, base, ram);
    var turn := Conversation(Lines(input), base, bus, start);
    ChipReached(start, x, turn.log, Talk(Lines(input), a).state, base, ram, env, limit);
  }
}
