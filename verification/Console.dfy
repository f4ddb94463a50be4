/** main.c: the command loop, from received characters to bus accesses and replies. */
module Console {
  import opened Wrappers
  import opened Words
  import opened RegisterFile
  import opened SocControl
  import opened Firmware
  import opened Text
  import opened Uart

  // ----- Commands -----

  datatype Command =
    | ProtocolVersion | Start | Stop | Step | GetPc
    | SetPc(value: Word)
    | GetReg(reg: RegIndex)
    | SetReg(reg: RegIndex, value: Word)
    | ReadMem(addr: Word)
    | WriteMem(addr: Word, value: Word)
    | FaultReg(reg: RegIndex, mode: FaultMode, mask: Word)
    | FaultMem(addr: Word, mode: FaultMode, mask: Word)

  datatype LineError =
    | BAD_PC | BAD_REG | BAD_ADDR | BAD_WRITE | BAD_FAULT_REG | BAD_FAULT_MEM | UNKNOWN_CMD | LINE_TOO_LONG

  datatype Reply = Ack | Number(value: Word) | Failed(error: LineError)

  function Arg(ts: seq<string>, k: nat): Option<Word> {
    if k < |ts| then ParseU32(ts[k]) else None
  }

  // The operands of each command, as far as the line supplies them.

  function SetPcOf(x: Option<Word>): Result<Command, LineError> {
    if x.Some? then Ok(SetPc(x.value)) else Err(BAD_PC)
  }

  function GetRegOf(x: Option<Word>): Result<Command, LineError> {
    if x.Some? && x.value < 32 then Ok(GetReg(x.value)) else Err(BAD_REG)
  }

  function SetRegOf(x: Option<Word>, y: Option<Word>): Result<Command, LineError> {
    if x.Some? && y.Some? && x.value < 32 then Ok(SetReg(x.value, y.value)) else Err(BAD_REG)
  }

  function ReadWordOf(x: Option<Word>): Result<Command, LineError> {
    if x.Some? then Ok(ReadMem(x.value)) else Err(BAD_ADDR)
  }

  function WriteWordOf(x: Option<Word>, y: Option<Word>): Result<Command, LineError> {
    if x.Some? && y.Some? then Ok(WriteMem(x.value, y.value)) else Err(BAD_WRITE)
  }

  function FaultRegOf(x: Option<Word>, y: Option<Word>, z: Option<Word>): Result<Command, LineError> {
    if x.Some? && y.Some? && z.Some? && x.value < 32 && y.value <= MODE_MAX then Ok(FaultReg(x.value, y.value, z.value))
    else Err(BAD_FAULT_REG)
  }

  function FaultMemOf(x: Option<Word>, y: Option<Word>, z: Option<Word>): Result<Command, LineError> {
    if x.Some? && y.Some? && z.Some? && y.value <= MODE_MAX && x.value % 4 == 0 then Ok(FaultMem(x.value, y.value, z.value))
    else Err(BAD_FAULT_MEM)
  }

  /** Which command a line is; tokens beyond the operands are ignored. */
  function CommandOf(cmd: string, x: Option<Word>, y: Option<Word>, z: Option<Word>): Result<Command, LineError> {
    if cmd == "PROTOCOL_VERSION" then Ok(ProtocolVersion)
    else if cmd == "START" then Ok(Start)
    else if cmd == "STOP" then Ok(Stop)
    else if cmd == "STEP" then Ok(Step)
    else if cmd == "GET_PC" then Ok(GetPc)
    else if cmd == "SET_PC" then SetPcOf(x)
    else if cmd == "GET_REG" then GetRegOf(x)
    else if cmd == "SET_REG" then SetRegOf(x, y)
    else if cmd == "READ_WORD" then ReadWordOf(x)
    else if cmd == "WRITE_WORD" then WriteWordOf(x, y)
    else if cmd == "FAULT_REG" then FaultRegOf(x, y, z)
    else if cmd == "FAULT_MEM" then FaultMemOf(x, y, z)
    else Err(UNKNOWN_CMD)
  }

  function ParseCommand(ts: seq<string>): Result<Command, LineError>
    requires ts != []
  {
    CommandOf(ts[0], Arg(ts, 1), Arg(ts, 2), Arg(ts, 3))
  }

  // ----- Bus accesses -----

  datatype Access = Out(addr: Word, value: Word) | In(addr: Word, value: Word)

  /** The value the bus returns for an address after a history of accesses. */
  type Bus = (seq<Access>, Word) -> Word

  /** Reply to a command and the accesses made by then. */
  datatype Done = Done(reply: Reply, log: seq<Access>)

  function CarryOut(c: Command, base: Word, bus: Bus, log: seq<Access>): Done {
    match c
    case ProtocolVersion => Done(Number(1), log)
    case Start => Done(Ack, log + [Out(BusAddress(base, ControlRegAddr(CTRL_REG_START)), 1)])
    case Stop => Done(Ack, log + [Out(BusAddress(base, ControlRegAddr(CTRL_REG_STOP)), 1)])
    case Step => Done(Ack, log + [Out(BusAddress(base, ControlRegAddr(CTRL_REG_STEP)), 1)])
    case GetPc => Fetched(BusAddress(base, ControlRegAddr(CTRL_REG_PC)), bus, log)
    case SetPc(v) => Done(Ack, log + [Out(BusAddress(base, ControlRegAddr(CTRL_REG_PC)), v)])
    case GetReg(r) => Fetched(BusAddress(base, RegfileAddr(r)), bus, log)
    case SetReg(r, v) => Done(Ack, log + [Out(BusAddress(base, RegfileAddr(r)), v)])
    case ReadMem(a) => Fetched(a, bus, log)
    case WriteMem(a, v) => Done(Ack, log + [Out(a, v)])
    case FaultReg(r, mode, mask) => Done(Ack, log + [Out(BusAddress(base, FaultRequest(mode, r)), mask)])
    case FaultMem(a, mode, mask) =>
      Done(Ack, log + [In(a, bus(log, a)), Out(a, Inject(mode, bus(log, a), mask))])
  }

  function Fetched(addr: Word, bus: Bus, log: seq<Access>): Done {
    Done(Number(bus(log, addr)), log + [In(addr, bus(log, addr))])
  }

  /** The reply and the accesses that answer a parsed command. */
  function Obey(c: Result<Command, LineError>, base: Word, bus: Bus, log: seq<Access>): Done {
    if c.Ok? then CarryOut(c.value, base, bus, log) else Done(Failed(c.error), log)
  }

  // ----- Lines -----

  datatype Turn = Turn(replies: seq<Reply>, log: seq<Access>)

  function AnswerLine(line: string, base: Word, bus: Bus, log: seq<Access>): Turn {
    if |line| >= UART_LINE_MAX then Turn([Failed(LINE_TOO_LONG)], log)
    else
      var ts := TokensOf(CString(line));
      if ts == [] then Turn([], log)
      else
        var done := Obey(ParseCommand(ts), base, bus, log);
        Turn([done.reply], done.log)
  }

  function Lines(input: string): seq<string>
    decreases |input|
  {
    var n := LineEnd(input);
    if n == |input| then [] else [input[..n]] + Lines(input[n + 1..])
  }

  function Conversation(lines: seq<string>, base: Word, bus: Bus, log: seq<Access>): Turn
    decreases |lines|
  {
    if lines == [] then Turn([], log)
    else
      var first := AnswerLine(lines[0], base, bus, log);
      var rest := Conversation(lines[1..], base, bus, first.log);
      Turn(first.replies + rest.replies, rest.log)
  }

  /** Lines that must be answered: the overlong ones, and those with a token before their first NUL. */
  predicate Answerable(line: string) {
    |line| >= UART_LINE_MAX || !Blank(CString(line))
  }

  function AnswerableLines(lines: seq<string>): seq<string>
    decreases |lines|
  {
    if lines == [] then []
    else (if Answerable(lines[0]) then [lines[0]] else []) + AnswerableLines(lines[1..])
  }

  /** One reply for each answerable line, none for any other. */
  lemma {:induction false} OneReplyEach(lines: seq<string>, base: Word, bus: Bus, log: seq<Access>)
    ensures |Conversation(lines, base, bus, log).replies| == |AnswerableLines(lines)|
    decreases |lines|
  {
    hide ParseCommand, Obey, TokensOf;
    if lines != [] {
      NoTokensIffBlank(CString(lines[0]));
      OneReplyEach(lines[1..], base, bus, AnswerLine(lines[0], base, bus, log).log);
    }
  }

  lemma {:induction false} NulFreeLine(line: string)
    requires NulFree(line)
    ensures CString(line) == line
    decreases |line|
  {
    if line != [] {
      NulFreeLine(line[1..]);
    }
  }

  // ----- The loop -----

  class Worker {
    const base: Word
    const bus: Bus
    const line: array<char>
    var log: seq<Access>

    ghost predicate Valid() {
      line.Length == UART_LINE_MAX
    }

    /** Out of reset: stop the core and point it at the memory. */
    constructor (controlBase: Word, bramBase: Word, bus: Bus)
      ensures Valid() && fresh(line) && base == controlBase && this.bus == bus
      ensures log == CarryOut(SetPc(bramBase), controlBase, bus, CarryOut(Stop, controlBase, bus, []).log).log
    {
      base := controlBase;
      this.bus := bus;
      line := new char[UART_LINE_MAX];
      log := [Out(BusAddress(controlBase, ControlRegAddr(CTRL_REG_STOP)), 1),
              Out(BusAddress(controlBase, ControlRegAddr(CTRL_REG_PC)), bramBase)];
    }

    method Out32(addr: Word, value: Word)
      modifies this`log
      ensures log == old(log) + [Out(addr, value)]
    {
      log := log + [Out(addr, value)];
    }

    method In32(addr: Word) returns (value: Word)
      modifies this`log
      ensures value == bus(old(log), addr) && log == old(log) + [In(addr, value)]
    {
      value := bus(log, addr);
      log := log + [In(addr, value)];
    }

    /** parse_next_u32. */
    method NextU32(tok: Strtok) returns (r: Option<Word>)
      requires tok.Valid() && tok.buf == line
      modifies tok`next, line
      ensures tok.Valid()
      ensures r == Arg(TokensOf(old(tok.Rest())), 0)
      ensures TokensOf(tok.Rest()) == if TokensOf(old(tok.Rest())) == [] then [] else TokensOf(old(tok.Rest()))[1..]
    {
      var token := tok.Next();
      r := if token.None? then None else ParseU32(token.value);
    }

    /** Two operands, the second read only if the first is good. */
    method TwoArgs(tok: Strtok) returns (x: Option<Word>, y: Option<Word>)
      requires tok.Valid() && tok.buf == line
      modifies tok`next, line
      ensures tok.Valid()
      ensures
        var ts := TokensOf(old(tok.Rest()));
        && x == Arg(ts, 0) && (x.Some? ==> y == Arg(ts, 1)) && (x.None? ==> y.None?)
        && (x.Some? && y.Some? ==> Arg(TokensOf(tok.Rest()), 0) == Arg(ts, 2))
    {
      y := None;
      x := NextU32(tok);
      if x.Some? {
        y := NextU32(tok);
      }
    }

    method ThreeArgs(tok: Strtok) returns (x: Option<Word>, y: Option<Word>, z: Option<Word>)
      requires tok.Valid() && tok.buf == line
      modifies tok`next, line
      ensures tok.Valid()
      ensures
        var ts := TokensOf(old(tok.Rest()));
        && x == Arg(ts, 0) && (x.Some? ==> y == Arg(ts, 1)) && (x.Some? && y.Some? ==> z == Arg(ts, 2))
        && (x.None? ==> y.None?) && (y.None? ==> z.None?)
    {
      z := None;
      x, y := TwoArgs(tok);
      if x.Some? && y.Some? {
        z := NextU32(tok);
      }
    }

    method SetPcCommand(tok: Strtok) returns (reply: Reply)
      requires tok.Valid() && tok.buf == line
      modifies this`log, tok`next, line
      ensures Done(reply, log) == Obey(SetPcOf(Arg(TokensOf(old(tok.Rest())), 0)), base, bus, old(log))
    {
      hide TokensOf, ParseU32, BusAddress, ControlRegAddr;
      var x := NextU32(tok);
      if x.None? {
        return Failed(BAD_PC);
      }
      Out32(BusAddress(base, ControlRegAddr(CTRL_REG_PC)), x.value);
      reply := Ack;
    }

    method GetRegCommand(tok: Strtok) returns (reply: Reply)
      requires tok.Valid() && tok.buf == line
      modifies this`log, tok`next, line
      ensures Done(reply, log) == Obey(GetRegOf(Arg(TokensOf(old(tok.Rest())), 0)), base, bus, old(log))
    {
      hide TokensOf, ParseU32, BusAddress, RegfileAddr;
      var x := NextU32(tok);
      if x.None? || x.value > 31 {
        return Failed(BAD_REG);
      }
      var v := In32(BusAddress(base, RegfileAddr(x.value)));
      reply := Number(v);
    }

    method SetRegCommand(tok: Strtok) returns (reply: Reply)
      requires tok.Valid() && tok.buf == line
      modifies this`log, tok`next, line
      ensures
        var ts := TokensOf(old(tok.Rest()));
        Done(reply, log) == Obey(SetRegOf(Arg(ts, 0), Arg(ts, 1)), base, bus, old(log))
    {
      hide TokensOf, Arg, BusAddress, RegfileAddr;
      var x, y := TwoArgs(tok);
      if x.None? || y.None? || x.value > 31 {
        return Failed(BAD_REG);
      }
      Out32(BusAddress(base, RegfileAddr(x.value)), y.value);
      reply := Ack;
    }

    method ReadWordCommand(tok: Strtok) returns (reply: Reply)
      requires tok.Valid() && tok.buf == line
      modifies this`log, tok`next, line
      ensures Done(reply, log) == Obey(ReadWordOf(Arg(TokensOf(old(tok.Rest())), 0)), base, bus, old(log))
    {
      hide TokensOf, ParseU32;
      var x := NextU32(tok);
      if x.None? {
        return Failed(BAD_ADDR);
      }
      var v := In32(x.value);
      reply := Number(v);
    }

    method WriteWordCommand(tok: Strtok) returns (reply: Reply)
      requires tok.Valid() && tok.buf == line
      modifies this`log, tok`next, line
      ensures
        var ts := TokensOf(old(tok.Rest()));
        Done(reply, log) == Obey(WriteWordOf(Arg(ts, 0), Arg(ts, 1)), base, bus, old(log))
    {
      hide TokensOf, Arg;
      var x, y := TwoArgs(tok);
      if x.None? || y.None? {
        return Failed(BAD_WRITE);
      }
      Out32(x.value, y.value);
      reply := Ack;
    }

    method FaultRegCommand(tok: Strtok) returns (reply: Reply)
      requires tok.Valid() && tok.buf == line
      modifies this`log, tok`next, line
      ensures
        var ts := TokensOf(old(tok.Rest()));
        Done(reply, log) == Obey(FaultRegOf(Arg(ts, 0), Arg(ts, 1), Arg(ts, 2)), base, bus, old(log))
    {
      hide TokensOf, Arg, BusAddress, FaultRequest;
      var x, y, z := ThreeArgs(tok);
      if x.None? || y.None? || z.None? || x.value > 31 || y.value > MODE_MAX {
        return Failed(BAD_FAULT_REG);
      }
      Out32(BusAddress(base, FaultRequest(y.value, x.value)), z.value);
      reply := Ack;
    }

    method FaultMemCommand(tok: Strtok) returns (reply: Reply)
      requires tok.Valid() && tok.buf == line
      modifies this`log, tok`next, line
      ensures
        var ts := TokensOf(old(tok.Rest()));
        Done(reply, log) == Obey(FaultMemOf(Arg(ts, 0), Arg(ts, 1), Arg(ts, 2)), base, bus, old(log))
    {
      hide TokensOf, Arg, ApplyFaultMode, Inject;
      var x, y, z := ThreeArgs(tok);
      if x.None? || y.None? || z.None? || y.value > MODE_MAX || x.value % 4 != 0 {
        return Failed(BAD_FAULT_MEM);
      }
      var current := In32(x.value);
      var updated := ApplyFaultMode(current, y.value, z.value);
      MemoryFaultsAgree(current, y.value, z.value, 0);
      Out32(x.value, updated);
      reply := Ack;
    }

    /** The comparison chain of main, for the first token of a line. */
    method Dispatch(cmd: string, tok: Strtok) returns (reply: Reply)
      requires tok.Valid() && tok.buf == line
      modifies this`log, tok`next, line
      ensures
        var ts := TokensOf(old(tok.Rest()));
        Done(reply, log) == Obey(CommandOf(cmd, Arg(ts, 0), Arg(ts, 1), Arg(ts, 2)), base, bus, old(log))
    {
      hide TokensOf, Arg, BusAddress, ControlRegAddr;
      if cmd == "PROTOCOL_VERSION" {
        reply := Number(1);
      } else if cmd == "START" {
        Out32(BusAddress(base, ControlRegAddr(CTRL_REG_START)), 1);
        reply := Ack;
      } else if cmd == "STOP" {
        Out32(BusAddress(base, ControlRegAddr(CTRL_REG_STOP)), 1);
        reply := Ack;
      } else if cmd == "STEP" {
        Out32(BusAddress(base, ControlRegAddr(CTRL_REG_STEP)), 1);
        reply := Ack;
      } else if cmd == "GET_PC" {
        var pc := In32(BusAddress(base, ControlRegAddr(CTRL_REG_PC)));
        reply := Number(pc);
      } else if cmd == "SET_PC" {
        reply := SetPcCommand(tok);
      } else if cmd == "GET_REG" {
        reply := GetRegCommand(tok);
      } else if cmd == "SET_REG" {
        reply := SetRegCommand(tok);
      } else if cmd == "READ_WORD" {
        reply := ReadWordCommand(tok);
      } else if cmd == "WRITE_WORD" {
        reply := WriteWordCommand(tok);
      } else if cmd == "FAULT_REG" {
        reply := FaultRegCommand(tok);
      } else if cmd == "FAULT_MEM" {
        reply := FaultMemCommand(tok);
      } else {
        reply := Failed(UNKNOWN_CMD);
      }
    }

    /** One buffered line. */
    method Handle(ghost text: string) returns (replies: seq<Reply>)
      requires Valid() && |text| < UART_LINE_MAX && Stored(line[..], text)
      modifies this`log, line
      ensures Turn(replies, log) == AnswerLine(text, base, bus, old(log))
    {
      hide TokensOf, CommandOf, Obey, CString, ParseU32;
      StoredCString(line[..], text);
      var tok := new Strtok(line, |text|);
      assert line[0..] == line[..];
      var cmd := tok.Next();
      if cmd.None? {
        return [];
      }
      ShiftArgs(TokensOf(CString(text)));
      var reply := Dispatch(cmd.value, tok);
      replies := [reply];
    }

    /** The next complete line of `pending`, if there is one. */
    method ServeLine(pending: string) returns (complete: bool, answer: seq<Reply>, read: nat)
      requires Valid()
      modifies this`log, line
      ensures complete <==> LineEnd(pending) < |pending|
      ensures !complete ==> log == old(log)
      ensures complete ==> read == LineEnd(pending) + 1
      ensures complete ==> Turn(answer, log) == AnswerLine(pending[..LineEnd(pending)], base, bus, old(log))
    {
      hide TokensOf, Obey, CString;
      answer := [];
      var fits;
      complete, fits, read := ReadLine(pending, line);
      if complete {
        if fits {
          answer := Handle(pending[..LineEnd(pending)]);
        } else {
          answer := [Failed(LINE_TOO_LONG)];
        }
      }
    }

    /** The command loop over everything received so far. */
    method Serve(input: string) returns (replies: seq<Reply>)
      requires Valid()
      modifies this`log, line
      ensures Turn(replies, log) == Conversation(Lines(input), base, bus, old(log))
    {
      hide AnswerLine, Conversation, Lines, LineEnd, Prepend;
      replies := [];
      var at, complete := 0, true;
      assert input[0..] == input;
      PrependNothing(Conversation(Lines(input), base, bus, log));
      while complete
        invariant at <= |input|
        invariant
          Conversation(Lines(input), base, bus, old(log))
            == Prepend(replies, if complete then Conversation(Lines(input[at..]), base, bus, log) else Turn([], log))
        decreases complete, |input| - at
      {
        ghost var pending, before := input[at..], log;
        var answer, read;
        complete, answer, read := ServeLine(input[at..]);
        if complete {
          assert pending[LineEnd(pending) + 1..] == input[at + read..];
          ConversationSteps(pending, base, bus, before, answer, log);
          PrependTwice(replies, answer, Conversation(Lines(input[at + read..]), base, bus, log));
          replies := replies + answer;
          at := at + read;
        } else {
          ConversationEnds(pending, base, bus, log);
        }
      }
      PrependToEnd(replies, log);
    }
  }

  function Prepend(rs: seq<Reply>, t: Turn): Turn {
    Turn(rs + t.replies, t.log)
  }

  lemma PrependTwice(rs: seq<Reply>, more: seq<Reply>, t: Turn)
    ensures Prepend(rs, Prepend(more, t)) == Prepend(rs + more, t)
  {
    assert rs + (more + t.replies) == rs + more + t.replies;
  }

  lemma PrependNothing(t: Turn)
    ensures Prepend([], t) == t
  {
  }

  lemma PrependToEnd(rs: seq<Reply>, log: seq<Access>)
    ensures Prepend(rs, Turn([], log)) == Turn(rs, log)
  {
  }

  lemma ShiftArgs(ts: seq<string>)
    requires ts != []
    ensures Arg(ts, 1) == Arg(ts[1..], 0) && Arg(ts, 2) == Arg(ts[1..], 1) && Arg(ts, 3) == Arg(ts[1..], 2)
  {
  }

  lemma ConversationEnds(input: string, base: Word, bus: Bus, log: seq<Access>)
    requires LineEnd(input) == |input|
    ensures Conversation(Lines(input), base, bus, log) == Turn([], log)
  {
  }

  lemma ConversationSteps(input: string, base: Word, bus: Bus, log: seq<Access>, answer: seq<Reply>, log': seq<Access>)
    requires LineEnd(input) < |input|
    requires Turn(answer, log') == AnswerLine(input[..LineEnd(input)], base, bus, log)
    ensures
      Conversation(Lines(input), base, bus, log)
        == Prepend(answer, Conversation(Lines(input[LineEnd(input) + 1..]), base, bus, log'))
  {
    hide AnswerLine;
    var text, more := input[..LineEnd(input)], Lines(input[LineEnd(input) + 1..]);
    assert Lines(input) == [text] + more;
    assert ([text] + more)[1..] == more;
  }
}
