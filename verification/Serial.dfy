/**
 * The serial protocol in literal text: what separates tokens and ends lines, which
 * numerals are read, what each line does and what it is answered, and which line each call of the
 * client sends.
 */
module Serial {
  import opened Wrappers
  import opened Words
  import opened RegisterFile
  import opened Firmware
  import opened Text
  import opened Uart
  import opened Console
  import opened Client
  import opened AddressMap

  // ----- Tokens and lines -----

  /** Blanks and tabs separate tokens, and nothing else does. */
  lemma SplitsAtBlanks(t: string, rest: string)
    requires t != [] && forall k :: 0 <= k < |t| ==> t[k] != ' ' && t[k] != '\t'
    ensures TokensOf("") == []
    ensures TokensOf(" " + rest) == TokensOf("\t" + rest) == TokensOf(rest)
    ensures TokensOf(t) == [t] && TokensOf(t + " " + rest) == TokensOf(t + "\t" + rest) == [t] + TokensOf(rest)
  {
    assert (" " + rest)[1..] == rest && ("\t" + rest)[1..] == rest;
    assert t + " " + rest == t + (" " + rest) && t + "\t" + rest == t + ("\t" + rest);
    TokensCons(t, " " + rest);
    TokensCons(t, "\t" + rest);
    TokensCons(t, "");
    assert t + "" == t;
  }

  lemma {:induction false} EndsAt(t: string, rest: string)
    requires forall k :: 0 <= k < |t| ==> t[k] != '\r' && t[k] != '\n'
    requires rest == [] || rest[0] == '\r' || rest[0] == '\n'
    ensures LineEnd(t + rest) == |t|
    decreases |t|
  {
    if t == [] {
      assert t + rest == rest;
    } else {
      assert (t + rest)[1..] == t[1..] + rest;
      EndsAt(t[1..], rest);
    }
  }

  /** A carriage return or a line feed ends a line, and nothing else does. */
  lemma LinesEnd(t: string, rest: string)
    requires forall k :: 0 <= k < |t| ==> t[k] != '\r' && t[k] != '\n'
    ensures Lines(t) == []
    ensures Lines(t + "\n" + rest) == Lines(t + "\r" + rest) == [t] + Lines(rest)
  {
    EndsAt(t, "");
    assert t + "" == t;
    forall e | e == "\n" || e == "\r" ensures Lines(t + e + rest) == [t] + Lines(rest) {
      assert t + e + rest == t + (e + rest);
      EndsAt(t, e + rest);
      assert (t + e + rest)[..|t|] == t && (t + e + rest)[|t| + 1..] == rest;
    }
  }

  // ----- Numerals -----

  predicate White(c: char) {
    c in " \t\n\r" || c as int == 11 || c as int == 12
  }

  predicate AllWhite(s: string) {
    forall k :: 0 <= k < |s| ==> White(s[k])
  }

  predicate Decimal(s: string) {
    forall k :: 0 <= k < |s| ==> '0' <= s[k] <= '9'
  }

  predicate Octal(s: string) {
    forall k :: 0 <= k < |s| ==> '0' <= s[k] <= '7'
  }

  predicate Hexadecimal(s: string) {
    forall k :: 0 <= k < |s| ==> '0' <= s[k] <= '9' || 'a' <= s[k] <= 'f' || 'A' <= s[k] <= 'F'
  }

  lemma DigitKinds(s: string)
    ensures Digits(s, 16) <==> Hexadecimal(s)
    ensures Digits(s, 10) <==> Decimal(s)
    ensures Digits(s, 8) <==> Octal(s)
  {
  }

  /** Upper and lower case digits have the values they have in the C locale. */
  lemma DigitValues(c: char)
    ensures '0' <= c <= '9' ==> DigitValue(c) == c as int - 48
    ensures 'A' <= c <= 'F' ==> DigitValue(c) == c as int - 55
    ensures 'a' <= c <= 'f' ==> DigitValue(c) == c as int - 87
  {
  }

  /** The 32-bit reading of a signed magnitude. */
  function SignedValue(sign: string, v: nat): Option<Word> {
    if v >= 0x1_0000_0000 then None
    else if sign == "-" then Some((0x1_0000_0000 - v) % 0x1_0000_0000)
    else Some(v)
  }

  lemma {:induction false} SkipsWhite(space: string, rest: string)
    requires AllWhite(space) && (rest == [] || !White(rest[0]))
    ensures SkipSpace(space + rest) == rest
    decreases |space|
  {
    if space == [] {
      assert space + rest == rest;
    } else {
      assert (space + rest)[1..] == space[1..] + rest;
      SkipsWhite(space[1..], rest);
    }
  }

  lemma SignedText(s: string, sign: string, t: string)
    requires s == sign + t && sign in {"", "+", "-"} && t != [] && '0' <= t[0] <= '9'
    ensures s != [] && !White(s[0]) && (s[0] == '-' <==> sign == "-")
    ensures (if s[0] == '-' || s[0] == '+' then s[1..] else s) == t
  {
    if sign == "" {
      assert s == t;
    } else {
      assert s[0] == sign[0] && s[1..] == t;
    }
  }

  lemma ReadsMagnitude(space: string, sign: string, t: string)
    requires AllWhite(space) && sign in {"", "+", "-"} && t != [] && '0' <= t[0] <= '9'
    ensures
      ParseU32(space + sign + t) ==
      match Magnitude(t)
      case None => None
      case Some(v) => SignedValue(sign, v)
  {
    hide Magnitude, SkipSpace, White, AllWhite;
    assert space + sign + t == space + (sign + t);
    SignedText(sign + t, sign, t);
    SkipsWhite(space, sign + t);
  }

  /** Every hexadecimal, octal and decimal numeral, with any white space and sign before it. */
  lemma NumeralsRead(space: string, sign: string, t: string)
    requires AllWhite(space) && sign in {"", "+", "-"}
    ensures Hexadecimal(t) && t != [] ==>
      ParseU32(space + sign + ("0x" + t)) == ParseU32(space + sign + ("0X" + t)) == SignedValue(sign, Value(t, 16))
    ensures Octal(t) ==> ParseU32(space + sign + ("0" + t)) == SignedValue(sign, Value(t, 8))
    ensures Decimal(t) && t != [] && t[0] != '0' ==> ParseU32(space + sign + t) == SignedValue(sign, Value(t, 10))
  {
    hide Value, ParseU32;
    DigitKinds(t);
    DigitKinds("0" + t);
    if Hexadecimal(t) && t != [] {
      HexMagnitude("0x" + t, t);
      HexMagnitude("0X" + t, t);
      ReadsMagnitude(space, sign, "0x" + t);
      ReadsMagnitude(space, sign, "0X" + t);
    }
    if Octal(t) {
      OctalMagnitude(t);
      ReadsMagnitude(space, sign, "0" + t);
    }
    if Decimal(t) && t != [] && t[0] != '0' {
      ReadsMagnitude(space, sign, t);
    }
  }

  lemma HexMagnitude(s: string, t: string)
    requires t != [] && Digits(t, 16) && (s == "0x" + t || s == "0X" + t)
    ensures Magnitude(s) == Some(Value(t, 16))
  {
    hide Value;
    assert s[2..] == t && s[2] == t[0];
  }

  lemma OctalMagnitude(t: string)
    requires Digits(t, 8)
    ensures Magnitude("0" + t) == Some(Value(t, 8))
  {
    hide Value, Digits, DigitValue;
    var s := "0" + t;
    DigitKinds(t);
    LeadingZeros(1, t, 8);
    assert Zeros(1) == "0";
    assert |s| > 2 ==> s[1] == t[0];
    assert !HexPrefix(s);
  }

  /** The text of a number. */
  predicate Numeric(t: string) {
    || (|t| > 2 && t[0] == '0' && (t[1] == 'x' || t[1] == 'X') && Hexadecimal(t[2..]))
    || (t != [] && t[0] == '0' && Octal(t))
    || (t != [] && t[0] != '0' && Decimal(t))
  }

  lemma {:induction false} WhiteAhead(s: string) returns (space: string)
    ensures AllWhite(space) && s == space + SkipSpace(s)
    decreases |s|
  {
    if s != [] && IsSpace(s[0]) {
      var rest := WhiteAhead(s[1..]);
      space := [s[0]] + rest;
      assert s == [s[0]] + s[1..];
    } else {
      space := "";
    }
  }

  predicate NumberText(token: string, space: string, sign: string, t: string) {
    token == space + sign + t && AllWhite(space) && sign in {"", "+", "-"} && Numeric(t)
  }

  lemma MagnitudeIsNumeric(t: string)
    requires Magnitude(t).Some?
    ensures Numeric(t)
  {
    hide Value, Digits, DigitValue, Hexadecimal, Decimal, Octal;
    DigitKinds(t);
    if HexPrefix(t) {
      DigitKinds(t[2..]);
    }
  }

  /** A sign in front, if there is one. */
  lemma SignAhead(s: string) returns (sign: string, t: string)
    ensures s == sign + t && sign in {"", "+", "-"}
    ensures t == if s != [] && (s[0] == '-' || s[0] == '+') then s[1..] else s
  {
    if s != [] && (s[0] == '-' || s[0] == '+') {
      sign, t := [s[0]], s[1..];
    } else {
      sign, t := "", s;
    }
  }

  /** Nothing else is a number. */
  lemma OnlyNumerals(token: string)
    requires ParseU32(token).Some?
    ensures exists space, sign, t :: NumberText(token, space, sign, t)
  {
    hide Magnitude, Numeric, AllWhite, SkipSpace;
    var space := WhiteAhead(token);
    var sign, t := SignAhead(SkipSpace(token));
    MagnitudeIsNumeric(t);
    assert token == space + (sign + t) == space + sign + t;
    assert NumberText(token, space, sign, t);
  }

  // ----- Lines and their answers -----

  /** The reply's text, and the accesses made by then. */
  predicate Replies(turn: Turn, text: string, log: seq<Access>) {
    |turn.replies| == 1 && ReplyText(turn.replies[0]) == text && turn.log == log
  }

  predicate RepliesNumber(turn: Turn, at: Word, bus: Bus, log: seq<Access>) {
    Replies(turn, "OK 0x" + Hex8(bus(log, at)), log + [In(at, bus(log, at))])
  }

  /** The k-th token after the command, if it is there and a number. */
  function Operand(ts: seq<string>, k: nat): Option<Word> {
    if k < |ts| then ParseU32(ts[k]) else None
  }

  /** v is the word with this fault in it, bit by bit. */
  ghost predicate Faulted(mode: nat, before: Word, mask: Word, v: Word) {
    forall i: nat :: i < 32 ==>
      (Bit(v, i) <==>
        match mode
        case 0 => Bit(mask, i)
        case 1 => Bit(before, i) != Bit(mask, i)
        case 2 => Bit(before, i) || Bit(mask, i)
        case _ => Bit(before, i) && !Bit(mask, i))
  }

  ghost predicate FaultsWord(turn: Turn, at: Word, mode: nat, mask: Word, bus: Bus, log: seq<Access>) {
    exists v: Word ::
      Faulted(mode, bus(log, at), mask, v) && Replies(turn, "OK", log + [In(at, bus(log, at)), Out(at, v)])
  }

  /** The answer to a command and its operands, and what it makes the firmware send over the bus. */
  ghost predicate Answers(
      cmd: string, x: Option<Word>, y: Option<Word>, z: Option<Word>, base: Word, bus: Bus, log: seq<Access>, turn: Turn)
    requires base % 0x1_0000 == 0
  {
    if cmd == "PROTOCOL_VERSION" then Replies(turn, "OK 0x00000001", log)
    else if cmd == "START" then Replies(turn, "OK", log + [Out(base + 0x1004, 1)])
    else if cmd == "STOP" then Replies(turn, "OK", log + [Out(base + 0x1008, 1)])
    else if cmd == "STEP" then Replies(turn, "OK", log + [Out(base + 0x100C, 1)])
    else if cmd == "GET_PC" then RepliesNumber(turn, base + 0x1010, bus, log)
    else if cmd == "SET_PC" then
      (if x.Some? then Replies(turn, "OK", log + [Out(base + 0x1010, x.value)])
       else Replies(turn, "ERR BAD_PC", log))
    else if cmd == "GET_REG" then
      (if x.Some? && x.value < 32 then RepliesNumber(turn, base + 0x2000 + 4 * x.value, bus, log)
       else Replies(turn, "ERR BAD_REG", log))
    else if cmd == "SET_REG" then
      (if x.Some? && y.Some? && x.value < 32 then Replies(turn, "OK", log + [Out(base + 0x2000 + 4 * x.value, y.value)])
       else Replies(turn, "ERR BAD_REG", log))
    else if cmd == "READ_WORD" then
      (if x.Some? then RepliesNumber(turn, x.value, bus, log)
       else Replies(turn, "ERR BAD_ADDR", log))
    else if cmd == "WRITE_WORD" then
      (if x.Some? && y.Some? then Replies(turn, "OK", log + [Out(x.value, y.value)])
       else Replies(turn, "ERR BAD_WRITE", log))
    else if cmd == "FAULT_REG" then
      (if x.Some? && y.Some? && z.Some? && x.value < 32 && y.value < 4 then
         Replies(turn, "OK", log + [Out(base + 0x3000 + 0x100 * y.value + 4 * x.value, z.value)])
       else Replies(turn, "ERR BAD_FAULT_REG", log))
    else if cmd == "FAULT_MEM" then
      (if x.Some? && y.Some? && z.Some? && x.value % 4 == 0 && y.value < 4 then
         FaultsWord(turn, x.value, y.value, z.value, bus, log)
       else Replies(turn, "ERR BAD_FAULT_MEM", log))
    else Replies(turn, "ERR UNKNOWN_CMD", log)
  }

  lemma VersionText()
    ensures Hex8(1) == "00000001"
  {
    assert Numeral(1, 16) == "1";
    assert Zeros(7) == "0000000";
  }

  lemma FaultedWord(turn: Turn, at: Word, mode: FaultMode, mask: Word, bus: Bus, log: seq<Access>)
    requires turn == Turn([Ack], log + [In(at, bus(log, at)), Out(at, Inject(mode, bus(log, at), mask))])
    ensures FaultsWord(turn, at, mode, mask, bus, log)
  {
    hide Inject, Bit;
    var v := Inject(mode, bus(log, at), mask);
    forall i: nat | i < 32 ensures Bit(v, i) <==> FaultedBit(mode, Bit(bus(log, at), i), Bit(mask, i)) {
      InjectBits(mode, bus(log, at), mask, i);
    }
    assert Faulted(mode, bus(log, at), mask, v);
  }

  lemma ReplyTexts()
    ensures ReplyText(Ack) == "OK" && forall v: Word :: ReplyText(Number(v)) == "OK 0x" + Hex8(v)
    ensures ReplyText(Number(1)) == "OK 0x00000001"
    ensures ReplyText(Failed(BAD_PC)) == "ERR BAD_PC" && ReplyText(Failed(BAD_REG)) == "ERR BAD_REG"
    ensures ReplyText(Failed(BAD_ADDR)) == "ERR BAD_ADDR" && ReplyText(Failed(BAD_WRITE)) == "ERR BAD_WRITE"
    ensures ReplyText(Failed(BAD_FAULT_REG)) == "ERR BAD_FAULT_REG"
    ensures ReplyText(Failed(BAD_FAULT_MEM)) == "ERR BAD_FAULT_MEM"
    ensures ReplyText(Failed(UNKNOWN_CMD)) == "ERR UNKNOWN_CMD" && ReplyText(Failed(LINE_TOO_LONG)) == "ERR LINE_TOO_LONG"
  {
    hide Hex8;
    VersionText();
  }

  /** done is what a parsed command replies and sends. */
  lemma Obeyed(r: Result<Command, LineError>, base: Word, bus: Bus, log: seq<Access>, turn: Turn)
    requires base % 0x1_0000 == 0 && turn == Turn([Obey(r, base, bus, log).reply], Obey(r, base, bus, log).log)
    ensures
      match r
      case Err(e) => Replies(turn, ReplyText(Failed(e)), log)
      case Ok(ProtocolVersion) => Replies(turn, "OK 0x00000001", log)
      case Ok(Start) => Replies(turn, "OK", log + [Out(base + 0x1004, 1)])
      case Ok(Stop) => Replies(turn, "OK", log + [Out(base + 0x1008, 1)])
      case Ok(Step) => Replies(turn, "OK", log + [Out(base + 0x100C, 1)])
      case Ok(GetPc) => RepliesNumber(turn, base + 0x1010, bus, log)
      case Ok(SetPc(v)) => Replies(turn, "OK", log + [Out(base + 0x1010, v)])
      case Ok(GetReg(x)) => RepliesNumber(turn, base + 0x2000 + 4 * x, bus, log)
      case Ok(SetReg(x, v)) => Replies(turn, "OK", log + [Out(base + 0x2000 + 4 * x, v)])
      case Ok(ReadMem(at)) => RepliesNumber(turn, at, bus, log)
      case Ok(WriteMem(at, v)) => Replies(turn, "OK", log + [Out(at, v)])
      case Ok(FaultReg(x, mode, mask)) => Replies(turn, "OK", log + [Out(base + 0x3000 + 0x100 * mode + 4 * x, mask)])
      case Ok(FaultMem(at, mode, mask)) => FaultsWord(turn, at, mode, mask, bus, log)
  {
    hide CarryOut, Hex8, ReplyText, FaultsWord, Inject;
    ReplyTexts();
    if r.Ok? {
      CommandAccesses(r.value, base, bus, log);
      if r.value.FaultMem? {
        FaultedWord(turn, r.value.addr, r.value.mode, r.value.mask, bus, log);
      }
    }
  }

  lemma CommandAnswered(
      cmd: string, x: Option<Word>, y: Option<Word>, z: Option<Word>, base: Word, bus: Bus, log: seq<Access>)
    requires base % 0x1_0000 == 0
    ensures
      var done := Obey(CommandOf(cmd, x, y, z), base, bus, log);
      Answers(cmd, x, y, z, base, bus, log, Turn([done.reply], done.log))
  {
    hide Obey, ReplyText, Replies, RepliesNumber, FaultsWord;
    var r := CommandOf(cmd, x, y, z);
    var done := Obey(r, base, bus, log);
    ReplyTexts();
    Obeyed(r, base, bus, log, Turn([done.reply], done.log));
  }

  lemma LineObeyed(line: string, base: Word, bus: Bus, log: seq<Access>)
    ensures |line| >= 160 ==> AnswerLine(line, base, bus, log) == Turn([Failed(LINE_TOO_LONG)], log)
    ensures
      var ts := TokensOf(CString(line));
      |line| < 160 ==>
        if ts == [] then AnswerLine(line, base, bus, log) == Turn([], log)
        else
          var done := Obey(CommandOf(ts[0], Operand(ts, 1), Operand(ts, 2), Operand(ts, 3)), base, bus, log);
          AnswerLine(line, base, bus, log) == Turn([done.reply], done.log)
  {
    hide Obey, CommandOf, TokensOf, CString, ParseU32;
  }

  /** Every line there is. */
  lemma EveryLine(line: string, base: Word, bus: Bus, log: seq<Access>)
    requires base % 0x1_0000 == 0
    ensures
      var turn, ts := AnswerLine(line, base, bus, log), TokensOf(CString(line));
      if |line| >= 160 then Replies(turn, "ERR LINE_TOO_LONG", log)
      else if ts == [] then turn == Turn([], log)
      else Answers(ts[0], Operand(ts, 1), Operand(ts, 2), Operand(ts, 3), base, bus, log, turn)
  {
    hide Answers, Obey, CommandOf, TokensOf, CString, ParseU32, AnswerLine, Operand, ReplyText;
    var ts := TokensOf(CString(line));
    ReplyTexts();
    LineObeyed(line, base, bus, log);
    if ts != [] {
      CommandAnswered(ts[0], Operand(ts, 1), Operand(ts, 2), Operand(ts, 3), base, bus, log);
    }
  }

  // ----- The client's side -----

  /** The calls the client lets through. */
  lemma LetThrough(r: int, mode: int, addr: int, v: int)
    ensures Checked(CallGetReg(r)) <==> 0 <= r < 32
    ensures Checked(CallSetReg(r, v)) <==> 0 <= r < 32
    ensures Checked(CallReadWord(addr)) <==> addr % 4 == 0
    ensures Checked(CallWriteWord(addr, v)) <==> addr % 4 == 0
    ensures Checked(CallFaultReg(r, mode, v)) <==> 0 <= r < 32 && 0 <= mode < 4
    ensures Checked(CallFaultMem(addr, mode, v)) <==> addr % 4 == 0 && 0 <= mode < 4
  {
  }

  /** The firmware takes the tokens of a call as this command. */
  predicate TakenAs(c: Call, command: Command)
    requires Checked(c)
  {
    var ts := TokensOf(CommandText(c));
    ts != [] && ParseCommand(ts) == Ok(command)
  }

  /** Every fault of every register gets through to the firmware as meant. */
  lemma RegisterFaultsTaken(r: RegIndex, mode: int, mask: int)
    requires 0 <= mode < 4
    ensures Checked(CallFaultReg(r, mode, mask))
    ensures TakenAs(CallFaultReg(r, mode, mask), FaultReg(r, mode, mask % 0x1_0000_0000))
  {
    hide CommandText, TokensOf, ParseCommand;
    Understood(CallFaultReg(r, mode, mask));
  }

  /** And every fault of every aligned word. */
  lemma MemoryFaultsTaken(at: Word, mode: int, mask: int)
    requires 0 <= mode < 4 && at % 4 == 0
    ensures Checked(CallFaultMem(at, mode, mask))
    ensures TakenAs(CallFaultMem(at, mode, mask), FaultMem(at, mode, mask % 0x1_0000_0000))
  {
    hide CommandText, TokensOf, ParseCommand;
    Understood(CallFaultMem(at, mode, mask));
  }

  lemma ReplyTokens(number: string)
    requires number != [] && forall k :: 0 <= k < |number| ==> number[k] != ' ' && number[k] != '\t'
    ensures TokensOf("OK" + " " + number) == ["OK", number]
  {
    hide TokensOf;
    SplitsAtBlanks("OK", number);
    SplitsAtBlanks(number, "");
  }

  lemma HexReply(number: string, t: string)
    requires t != [] && Hexadecimal(t) && (number == "0x" + t || number == "0X" + t)
    ensures NumberOf("OK" + " " + number) == Ok(Value(t, 16) % 0x1_0000_0000)
  {
    hide Value, TokensOf, Digits;
    DigitKinds(t);
    ReplyTokens(number);
    assert number[2..] == t;
  }

  lemma DecimalReply(t: string)
    requires t != [] && Decimal(t) && t[0] != '0'
    ensures NumberOf("OK" + " " + t) == Ok(Value(t, 10) % 0x1_0000_0000)
  {
    hide Value, TokensOf, Digits;
    DigitKinds(t);
    ReplyTokens(t);
  }

  /** The numbers and acknowledgements the client reads; anything else is malformed. */
  lemma RepliesRead(t: string)
    ensures Hexadecimal(t) && t != [] ==>
      NumberOf("OK" + " " + ("0x" + t)) == NumberOf("OK" + " " + ("0X" + t)) == Ok(Value(t, 16) % 0x1_0000_0000)
    ensures Decimal(t) && t != [] && t[0] != '0' ==> NumberOf("OK" + " " + t) == Ok(Value(t, 10) % 0x1_0000_0000)
    ensures AckOf(t) == if t == "OK" then Ok(()) else Err(MALFORMED)
    ensures NumberOf(t).Err? ==> NumberOf(t).error == MALFORMED
  {
    hide Value, TokensOf, PyInt, Hexadecimal, Decimal;
    if Hexadecimal(t) && t != [] {
      HexReply("0x" + t, t);
      HexReply("0X" + t, t);
    }
    if Decimal(t) && t != [] && t[0] != '0' {
      DecimalReply(t);
    }
  }

  /** The client's `strip()`: white space goes from both ends, and from nowhere else. */
  lemma {:induction false} StripsEnds(before: string, t: string, after: string)
    requires AllWhite(before) && AllWhite(after) && (t != [] ==> !White(t[0]) && !White(t[|t| - 1]))
    ensures Strip(before + t + after) == t
    decreases |before| + |after|
  {
    var s := before + t + after;
    if before != [] {
      assert s[1..] == before[1..] + t + after;
      StripsEnds(before[1..], t, after);
    } else if t == [] && after != [] {
      assert s[1..] == [] + t + after[1..];
      StripsEnds([], t, after[1..]);
    } else if after != [] {
      assert s[0] == t[0] && s[|s| - 1] == after[|after| - 1];
      assert s[..|s| - 1] == [] + t + after[..|after| - 1];
      StripsEnds([], t, after[..|after| - 1]);
    } else {
      assert s == t;
    }
  }

  // ----- Printed numbers -----

  predicate UpperCase(s: string) {
    forall k :: 0 <= k < |s| ==> '0' <= s[k] <= '9' || 'A' <= s[k] <= 'F'
  }

  lemma {:induction false} NumeralIsUpper(v: nat, base: nat)
    requires 2 <= base <= 16
    ensures UpperCase(Numeral(v, base))
    decreases v
  {
    hide UpperCase, Digit;
    if v < base {
      UpperSnoc("", v);
      assert Numeral(v, base) == "" + [Digit(v)];
    } else {
      NumeralIsUpper(v / base, base);
      UpperSnoc(Numeral(v / base, base), v % base);
    }
  }

  lemma UpperSnoc(s: string, d: nat)
    requires d < 16 && (s == "" || UpperCase(s))
    ensures UpperCase(s + [Digit(d)])
  {
    hide Digit;
    DigitIsUpper(d);
  }

  lemma DigitIsUpper(d: nat)
    requires d < 16
    ensures '0' <= Digit(d) <= '9' || 'A' <= Digit(d) <= 'F'
  {
  }

  /** `%08X` of a word: eight digits, upper case, with the word's value. */
  lemma PrintedWord(v: Word)
    ensures |Hex8(v)| == 8 && UpperCase(Hex8(v)) && Value(Hex8(v), 16) == v
  {
    hide Numeral, Value, Digits;
    Hex8RoundTrip(v);
    NumeralIsUpper(v, 16);
  }
}
