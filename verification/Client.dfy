/**
 * worker_interface.py: the client's command text and its reading of replies, and
 * that firmware and client understand each other.
 */
module Client {
  import opened Wrappers
  import opened Words
  import opened Text
  import opened Uart
  import opened Console

  const REG_MAX := 31

  /** One call of the client, on unbounded Python integers. */
  datatype Call =
    | CallProtocolVersion | CallStart | CallStop | CallStep | CallGetPc
    | CallSetPc(pc: int)
    | CallGetReg(reg: int)
    | CallSetReg(reg: int, value: int)
    | CallReadWord(addr: int)
    | CallWriteWord(addr: int, value: int)
    | CallFaultReg(reg: int, mode: int, mask: int)
    | CallFaultMem(addr: int, mode: int, mask: int)

  datatype ClientError = BAD_ARGUMENT | TIMEOUT | REJECTED | UNEXPECTED | MALFORMED | VERIFY_FAILED

  /** The checks made before anything is sent. */
  predicate Checked(c: Call) {
    match c
    case CallGetReg(r) => 0 <= r <= REG_MAX
    case CallSetReg(r, _) => 0 <= r <= REG_MAX
    case CallReadWord(a) => a % 4 == 0
    case CallWriteWord(a, _) => a % 4 == 0
    case CallFaultReg(r, mode, _) => 0 <= r <= REG_MAX && 0 <= mode <= MODE_MAX
    case CallFaultMem(a, mode, _) => a % 4 == 0 && 0 <= mode <= MODE_MAX
    case _ => true
  }

  /** `0x{v:08X}`, sign included in the width. */
  function HexText(v: int): string {
    if v >= 0 then "0x" + Hex8(v)
    else
      var s := Numeral(-v, 16);
      "0x-" + (if |s| < 7 then Zeros(7 - |s|) + s else s)
  }

  function MaskText(v: int): string {
    "0x" + Hex8(v % 0x1_0000_0000)
  }

  /** The words of the command line, in order. */
  function Parts(c: Call): seq<string>
    requires Checked(c)
  {
    match c
    case CallProtocolVersion => ["PROTOCOL_VERSION"]
    case CallStart => ["START"]
    case CallStop => ["STOP"]
    case CallStep => ["STEP"]
    case CallGetPc => ["GET_PC"]
    case CallSetPc(pc) => ["SET_PC", HexText(pc)]
    case CallGetReg(r) => ["GET_REG", Dec(r)]
    case CallSetReg(r, v) => ["SET_REG", Dec(r), MaskText(v)]
    case CallReadWord(a) => ["READ_WORD", HexText(a)]
    case CallWriteWord(a, v) => ["WRITE_WORD", HexText(a), MaskText(v)]
    case CallFaultReg(r, mode, mask) => ["FAULT_REG", Dec(r), Dec(mode), MaskText(mask)]
    case CallFaultMem(a, mode, mask) => ["FAULT_MEM", HexText(a), Dec(mode), MaskText(mask)]
  }

  function CommandText(c: Call): string
    requires Checked(c)
  {
    Join(Parts(c))
  }

  predicate IsAddress(a: int) {
    0 <= a < 0x1_0000_0000
  }

  /** What the call asks the worker to do; an address that is no 32-bit number is the one way to be misunderstood. */
  function Meaning(c: Call): Result<Command, LineError>
    requires Checked(c)
  {
    match c
    case CallProtocolVersion => Ok(ProtocolVersion)
    case CallStart => Ok(Start)
    case CallStop => Ok(Stop)
    case CallStep => Ok(Step)
    case CallGetPc => Ok(GetPc)
    case CallSetPc(pc) => if IsAddress(pc) then Ok(SetPc(pc)) else Err(BAD_PC)
    case CallGetReg(r) => Ok(GetReg(r))
    case CallSetReg(r, v) => Ok(SetReg(r, v % 0x1_0000_0000))
    case CallReadWord(a) => if IsAddress(a) then Ok(ReadMem(a)) else Err(BAD_ADDR)
    case CallWriteWord(a, v) => if IsAddress(a) then Ok(WriteMem(a, v % 0x1_0000_0000)) else Err(BAD_WRITE)
    case CallFaultReg(r, mode, mask) => Ok(FaultReg(r, mode, mask % 0x1_0000_0000))
    case CallFaultMem(a, mode, mask) =>
      if IsAddress(a) then Ok(FaultMem(a, mode, mask % 0x1_0000_0000)) else Err(BAD_FAULT_MEM)
  }

  // ----- Command round trip -----

  /** Printable words: no white space, no NUL. */
  predicate Printable(t: string) {
    t != [] && forall k :: 0 <= k < |t| ==> t[k] as int > 32
  }

  lemma DigitsArePlain(s: string, base: nat)
    requires Digits(s, base) && base <= 16
    ensures forall k :: 0 <= k < |s| ==> s[k] as int > 32
  {
    forall k | 0 <= k < |s| ensures s[k] as int > 32 {
      assert DigitValue(s[k]) < 16;
    }
  }

  lemma PlainHex(v: nat)
    ensures Printable("0x" + Hex8(v))
  {
    hide Hex8;
    Hex8RoundTrip(v);
    DigitsArePlain(Hex8(v), 16);
  }

  lemma PlainDec(v: nat)
    ensures Printable(Dec(v))
  {
    hide Numeral;
    DecRoundTrip(v);
    DigitsArePlain(Dec(v), 10);
  }

  lemma PlainNegative(s: string)
    requires Digits(s, 16)
    ensures Printable("0x-" + (if |s| < 7 then Zeros(7 - |s|) + s else s))
  {
    DigitsArePlain(s, 16);
  }

  lemma PlainNumbers(v: int)
    ensures Printable(HexText(v)) && Printable(MaskText(v)) && (v >= 0 ==> Printable(Dec(v)))
  {
    hide Printable, Hex8, Numeral, Zeros;
    PlainHex(v % 0x1_0000_0000);
    if v >= 0 {
      PlainHex(v);
      PlainDec(v);
    } else {
      NumeralRoundTrip(-v, 16);
      PlainNegative(Numeral(-v, 16));
    }
  }

  lemma NumbersParse(v: int)
    ensures ParseU32(HexText(v)) == if IsAddress(v) then Some(v) else None
    ensures ParseU32(MaskText(v)) == Some(v % 0x1_0000_0000)
    ensures IsAddress(v) ==> ParseU32(Dec(v)) == Some(v)
  {
    hide ParseU32;
    ParseHex(v % 0x1_0000_0000);
    if v >= 0 {
      ParseHex(v);
      if IsAddress(v) {
        ParseDec(v);
      }
    } else {
      NegativeHex(HexText(v));
    }
  }

  lemma NegativeHex(s: string)
    requires |s| > 3 && s[0] == '0' && s[1] == 'x' && s[2] == '-'
    ensures ParseU32(s) == None
  {
    assert DigitValue(s[1]) == NO_DIGIT;
    assert SkipSpace(s) == s;
  }

  lemma PartsArePlain(c: Call)
    requires Checked(c)
    ensures forall k :: 0 <= k < |Parts(c)| ==> Printable(Parts(c)[k])
  {
    hide HexText, MaskText, Dec;
    match c
    case CallSetPc(pc) => PlainNumbers(pc);
    case CallGetReg(r) => PlainNumbers(r);
    case CallSetReg(r, v) => PlainNumbers(r); PlainNumbers(v);
    case CallReadWord(a) => PlainNumbers(a);
    case CallWriteWord(a, v) => PlainNumbers(a); PlainNumbers(v);
    case CallFaultReg(r, mode, mask) => PlainNumbers(r); PlainNumbers(mode); PlainNumbers(mask);
    case CallFaultMem(a, mode, mask) => PlainNumbers(a); PlainNumbers(mode); PlainNumbers(mask);
    case _ =>
  }

  lemma PlainIsUnbroken(t: string)
    requires Printable(t)
    ensures Unbroken(t) && NulFree(t)
  {
  }

  /** The firmware's tokens are the client's words. */
  lemma TokensOfText(c: Call)
    requires Checked(c)
    ensures TokensOf(CommandText(c)) == Parts(c)
  {
    hide TokensOf, Parts, Printable, Unbroken;
    PartsArePlain(c);
    forall k | 0 <= k < |Parts(c)| ensures Unbroken(Parts(c)[k]) {
      PlainIsUnbroken(Parts(c)[k]);
    }
    JoinRoundTrip(Parts(c));
  }

  /** The firmware understands exactly what the client means, for every call the client lets through. */
  lemma Understood(c: Call)
    requires Checked(c)
    ensures TokensOf(CommandText(c)) != [] && ParseCommand(TokensOf(CommandText(c))) == Meaning(c)
  {
    hide ParseU32, HexText, MaskText, Dec, CommandText, TokensOf;
    TokensOfText(c);
    match c
    case CallSetPc(pc) => NumbersParse(pc);
    case CallGetReg(r) => NumbersParse(r);
    case CallSetReg(r, v) => NumbersParse(r); NumbersParse(v);
    case CallReadWord(a) => NumbersParse(a);
    case CallWriteWord(a, v) => NumbersParse(a); NumbersParse(v);
    case CallFaultReg(r, mode, mask) => NumbersParse(r); NumbersParse(mode); NumbersParse(mask);
    case CallFaultMem(a, mode, mask) => NumbersParse(a); NumbersParse(mode); NumbersParse(mask);
    case _ =>
  }

  lemma SmallNumeral(v: nat)
    requires v <= REG_MAX
    ensures |Dec(v)| <= 2
  {
    assert Power(10, 1) == 10;
    assert Power(10, 2) == 100;
    NumeralLength(v, 10, 2, 100);
  }

  lemma WordNumeral(v: int)
    requires IsAddress(v)
    ensures |HexText(v)| == 10
  {
    Hex8RoundTrip(v);
  }

  lemma MaskNumeral(v: int)
    ensures |MaskText(v)| == 10
  {
    Hex8RoundTrip(v % 0x1_0000_0000);
  }

  lemma JoinCons(x: string, ts: seq<string>)
    requires ts != []
    ensures |Join([x] + ts)| == |x| + 1 + |Join(ts)|
  {
    assert ([x] + ts)[1..] == ts;
  }

  lemma JoinLength(x: string, y: string, z: string, t: string)
    ensures |Join([x])| == |x| && |Join([x, y])| == |x| + |y| + 1
    ensures |Join([x, y, z])| == |x| + |y| + |z| + 2 && |Join([x, y, z, t])| == |x| + |y| + |z| + |t| + 3
  {
    assert [x, y] == [x] + [y] && [y, z] == [y] + [z] && [z, t] == [z] + [t];
    assert [x, y, z] == [x] + [y, z] && [y, z, t] == [y] + [z, t] && [x, y, z, t] == [x] + [y, z, t];
    JoinCons(x, [y]);
    JoinCons(y, [z]);
    JoinCons(x, [y, z]);
    JoinCons(z, [t]);
    JoinCons(y, [z, t]);
    JoinCons(x, [y, z, t]);
  }

  /** Every command that makes sense fits the line buffer with room to spare. */
  lemma FitsBuffer(c: Call)
    requires Checked(c) && Meaning(c).Ok?
    ensures |CommandText(c)| < 40 < UART_LINE_MAX
  {
    hide Dec, HexText, MaskText, Join;
    match c
    case CallSetPc(pc) => WordNumeral(pc); JoinLength("SET_PC", HexText(pc), "", "");
    case CallGetReg(r) => SmallNumeral(r); JoinLength("GET_REG", Dec(r), "", "");
    case CallSetReg(r, v) => SmallNumeral(r); MaskNumeral(v); JoinLength("SET_REG", Dec(r), MaskText(v), "");
    case CallReadWord(a) => WordNumeral(a); JoinLength("READ_WORD", HexText(a), "", "");
    case CallWriteWord(a, v) => WordNumeral(a); MaskNumeral(v); JoinLength("WRITE_WORD", HexText(a), MaskText(v), "");
    case CallFaultReg(r, mode, mask) =>
      SmallNumeral(r); SmallNumeral(mode); MaskNumeral(mask);
      JoinLength("FAULT_REG", Dec(r), Dec(mode), MaskText(mask));
    case CallFaultMem(a, mode, mask) =>
      WordNumeral(a); SmallNumeral(mode); MaskNumeral(mask);
      JoinLength("FAULT_MEM", HexText(a), Dec(mode), MaskText(mask));
    case CallProtocolVersion => JoinLength("PROTOCOL_VERSION", "", "", "");
    case CallStart => JoinLength("START", "", "", "");
    case CallStop => JoinLength("STOP", "", "", "");
    case CallStep => JoinLength("STEP", "", "", "");
    case CallGetPc => JoinLength("GET_PC", "", "", "");
  }

  lemma {:induction false} JoinIsNulFree(ts: seq<string>)
    requires forall k :: 0 <= k < |ts| ==> NulFree(ts[k])
    ensures NulFree(Join(ts))
    decreases |ts|
  {
    if |ts| > 1 {
      JoinIsNulFree(ts[1..]);
    }
  }

  // ----- Replies -----

  function ErrorText(e: LineError): string {
    match e
    case BAD_PC => "BAD_PC"
    case BAD_REG => "BAD_REG"
    case BAD_ADDR => "BAD_ADDR"
    case BAD_WRITE => "BAD_WRITE"
    case BAD_FAULT_REG => "BAD_FAULT_REG"
    case BAD_FAULT_MEM => "BAD_FAULT_MEM"
    case UNKNOWN_CMD => "UNKNOWN_CMD"
    case LINE_TOO_LONG => "LINE_TOO_LONG"
  }

  /** A reply line without its newline. */
  function ReplyText(r: Reply): string {
    match r
    case Ack => "OK"
    case Number(v) => "OK 0x" + Hex8(v)
    case Failed(e) => "ERR " + ErrorText(e)
  }

  function Strip(s: string): string
    decreases |s|
  {
    if s == [] then s
    else if IsSpace(s[0]) then Strip(s[1..])
    else if IsSpace(s[|s| - 1]) then Strip(s[..|s| - 1])
    else s
  }

  /** How a stripped, non-empty line is taken. */
  function Judge(line: string): Result<string, ClientError> {
    if "OK" <= line then Ok(line) else if "ERR" <= line then Err(REJECTED) else Err(UNEXPECTED)
  }

  /** The reading loop of `send`: the first line with anything on it decides; no line is a timeout. */
  method Await(lines: seq<string>) returns (r: Result<string, ClientError>)
    ensures (forall k :: 0 <= k < |lines| ==> Strip(lines[k]) == []) ==> r == Err(TIMEOUT)
    ensures forall k :: 0 <= k < |lines| && Strip(lines[k]) != [] && (forall j :: 0 <= j < k ==> Strip(lines[j]) == []) ==>
      r == Judge(Strip(lines[k]))
  {
    var i := 0;
    while i < |lines|
      invariant 0 <= i <= |lines| && forall j :: 0 <= j < i ==> Strip(lines[j]) == []
    {
      var line := Strip(lines[i]);
      if line != [] {
        if "OK" <= line {
          return Ok(line);
        }
        if "ERR" <= line {
          return Err(REJECTED);
        }
        return Err(UNEXPECTED);
      }
      i := i + 1;
    }
    r := Err(TIMEOUT);
  }

  function AckOf(response: string): Result<(), ClientError> {
    if response == "OK" then Ok(()) else Err(MALFORMED)
  }

  /** `int(text, 0)` of a hexadecimal or decimal numeral. */
  function PyInt(s: string): Option<nat> {
    if |s| > 2 && s[0] == '0' && (s[1] == 'x' || s[1] == 'X') then
      (if Digits(s[2..], 16) then Some(Value(s[2..], 16)) else None)
    else if s != [] && Digits(s, 10) && (s[0] == '0' ==> Value(s, 10) == 0) then Some(Value(s, 10))
    else None
  }

  function NumberOf(response: string): Result<Word, ClientError> {
    var parts := TokensOf(response);
    if |parts| != 2 || parts[0] != "OK" || PyInt(parts[1]).None? then Err(MALFORMED)
    else Ok(PyInt(parts[1]).value % 0x1_0000_0000)
  }

  lemma NumberTokens(v: Word)
    ensures TokensOf(ReplyText(Number(v))) == ["OK", "0x" + Hex8(v)]
  {
    hide TokensOf, Hex8;
    var number := "0x" + Hex8(v);
    PlainNumbers(v);
    PlainIsUnbroken(number);
    JoinRoundTrip(["OK", number]);
    assert ["OK", number][1..] == [number];
    assert Join(["OK", number]) == ReplyText(Number(v));
  }

  lemma StripPlainEnds(s: string)
    requires s != [] && !IsSpace(s[0]) && !IsSpace(s[|s| - 1])
    ensures Strip(s + "\n") == s
  {
    assert (s + "\n")[..|s|] == s;
  }

  lemma AckTokens()
    ensures TokensOf("OK") == ["OK"]
  {
    hide TokensOf;
    JoinRoundTrip(["OK"]);
  }

  lemma ErrorTokens(e: LineError)
    ensures TokensOf(ReplyText(Failed(e))) == ["ERR", ErrorText(e)]
  {
    hide TokensOf;
    assert Unbroken(ErrorText(e));
    JoinRoundTrip(["ERR", ErrorText(e)]);
    assert ["ERR", ErrorText(e)][1..] == [ErrorText(e)];
    assert Join(["ERR", ErrorText(e)]) == ReplyText(Failed(e));
  }

  lemma AckUnderstood()
    ensures
      var line := Strip("OK" + "\n");
      line == "OK" && Judge(line) == Ok(line) && AckOf(line).Ok? && NumberOf(line).Err?
  {
    hide TokensOf, Strip;
    StripPlainEnds("OK");
    AckTokens();
  }

  lemma NumberUnderstood(v: Word)
    ensures
      var text := ReplyText(Number(v));
      var line := Strip(text + "\n");
      line == text && Judge(line) == Ok(line) && AckOf(line).Err? && NumberOf(line) == Ok(v)
  {
    hide TokensOf, Hex8, Strip, Digits, Value;
    var text, number := ReplyText(Number(v)), "0x" + Hex8(v);
    PlainHex(v);
    Hex8RoundTrip(v);
    assert text[|text| - 1] == number[|number| - 1];
    StripPlainEnds(text);
    NumberTokens(v);
    assert number[2..] == Hex8(v);
    assert text[..2] == "OK";
  }

  lemma ErrorUnderstood(e: LineError)
    ensures
      var text := ReplyText(Failed(e));
      var line := Strip(text + "\n");
      line == text && Judge(line) == Err(REJECTED) && AckOf(line).Err? && NumberOf(line).Err?
  {
    hide TokensOf, Strip;
    var text := ReplyText(Failed(e));
    StripPlainEnds(text);
    ErrorTokens(e);
    assert text[..3] == "ERR" && text[0] == 'E';
  }

  /** Every reply is read back as what it says, and as nothing else. */
  lemma RepliesUnderstood(r: Reply)
    ensures
      var line := Strip(ReplyText(r) + "\n");
      && Judge(line) == (if r.Failed? then Err(REJECTED) else Ok(line))
      && (AckOf(line).Ok? <==> r.Ack?)
      && (if r.Number? then NumberOf(line) == Ok(r.value) else NumberOf(line).Err?)
  {
    hide Strip, Judge, NumberOf, AckOf;
    match r
    case Ack => AckUnderstood();
    case Number(v) => NumberUnderstood(v);
    case Failed(e) => ErrorUnderstood(e);
  }

  // ----- One exchange -----

  lemma TextIsNulFree(c: Call)
    requires Checked(c)
    ensures CString(CommandText(c)) == CommandText(c)
  {
    hide Parts, Printable;
    PartsArePlain(c);
    forall k | 0 <= k < |Parts(c)| ensures NulFree(Parts(c)[k]) {
      PlainIsUnbroken(Parts(c)[k]);
    }
    JoinIsNulFree(Parts(c));
    NulFreeLine(CommandText(c));
  }

  /** A meaningful call is carried out once, and answered by the one reply the client expects. */
  lemma Exchange(c: Call, base: Word, bus: Bus, log: seq<Access>)
    requires Checked(c) && Meaning(c).Ok?
    ensures
      var done := CarryOut(Meaning(c).value, base, bus, log);
      AnswerLine(CommandText(c), base, bus, log) == Turn([done.reply], done.log)
  {
    hide CarryOut, ParseCommand, TokensOf, CString, CommandText;
    FitsBuffer(c);
    TextIsNulFree(c);
    Understood(c);
  }
}
