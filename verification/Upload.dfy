/** worker_interface.py over the firmware: word access and upload_words, end to end. */
module Upload {
  import opened Wrappers
  import opened Words
  import opened RegisterFile
  import opened Text
  import opened Uart
  import opened Console
  import opened Client

  // ----- From a command's text to the firmware's one turn -----

  lemma {:induction false} LineEndAhead(t: string, rest: string)
    requires (forall k :: 0 <= k < |t| ==> !IsTerminator(t[k])) && rest != [] && IsTerminator(rest[0])
    ensures LineEnd(t + rest) == |t|
    decreases |t|
  {
    if t == [] {
      assert t + rest == rest;
    } else {
      assert (t + rest)[1..] == t[1..] + rest;
      LineEndAhead(t[1..], rest);
    }
  }

  lemma OneLine(t: string)
    requires forall k :: 0 <= k < |t| ==> !IsTerminator(t[k])
    ensures Lines(t + "\n") == [t]
  {
    LineEndAhead(t, "\n");
    assert (t + "\n")[..|t|] == t && (t + "\n")[|t| + 1..] == [];
  }

  lemma {:induction false} JoinHasNoTerminator(ts: seq<string>)
    requires forall k :: 0 <= k < |ts| ==> Printable(ts[k])
    ensures forall k :: 0 <= k < |Join(ts)| ==> !IsTerminator(Join(ts)[k])
    decreases |ts|
  {
    if |ts| == 1 {
      assert Printable(ts[0]);
    } else if |ts| > 1 {
      assert Printable(ts[0]);
      JoinHasNoTerminator(ts[1..]);
    }
  }

  /** A sent command is one line to the firmware. */
  lemma SentLine(c: Call, base: Word, bus: Bus, log: seq<Access>)
    requires Checked(c)
    ensures Conversation(Lines(CommandText(c) + "\n"), base, bus, log) == AnswerLine(CommandText(c), base, bus, log)
  {
    hide AnswerLine, Parts, Printable, Lines;
    PartsArePlain(c);
    JoinHasNoTerminator(Parts(c));
    OneLine(CommandText(c));
    assert [CommandText(c)][1..] == [];
  }

  /** A call the firmware cannot make sense of is answered by an error and does nothing. */
  lemma Refused(c: Call, base: Word, bus: Bus, log: seq<Access>)
    requires Checked(c) && Meaning(c).Err?
    ensures
      var turn := AnswerLine(CommandText(c), base, bus, log);
      turn.log == log && |turn.replies| == 1 && turn.replies[0].Failed?
  {
    hide ParseCommand, TokensOf, CString, CommandText, Meaning;
    TextIsNulFree(c);
    Understood(c);
  }

  // ----- The client -----

  class WorkerInterface {
    const base: Word
    const bus: Bus
    var log: seq<Access>

    constructor (base: Word, bus: Bus)
      ensures this.base == base && this.bus == bus && log == []
    {
      this.base := base;
      this.bus := bus;
      log := [];
    }

    /** send: write the line, let the firmware answer it, read the answer. */
    method Send(command: string) returns (r: Result<string, ClientError>)
      modifies this`log
      ensures
        var turn := Conversation(Lines(command + "\n"), base, bus, old(log));
        && log == turn.log
        && (|turn.replies| == 1 ==> r == Judge(ReplyText(turn.replies[0])))
    {
      hide Conversation, Lines, Judge, ReplyText, Strip;
      var turn := Conversation(Lines(command + "\n"), base, bus, log);
      log := turn.log;
      if |turn.replies| == 1 {
        var line := ReplyText(turn.replies[0]) + "\n";
        r := Await([line]);
        ReplyStrips(turn.replies[0]);
        assert [line][0] == line;
      } else {
        r := Await(seq(|turn.replies|, k requires 0 <= k < |turn.replies| => ReplyText(turn.replies[k]) + "\n"));
      }
    }

    /** A call whose reply is read as an acknowledgement. */
    method SendAck(c: Call) returns (r: Result<(), ClientError>)
      requires Checked(c)
      modifies this`log
      ensures Meaning(c).Err? ==> r == Err(REJECTED) && log == old(log)
      ensures Meaning(c).Ok? && CarryOut(Meaning(c).value, base, bus, old(log)).reply == Ack ==>
        r == Ok(()) && log == CarryOut(Meaning(c).value, base, bus, old(log)).log
    {
      hide Conversation, Lines, CarryOut, Meaning, CommandText, AnswerLine;
      var response := Send(CommandText(c));
      SentLine(c, base, bus, old(log));
      if Meaning(c).Err? {
        Refused(c, base, bus, old(log));
        ErrorUnderstood(AnswerLine(CommandText(c), base, bus, old(log)).replies[0].error);
      } else {
        Exchange(c, base, bus, old(log));
      }
      r := if response.Ok? then AckOf(response.value) else Err(response.error);
    }

    /** A call whose reply is read as a number. */
    method SendU32(c: Call) returns (r: Result<Word, ClientError>)
      requires Checked(c)
      modifies this`log
      ensures Meaning(c).Err? ==> r == Err(REJECTED) && log == old(log)
      ensures Meaning(c).Ok? && CarryOut(Meaning(c).value, base, bus, old(log)).reply.Number? ==>
        var done := CarryOut(Meaning(c).value, base, bus, old(log));
        r == Ok(done.reply.value) && log == done.log
    {
      hide Conversation, Lines, CarryOut, Meaning, CommandText, AnswerLine, NumberOf;
      var response := Send(CommandText(c));
      SentLine(c, base, bus, old(log));
      if Meaning(c).Err? {
        Refused(c, base, bus, old(log));
        ErrorUnderstood(AnswerLine(CommandText(c), base, bus, old(log)).replies[0].error);
      } else {
        Exchange(c, base, bus, old(log));
        NumberReply(CarryOut(Meaning(c).value, base, bus, old(log)).reply);
      }
      r := if response.Ok? then NumberOf(response.value) else Err(response.error);
    }

    method WriteWordAt(addr: int, value: int) returns (r: Result<(), ClientError>)
      modifies this`log
      ensures addr % 4 != 0 ==> r == Err(BAD_ARGUMENT) && log == old(log)
      ensures addr % 4 == 0 && !IsAddress(addr) ==> r == Err(REJECTED) && log == old(log)
      ensures addr % 4 == 0 && IsAddress(addr) ==> r == Ok(()) && log == old(log) + [Out(addr, value % 0x1_0000_0000)]
    {
      if addr % 4 != 0 {
        return Err(BAD_ARGUMENT);
      }
      r := SendAck(CallWriteWord(addr, value));
    }

    method ReadWordAt(addr: int) returns (r: Result<Word, ClientError>)
      modifies this`log
      ensures addr % 4 != 0 ==> r == Err(BAD_ARGUMENT) && log == old(log)
      ensures addr % 4 == 0 && !IsAddress(addr) ==> r == Err(REJECTED) && log == old(log)
      ensures addr % 4 == 0 && IsAddress(addr) ==>
        r == Ok(bus(old(log), addr)) && log == old(log) + [In(addr, bus(old(log), addr))]
    {
      if addr % 4 != 0 {
        return Err(BAD_ARGUMENT);
      }
      r := SendU32(CallReadWord(addr));
    }

    /** The write loop of upload_words. */
    method WriteAll(baseAddr: int, words: seq<int>) returns (r: Result<(), ClientError>)
      modifies this`log
      ensures baseAddr % 4 != 0 && words != [] ==> r == Err(BAD_ARGUMENT) && log == old(log)
      ensures baseAddr % 4 == 0 && InSpace(baseAddr, |words|) ==> r == Ok(()) && log == old(log) + Writes(baseAddr, words)
      ensures baseAddr % 4 == 0 && !InSpace(baseAddr, |words|) ==>
        r == Err(REJECTED) && exists k: nat :: Overruns(baseAddr, words, k) && log == old(log) + Writes(baseAddr, words[..k])
    {
      var idx := 0;
      while idx < |words|
        invariant 0 <= idx <= |words| && (idx > 0 ==> baseAddr % 4 == 0) && InSpace(baseAddr, idx)
        invariant log == old(log) + Writes(baseAddr, words[..idx])
      {
        var sent := WriteWordAt(baseAddr + idx * 4, words[idx]);
        if sent.Err? {
          assert baseAddr % 4 == 0 ==> Overruns(baseAddr, words, idx);
          return Err(sent.error);
        }
        assert words[..idx + 1][..idx] == words[..idx];
        idx := idx + 1;
      }
      assert words[..|words|] == words;
      r := Ok(());
    }

    /** The verify loop of upload_words: reads stop at the first word that differs. */
    method VerifyAll(baseAddr: int, words: seq<int>) returns (r: Result<(), ClientError>, read: nat)
      requires baseAddr % 4 == 0 && InSpace(baseAddr, |words|)
      modifies this`log
      ensures read <= |words| && log == old(log) + Reads(bus, old(log), baseAddr, read)
      ensures r == Ok(()) ==> read == |words| && forall j :: 0 <= j < read ==> Agrees(bus, old(log), baseAddr, words, j)
      ensures r != Ok(()) ==> r == Err(VERIFY_FAILED) && read > 0 && !Agrees(bus, old(log), baseAddr, words, read - 1)
    {
      read := 0;
      while read < |words|
        invariant read <= |words|
        invariant log == old(log) + Reads(bus, old(log), baseAddr, read)
        invariant forall j :: 0 <= j < read ==> Agrees(bus, old(log), baseAddr, words, j)
      {
        var actual := ReadWordAt(baseAddr + read * 4);
        if actual.Err? {
          assert false;
        }
        read := read + 1;
        assert log == old(log) + Reads(bus, old(log), baseAddr, read);
        if actual.value != words[read - 1] {
          return Err(VERIFY_FAILED), read;
        }
      }
      r := Ok(());
    }

    /**
     * upload_words over a worker that, while the upload lasts, returns the last word
     * written to its range: the words arrive, nothing else changes, and verification
     * fails exactly when some word is no 32-bit value to begin with.
     */
    method UploadWords(baseAddr: int, words: seq<int>, verify: bool, ghost ram: Word -> Word)
      returns (r: Result<(), ClientError>)
      requires Faithful(bus, log, ram, baseAddr, |words|)
      modifies this`log
      ensures baseAddr % 4 != 0 && words != [] ==> r == Err(BAD_ARGUMENT) && log == old(log)
      ensures baseAddr % 4 == 0 && !InSpace(baseAddr, |words|) ==> r == Err(REJECTED)
      ensures baseAddr % 4 == 0 && InSpace(baseAddr, |words|) ==>
        && r == (if verify && exists i :: 0 <= i < |words| && !IsAddress(words[i]) then Err(VERIFY_FAILED) else Ok(()))
        && old(log) <= log && Uploaded(log[|old(log)|..], ram, baseAddr, words)
        && Sent(bus, old(log), log, baseAddr, words, verify)
    {
      hide Latest, Writes, Reads, Agrees;
      r := WriteAll(baseAddr, words);
      if baseAddr % 4 == 0 && InSpace(baseAddr, |words|) {
        assert log[|old(log)|..] == Writes(baseAddr, words);
        NoReads(bus, log, baseAddr);
        assert log + [] == log;
        WritesLand(baseAddr, words, ram);
        if words != [] && verify {
          ghost var written := log;
          var read;
          r, read := VerifyAll(baseAddr, words);
          assert log == written + Reads(bus, written, baseAddr, read);
          assert log[|old(log)|..] == Writes(baseAddr, words) + Reads(bus, written, baseAddr, read);
          ReadsKeep(bus, written, baseAddr, read, Writes(baseAddr, words), ram);
          forall i | 0 <= i < |words|
            ensures Agrees(bus, written, baseAddr, words, i) <==> IsAddress(words[i])
          {
            AgreesIff(bus, old(log), baseAddr, words, i, ram);
          }
        }
      }
    }
  }

  // ----- A faithful word memory -----

  /** The value last written to an address by these accesses, or what the memory held before them. */
  function Latest(accesses: seq<Access>, addr: Word, ram: Word -> Word): Word
    decreases |accesses|
  {
    if accesses == [] then ram(addr)
    else
      var last := accesses[|accesses| - 1];
      if last.Out? && last.addr == addr then last.value else Latest(accesses[..|accesses| - 1], addr, ram)
  }

  /** One of the n words from `base` on. */
  predicate WordIn(a: int, base: int, n: nat) {
    base <= a < base + 4 * n && (a - base) % 4 == 0
  }

  predicate StaysIn(accesses: seq<Access>, base: int, n: nat) {
    forall k :: 0 <= k < |accesses| ==> WordIn(accesses[k].addr, base, n)
  }

  /**
   * As long as the host touches nothing but the n words from `base` on, the bus
   * returns the last value written to each, `ram` being what they held at `start`.
   */
  ghost predicate Faithful(bus: Bus, start: seq<Access>, ram: Word -> Word, base: int, n: nat) {
    forall more: seq<Access>, a: Word ::
      StaysIn(more, base, n) && WordIn(a, base, n) ==> bus(start + more, a) == Latest(more, a, ram)
  }

  lemma {:induction false} WritesStayIn(base: int, words: seq<int>, n: nat)
    requires InSpace(base, |words|) && |words| <= n
    ensures StaysIn(Writes(base, words), base, n)
    decreases |words|
  {
    if words != [] {
      var m := |words| - 1;
      WritesStayIn(base, words[..m], n);
      assert (base + 4 * m - base) % 4 == 0;
    }
  }

  lemma {:induction false} ReadsStayIn(bus: Bus, log: seq<Access>, base: int, k: nat, n: nat)
    requires InSpace(base, k) && k <= n
    ensures StaysIn(Reads(bus, log, base, k), base, n)
    decreases k
  {
    if k > 0 {
      ReadsStayIn(bus, log, base, k - 1, n);
      assert (base + 4 * (k - 1) - base) % 4 == 0;
    }
  }

  /** Word i is in place at base + 4i, cut to 32 bits, and every other address is as before. */
  ghost predicate Uploaded(accesses: seq<Access>, ram: Word -> Word, base: int, words: seq<int>)
    requires InSpace(base, |words|)
  {
    && (forall i :: 0 <= i < |words| ==> Latest(accesses, base + 4 * i, ram) == words[i] % 0x1_0000_0000)
    && (forall a: Word :: (forall i :: 0 <= i < |words| ==> a != base + 4 * i) ==> Latest(accesses, a, ram) == ram(a))
  }

  lemma LatestSnoc(accesses: seq<Access>, x: Access, addr: Word, ram: Word -> Word)
    ensures
      Latest(accesses + [x], addr, ram) == if x.Out? && x.addr == addr then x.value else Latest(accesses, addr, ram)
  {
    assert (accesses + [x])[..|accesses|] == accesses;
  }

  lemma {:induction false} WritesLand(base: int, words: seq<int>, ram: Word -> Word)
    requires InSpace(base, |words|)
    ensures Uploaded(Writes(base, words), ram, base, words)
    decreases |words|
  {
    if words != [] {
      hide Latest;
      var n := |words| - 1;
      var most, x := Writes(base, words[..n]), Out(base + 4 * n, words[n] % 0x1_0000_0000);
      WritesLand(base, words[..n], ram);
      forall a: Word ensures
        Latest(Writes(base, words), a, ram) == if a == base + 4 * n then x.value else Latest(most, a, ram)
      {
        LatestSnoc(most, x, a, ram);
      }
    }
  }

  /** Reads on top of `done` leave every word as `done` left it. */
  lemma {:induction false} ReadsKeep(bus: Bus, log: seq<Access>, base: int, n: nat, done: seq<Access>, ram: Word -> Word)
    requires InSpace(base, n)
    ensures forall a: Word :: Latest(done + Reads(bus, log, base, n), a, ram) == Latest(done, a, ram)
    decreases n
  {
    hide Latest;
    if n == 0 {
      assert done + [] == done;
    } else {
      var before := Reads(bus, log, base, n - 1);
      var x := In(base + 4 * (n - 1), bus(log + before, base + 4 * (n - 1)));
      ReadsKeep(bus, log, base, n - 1, done, ram);
      assert done + Reads(bus, log, base, n) == (done + before) + [x];
      forall a: Word ensures Latest(done + Reads(bus, log, base, n), a, ram) == Latest(done + before, a, ram) {
        LatestSnoc(done + before, x, a, ram);
      }
    }
  }

  /** After the writes, word j reads back as sent exactly when it was a 32-bit value. */
  lemma AgreesIff(bus: Bus, log: seq<Access>, base: int, words: seq<int>, j: nat, ram: Word -> Word)
    requires InSpace(base, |words|) && j < |words| && Faithful(bus, log, ram, base, |words|)
    ensures Agrees(bus, log + Writes(base, words), base, words, j) <==> IsAddress(words[j])
  {
    hide Latest, Writes, Reads;
    var written := log + Writes(base, words);
    WritesLand(base, words, ram);
    ReadsKeep(bus, written, base, j, Writes(base, words), ram);
    WritesStayIn(base, words, |words|);
    ReadsStayIn(bus, written, base, j, |words|);
    assert (base + 4 * j - base) % 4 == 0;
    assert written + Reads(bus, written, base, j) == log + (Writes(base, words) + Reads(bus, written, base, j));
  }

  /** FAULT_MEM over such a memory: that word becomes its faulted value, every other word stays. */
  lemma FaultMemActs(addr: Word, mode: FaultMode, mask: Word, base: Word, bus: Bus, log: seq<Access>, ram: Word -> Word)
    requires bus(log, addr) == ram(addr)
    ensures
      var after := CarryOut(FaultMem(addr, mode, mask), base, bus, log).log;
      && log <= after && Latest(after[|log|..], addr, ram) == Inject(mode, ram(addr), mask)
      && forall a: Word :: a != addr ==> Latest(after[|log|..], a, ram) == ram(a)
  {
    hide Inject;
    var x, y := In(addr, bus(log, addr)), Out(addr, Inject(mode, bus(log, addr), mask));
    var after := CarryOut(FaultMem(addr, mode, mask), base, bus, log).log;
    assert after[|log|..] == [x] + [y];
    forall a: Word ensures Latest([x] + [y], a, ram) == if a == addr then y.value else ram(a) {
      LatestSnoc([x], y, a, ram);
      assert [x][..0] == [];
    }
  }

  lemma ReplyStrips(r: Reply)
    ensures Strip(ReplyText(r) + "\n") == ReplyText(r) && ReplyText(r) != []
  {
    hide Strip, Hex8;
    match r
    case Ack => AckUnderstood();
    case Number(v) => NumberUnderstood(v);
    case Failed(e) => ErrorUnderstood(e);
  }

  lemma NumberReply(r: Reply)
    ensures r.Number? ==> Judge(ReplyText(r)) == Ok(ReplyText(r)) && NumberOf(ReplyText(r)) == Ok(r.value)
  {
    hide Strip, NumberOf, Judge, ReplyText;
    if r.Number? {
      NumberUnderstood(r.value);
    }
  }

  /** n words from `base` on have 32-bit addresses. */
  predicate InSpace(base: int, n: nat) {
    n == 0 || (0 <= base && base + 4 * n <= 0x1_0000_0000)
  }

  /** Word k is the first outside the address space. */
  predicate Overruns(base: int, words: seq<int>, k: nat) {
    k < |words| && InSpace(base, k) && !IsAddress(base + 4 * k)
  }

  function Writes(base: int, words: seq<int>): seq<Access>
    requires InSpace(base, |words|)
    decreases |words|
  {
    if words == [] then []
    else
      var n := |words| - 1;
      Writes(base, words[..n]) + [Out(base + 4 * n, words[n] % 0x1_0000_0000)]
  }

  /** The first n reads of a verify pass. */
  function Reads(bus: Bus, log: seq<Access>, base: int, n: nat): seq<Access>
    requires InSpace(base, n)
    decreases n
  {
    if n == 0 then []
    else
      var before := Reads(bus, log, base, n - 1);
      before + [In(base + 4 * (n - 1), bus(log + before, base + 4 * (n - 1)))]
  }

  /** What an upload sends: every word, and when verifying the reads of a first few. */
  predicate Sent(bus: Bus, before: seq<Access>, log: seq<Access>, base: int, words: seq<int>, verify: bool)
    requires InSpace(base, |words|)
  {
    var written := before + Writes(base, words);
    exists read: nat :: read <= |words| && (!verify ==> read == 0) && log == written + Reads(bus, written, base, read)
  }

  lemma NoReads(bus: Bus, log: seq<Access>, base: int)
    ensures Reads(bus, log, base, 0) == []
  {
  }

  predicate Agrees(bus: Bus, log: seq<Access>, base: int, words: seq<int>, j: nat)
    requires j < |words| && InSpace(base, |words|)
  {
    bus(log + Reads(bus, log, base, j), base + 4 * j) == words[j]
  }
}
