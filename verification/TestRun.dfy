/**
 * execute_tests.py: load a program, step the worker to the jump-to-self that ends
 * it, and compare registers and memory with what is expected.
 */
module TestRun {
  import opened Wrappers
  import opened Words
  import opened Isa
  import opened ByteLanes
  import opened Encoding
  import opened Decode
  import opened Core
  import opened Datapath
  import opened Refinement
  import opened Machine
  import opened Stepping
  import opened SocControl
  import opened CmAndCore
  import opened Firmware
  import opened Console
  import opened Session
  import opened Client
  import opened Upload
  import opened Board
  import opened Protocol

  const SELF_JUMP: Word := 0x0000_006F
  const STEP_LIMIT := 1000
  const DATA_ADDR := 0x4000_0000
  const BOOT := DATA_ADDR + 0x1000

  // ----- The jump-to-self is where the reference machine stays -----

  lemma SelfJumpEncodes()
    ensures Encodes(SELF_JUMP, Jal(0, 0))
  {
    hide BuildJ;
    LayoutJ(0, 0, OPCODE_JAL);
  }

  lemma SelfJumpStays(a: Arch)
    requires Fetch(a) == SELF_JUMP
    ensures Defined(a) && IsaStep(a) == a
  {
    hide Execute, Encode, Retired, WiresIn, Fetch, DecodeWord;
    var self := Jal(0, 0);
    SelfJumpEncodes();
    assert Encodes(Fetch(a), self) && Runs(self, a);
    var i :| Encodes(Fetch(a), i) && Runs(i, a) && IsaStep(a) == Execute(i, a);
    SameMeaning(i, self, SELF_JUMP, a);
    SelfJumpMeans(a);
  }

  /** Two readings of one word mean the same. */
  lemma SameMeaning(i: Instr, j: Instr, w: Word, a: Arch)
    requires Encodes(w, i) && Encodes(w, j) && Runs(i, a) && j.Jal?
    ensures Execute(i, a) == Execute(j, a)
  {
    hide Execute, Encode, Retired, WiresIn, DecodeWord;
    ControlsInRange(i, w);
    ControlsInRange(j, w);
    DatapathExecutes(i, w, a, 0, Held(0, 0));
    DatapathExecutes(j, w, a, 0, Held(0, 0));
  }

  lemma SelfJumpMeans(a: Arch)
    ensures Execute(Jal(0, 0), a) == a
  {
  }

  /** Steps beyond a jump-to-self change nothing, so the step limit cannot cut a result short. */
  lemma {:induction false} StaysAtSelfJump(a: Arch, n: nat, more: nat)
    requires DefinedFor(a, n) && Fetch(IsaSteps(a, n)) == SELF_JUMP
    ensures DefinedFor(a, n + more) && IsaSteps(a, n + more) == IsaSteps(a, n)
    decreases more
  {
    hide Defined, IsaStep, Fetch;
    if more > 0 {
      StaysAtSelfJump(a, n, more - 1);
      SelfJumpStays(IsaSteps(a, n));
      OneMoreStep(a, n + more - 1);
    }
  }

  // ----- What the stepping loop does -----

  /** After k steps the loop has an instruction to run. */
  ghost predicate Proceeds(a: Arch, k: nat) {
    var now := IsaSteps(a, k);
    now.pc % 4 == 0 && Fetch(now) != SELF_JUMP
  }

  ghost predicate Arrives(a: Arch, k: nat) {
    k < STEP_LIMIT && forall j :: 0 <= j < k ==> Proceeds(a, j)
  }

  /** The instruction after k steps is in memory, and defined if it is to be run. */
  ghost predicate Sound(a: Arch, k: nat, base: Word, ram: Ram) {
    var now := IsaSteps(a, k);
    (now.pc % 4 == 0 ==> IsMemory(now.pc, base, ram)) && (Proceeds(a, k) ==> Defined(now))
  }

  /** Wherever the loop gets. */
  ghost predicate Steppable(a: Arch, base: Word, ram: Ram) {
    forall k: nat :: Arrives(a, k) ==> Sound(a, k, base, ram)
  }

  /** The loop takes n steps: to the first jump-to-self, to the first misaligned pc, or to the limit. */
  ghost predicate Ends(a: Arch, n: nat, r: Result<nat, ClientError>) {
    && n <= STEP_LIMIT && (forall k :: 0 <= k < n ==> Proceeds(a, k))
    && match r
       case Ok(k) => k == n && (n < STEP_LIMIT ==> IsaSteps(a, n).pc % 4 == 0 && Fetch(IsaSteps(a, n)) == SELF_JUMP)
       case Err(e) => e == BAD_ARGUMENT && n < STEP_LIMIT && IsaSteps(a, n).pc % 4 != 0
  }

  lemma EndsOnce(a: Arch, m: nat, q: Result<nat, ClientError>, n: nat, r: Result<nat, ClientError>)
    requires Ends(a, m, q) && Ends(a, n, r)
    ensures m == n && q == r
  {
    hide IsaSteps, Fetch;
    assert m < n ==> Proceeds(a, m);
    assert n < m ==> Proceeds(a, n);
  }

  lemma {:induction false} SteppedDefined(a: Arch, n: nat, base: Word, ram: Ram)
    requires forall k: nat :: k < n ==> Proceeds(a, k) && Sound(a, k, base, ram)
    ensures DefinedFor(a, n)
    decreases n
  {
    hide *;
    if n == 0 {
      NoStep(a);
    } else {
      var m := n - 1;
      SteppedDefined(a, m, base, ram);
      assert Proceeds(a, m) && Sound(a, m, base, ram);
      SoundDefined(a, m, base, ram);
      OneMoreStep(a, m);
    }
  }

  lemma SoundDefined(a: Arch, k: nat, base: Word, ram: Ram)
    requires Sound(a, k, base, ram) && Proceeds(a, k)
    ensures Defined(IsaSteps(a, k))
  {
    hide Defined, Proceeds, IsaSteps, IsMemory;
  }

  /** A loop that ends well ends in the state of any jump-to-self within the limit. */
  lemma EndsAtSelfJump(a: Arch, n: nat, m: nat, base: Word, ram: Ram)
    requires Steppable(a, base, ram) && Ends(a, n, Ok(n)) && m <= STEP_LIMIT && Fetch(IsaSteps(a, m)) == SELF_JUMP
    ensures IsaSteps(a, n) == IsaSteps(a, m)
  {
    hide IsaSteps, Fetch, DefinedFor, Sound;
    assert m < n ==> Proceeds(a, m);
    if n <= m {
      assert forall k: nat :: k < n ==> Arrives(a, k);
      SteppedDefined(a, n, base, ram);
      if n < STEP_LIMIT {
        StaysAtSelfJump(a, n, m - n);
      }
    }
  }

  // ----- What the loop sends -----

  function StepAddress(base: Word): Word {
    BusAddress(base, ControlRegAddr(CTRL_REG_STEP))
  }

  function PcAddress(base: Word): Word {
    BusAddress(base, ControlRegAddr(CTRL_REG_PC))
  }

  /** Nothing but reads and STEPs. */
  predicate OnlySteps(more: seq<Access>, base: Word) {
    forall k :: 0 <= k < |more| ==> more[k].In? || more[k] == Out(StepAddress(base), 1)
  }

  function StepCount(more: seq<Access>): nat
    decreases |more|
  {
    if more == [] then 0 else StepCount(more[..|more| - 1]) + (if more[|more| - 1].Out? then 1 else 0)
  }

  lemma StepCountSnoc(more: seq<Access>, x: Access)
    ensures StepCount(more + [x]) == StepCount(more) + (if x.Out? then 1 else 0)
  {
    assert (more + [x])[..|more|] == more;
  }

  lemma NoSteps()
    ensures StepCount([]) == 0
  {
  }

  // ----- A test case -----

  /** The four files of a test case. */
  datatype TestCase = TestCase(program: seq<int>, memory: seq<int>, registers: seq<int>, expected: seq<int>)

  datatype TestError = BAD_CASE | CLIENT(error: ClientError)

  /** The registers and memory words found to differ, and the number of steps taken. */
  datatype Report = Report(steps: nat, registers: seq<nat>, memory: seq<nat>)

  function Cleared(n: nat): seq<int> {
    seq(n, _ => 0)
  }

  /** The test's ranges lie in the memory. */
  predicate Placed(t: TestCase, base: Word, ram: Ram) {
    && Fits(base, ram, BOOT, |t.program|)
    && Fits(base, ram, DATA_ADDR, |t.memory|)
    && Fits(base, ram, DATA_ADDR, |t.expected|)
  }

  /** The state a test starts from. */
  function Loaded(m: Memory, t: TestCase): Arch
    requires InSpace(BOOT, |t.program|) && InSpace(DATA_ADDR, |t.memory|) && InSpace(DATA_ADDR, |t.expected|)
  {
    var cleared := PutWords(m, DATA_ADDR, Cleared(|t.expected|));
    Arch(BOOT, ZERO_REGS, PutWords(PutWords(cleared, BOOT, t.program), DATA_ADDR, t.memory))
  }

  /** expect_word_equal: an address in a result may count from 0 or from the memory's own base. */
  predicate Accepts(actual: Word, expected: int) {
    actual == expected || actual == (expected + DATA_ADDR) % 0x1_0000_0000
  }

  /** Register xi is neither what is expected nor that plus the base of the memory. */
  predicate RegisterDiffers(z: Arch, t: TestCase, i: nat)
    requires |t.registers| == 31
  {
    && 1 <= i < 32 && z.regs[i - 1] != t.registers[i - 1]
    && z.regs[i - 1] != (t.registers[i - 1] + 0x4000_0000) % 0x1_0000_0000
  }

  /** And the i-th word of data. */
  predicate WordDiffers(z: Arch, t: TestCase, i: nat)
    requires InSpace(0x4000_0000, |t.expected|)
  {
    i < |t.expected| &&
    (var v := ReadWord(z.mem, 0x4000_0000 + 4 * i);
     v != t.expected[i] && v != (t.expected[i] + 0x4000_0000) % 0x1_0000_0000)
  }

  predicate Ascending(found: seq<nat>) {
    forall j, k :: 0 <= j < k < |found| ==> found[j] < found[k]
  }

  /** The report names every difference between the state and the expectations, once and in order. */
  ghost predicate Judges(registers: seq<nat>, memory: seq<nat>, z: Arch, t: TestCase)
    requires |t.registers| == 31 && InSpace(DATA_ADDR, |t.expected|)
  {
    && Ascending(registers) && (forall i: nat :: i in registers <==> RegisterDiffers(z, t, i))
    && Ascending(memory) && (forall i: nat :: i in memory <==> WordDiffers(z, t, i))
  }

  lemma ClearedOne(regs: Regs, i: RegIndex)
    requires i > 0 && forall j :: 1 <= j < i ==> ReadReg(regs, j) == 0
    ensures forall j :: 1 <= j < i + 1 ==> ReadReg(WriteReg(regs, i, 0), j) == 0
  {
    forall j | 1 <= j < i + 1 ensures ReadReg(WriteReg(regs, i, 0), j) == 0 {
      assert j < i ==> ReadReg(regs, j) == 0;
    }
  }

  lemma AddFound(found: seq<nat>, i: nat)
    requires Ascending(found) && forall j :: j in found ==> j < i
    ensures Ascending(found + [i]) && forall j: nat :: j in found + [i] <==> j in found || j == i
  {
    forall k | 0 <= k < |found| ensures found[k] < i {
      assert found[k] in found;
    }
  }

  /**
   * A test reports nothing exactly when every register and word of the reference
   * machine at its jump-to-self is as expected, or that plus 0x4000_0000.
   */
  lemma PassesIff(a: Arch, m: nat, n: nat, report: Report, t: TestCase, base: Word, ram: Ram)
    requires |t.registers| == 31 && InSpace(0x4000_0000, |t.expected|)
    requires Steppable(a, base, ram) && Ends(a, n, Ok(report.steps))
    requires Judges(report.registers, report.memory, IsaSteps(a, n), t)
    requires m <= 1000 && Fetch(IsaSteps(a, m)) == 0x0000_006F
    ensures
      report.registers == [] && report.memory == [] <==>
      var final := IsaSteps(a, m);
      && (forall i :: 0 <= i < 31 ==>
            final.regs[i] == t.registers[i] || final.regs[i] == (t.registers[i] + 0x4000_0000) % 0x1_0000_0000)
      && (forall i :: 0 <= i < |t.expected| ==>
            var v := ReadWord(final.mem, 0x4000_0000 + 4 * i);
            v == t.expected[i] || v == (t.expected[i] + 0x4000_0000) % 0x1_0000_0000)
  {
    hide IsaSteps, Steppable, Fetch, ReadWord, Ascending;
    EndsAtSelfJump(a, n, m, base, ram);
    var final := IsaSteps(a, m);
    if report.registers != [] {
      assert RegisterDiffers(final, t, report.registers[0]);
    }
    if report.memory != [] {
      assert WordDiffers(final, t, report.memory[0]);
    }
    forall i | 0 <= i < 31 && report.registers == []
      ensures final.regs[i] == t.registers[i] || final.regs[i] == (t.registers[i] + 0x4000_0000) % 0x1_0000_0000
    {
      assert !RegisterDiffers(final, t, i + 1);
    }
    forall i | 0 <= i < |t.expected| && report.memory == []
      ensures
        var v := ReadWord(final.mem, 0x4000_0000 + 4 * i);
        v == t.expected[i] || v == (t.expected[i] + 0x4000_0000) % 0x1_0000_0000
    {
      assert !WordDiffers(final, t, i);
    }
  }

  /** What the memory holds when the test starts: data over program over zeros over what was there. */
  lemma LoadedState(m: Memory, t: TestCase, at: Word)
    requires InSpace(0x4000_1000, |t.program|) && InSpace(0x4000_0000, |t.memory|) && InSpace(0x4000_0000, |t.expected|)
    requires at % 4 == 0
    ensures
      var a := Loaded(m, t);
      && a.pc == 0x4000_1000 && (forall k :: 0 <= k < 31 ==> a.regs[k] == 0)
      && ReadWord(a.mem, at) ==
         if 0x4000_0000 <= at < 0x4000_0000 + 4 * |t.memory| then t.memory[(at - 0x4000_0000) / 4] % 0x1_0000_0000
         else if 0x4000_1000 <= at < 0x4000_1000 + 4 * |t.program| then t.program[(at - 0x4000_1000) / 4] % 0x1_0000_0000
         else if 0x4000_0000 <= at < 0x4000_0000 + 4 * |t.expected| then 0
         else ReadWord(m, at)
  {
    hide ReadWord, PutWords;
    var cleared := PutWords(m, DATA_ADDR, Cleared(|t.expected|));
    PutWordsRead(m, DATA_ADDR, Cleared(|t.expected|), at);
    PutWordsRead(cleared, BOOT, t.program, at);
    PutWordsRead(PutWords(cleared, BOOT, t.program), DATA_ADDR, t.memory, at);
  }

  /** A session that began at `start` with the worker in state `first`. */
  class TestSession {
    const client: WorkerInterface
    ghost const start: seq<Access>
    ghost const first: Arch
    ghost const ram: Ram

    constructor (client: WorkerInterface, ghost first: Arch, ghost ram: Ram)
      ensures this.client == client && start == client.log && this.first == first && this.ram == ram
      ensures StateIs(first)
    {
      this.client := client;
      this.start := client.log;
      this.first := first;
      this.ram := ram;
      new;
      ReachedStart(start, first, client.base, ram);
    }

    /** The worker answers as a board does. */
    ghost predicate Valid() {
      Base64K(client.base) && IsBoard(client.bus, start, first, client.base, ram)
    }

    /** The accesses so far have made the worker's state z. */
    ghost predicate StateIs(z: Arch)
      reads client
    {
      Reached(start, first, client.log, z, client.base, ram)
    }

    /** A call that is acknowledged. */
    method Tell(c: Call, ghost z: Arch) returns (r: Result<(), ClientError>)
      requires Valid() && StateIs(z) && Checked(c) && Meaning(c).Ok?
      requires Suits(Meaning(c).value, z, client.base, ram) && Reported(Meaning(c).value, z) == Ack
      modifies client`log
      ensures r == Ok(()) && StateIs(StateAfter(Meaning(c).value, z))
      ensures client.log == CarryOut(Meaning(c).value, client.base, client.bus, old(client.log)).log
    {
      hide IsBoard, Reached, Meaning, CarryOut, StateAfter, Suits;
      CommandActs(Meaning(c).value, client.bus, start, first, client.log, z, client.base, ram);
      r := client.SendAck(c);
    }

    /** A call that is answered by a number. */
    method Query(c: Call, ghost z: Arch) returns (r: Result<Word, ClientError>)
      requires Valid() && StateIs(z) && Checked(c) && Meaning(c).Ok?
      requires Suits(Meaning(c).value, z, client.base, ram) && Reported(Meaning(c).value, z).Number?
      modifies client`log
      ensures r == Ok(Reported(Meaning(c).value, z).value) && StateIs(StateAfter(Meaning(c).value, z))
      ensures
        CarryOut(Meaning(c).value, client.base, client.bus, old(client.log))
          == Done(Reported(Meaning(c).value, z), client.log)
    {
      hide IsBoard, Reached, Meaning, CarryOut, StateAfter, Suits;
      CommandActs(Meaning(c).value, client.bus, start, first, client.log, z, client.base, ram);
      r := client.SendU32(c);
    }

    method ClearRegisters(ghost z: Arch)
      requires Valid() && StateIs(z)
      modifies client`log
      ensures StateIs(z.(regs := ZERO_REGS))
    {
      hide IsBoard, Reached, StateIs, Valid;
      ghost var now := z;
      for i := 1 to 32
        invariant StateIs(now) && now == z.(regs := now.regs)
        invariant forall j :: 1 <= j < i ==> ReadReg(now.regs, j) == 0
      {
        var sent := Tell(CallSetReg(i, 0), now);
        ClearedOne(now.regs, i);
        now := StateAfter(SetReg(i, 0), now);
      }
      assert forall j :: 0 <= j < 31 ==> now.regs[j] == ReadReg(now.regs, j + 1);
      assert now.regs == ZERO_REGS;
    }

    method ClearMemory(n: nat, ghost z: Arch)
      requires Valid() && StateIs(z) && Fits(client.base, ram, DATA_ADDR, n)
      modifies client`log
      ensures StateIs(z.(mem := PutWords(z.mem, DATA_ADDR, Cleared(n))))
    {
      hide IsBoard, Reached, StateIs, Valid, WriteWord;
      for i := 0 to n
        invariant StateIs(z.(mem := PutWords(z.mem, DATA_ADDR, Cleared(i))))
      {
        ghost var now := z.(mem := PutWords(z.mem, DATA_ADDR, Cleared(i)));
        var sent := Tell(CallWriteWord(DATA_ADDR + 4 * i, 0), now);
        assert Cleared(i + 1)[..i] == Cleared(i);
      }
    }

    /** upload_words on this worker: the memory becomes the uploaded one. */
    method LoadWords(from: int, words: seq<int>, verify: bool, ghost z: Arch) returns (r: Result<(), ClientError>)
      requires Valid() && StateIs(z) && from % 4 == 0 && Fits(client.base, ram, from, |words|)
      modifies client`log
      ensures StateIs(z.(mem := PutWords(z.mem, from, words)))
      ensures r == if verify && exists i :: 0 <= i < |words| && !IsAddress(words[i]) then Err(VERIFY_FAILED) else Ok(())
    {
      hide IsBoard, Reached, PutWords, Writes, Reads, Faithful, Playable, HostState, Uploaded, Mapped;
      var base, bus := client.base, client.bus;
      ghost var before := client.log;
      BoardLater(bus, start, first, before, z, base, ram);
      BoardIsFaithful(bus, before, z, from, |words|, base, ram);
      r := client.UploadWords(from, words, verify, MemoryWords(z));
      WritesPut(z, from, words, base, ram);
      ReachedMore(start, first, before, z, Writes(from, words), base, ram);
      ghost var written, now := before + Writes(from, words), z.(mem := PutWords(z.mem, from, words));
      ghost var read: nat :| read <= |words| && client.log == written + Reads(bus, written, from, read);
      ReadsInside(bus, written, from, read, |words|, base, ram);
      ReadsPlay(now, Reads(bus, written, from, read), base, ram);
      ReachedMore(start, first, written, now, Reads(bus, written, from, read), base, ram);
    }

    /** The stepping loop: up to the first jump-to-self, or the step limit. */
    method StepToSelfJump(ghost z: Arch) returns (r: Result<nat, ClientError>, ghost more: seq<Access>)
      requires Valid() && StateIs(z) && Steppable(z, client.base, ram)
      modifies client`log
      ensures client.log == old(client.log) + more && OnlySteps(more, client.base)
      ensures StateIs(IsaSteps(z, StepCount(more))) && Ends(z, StepCount(more), r) && StepCount(more) <= 1000
    {
      hide IsaSteps, ReadWord, BusAddress, ControlRegAddr, StepCount, IsBoard, Reached, StateIs, Valid, Defined, IsaStep;
      more := [];
      NoSteps();
      NoStep(z);
      for i := 0 to STEP_LIMIT
        invariant client.log == old(client.log) + more && OnlySteps(more, client.base) && StepCount(more) == i
        invariant StateIs(IsaSteps(z, i)) && forall k :: 0 <= k < i ==> Proceeds(z, k)
      {
        ghost var now := IsaSteps(z, i);
        assert Arrives(z, i);
        var pc := Query(CallGetPc, now);
        StepCountSnoc(more, In(PcAddress(client.base), now.pc));
        more := more + [In(PcAddress(client.base), now.pc)];
        assert client.log == old(client.log) + more;
        if pc.value % 4 != 0 {
          return Err(BAD_ARGUMENT), more;
        }
        var instr := Query(CallReadWord(pc.value), now);
        StepCountSnoc(more, In(now.pc, instr.value));
        more := more + [In(now.pc, instr.value)];
        if instr.value == SELF_JUMP {
          return Ok(i), more;
        }
        var sent := Tell(CallStep, now);
        OneMoreStep(z, i);
        StepCountSnoc(more, Out(StepAddress(client.base), 1));
        more := more + [Out(StepAddress(client.base), 1)];
      }
      r := Ok(STEP_LIMIT);
    }

    method CompareRegisters(t: TestCase, ghost z: Arch) returns (found: seq<nat>)
      requires Valid() && StateIs(z) && |t.registers| == 31
      modifies client`log
      ensures StateIs(z)
      ensures Ascending(found) && forall i: nat :: i in found <==> RegisterDiffers(z, t, i)
    {
      hide IsBoard, Reached, StateIs, Valid;
      found := [];
      for i := 1 to 32
        invariant StateIs(z)
        invariant Ascending(found) && forall j: nat :: j in found <==> j < i && RegisterDiffers(z, t, j)
      {
        var actual := Query(CallGetReg(i), z);
        if !Accepts(actual.value, t.registers[i - 1]) {
          AddFound(found, i);
          found := found + [i];
        }
      }
    }

    method CompareMemory(t: TestCase, ghost z: Arch) returns (found: seq<nat>)
      requires Valid() && StateIs(z) && Fits(client.base, ram, DATA_ADDR, |t.expected|)
      modifies client`log
      ensures StateIs(z)
      ensures Ascending(found) && forall i: nat :: i in found <==> WordDiffers(z, t, i)
    {
      hide IsBoard, Reached, StateIs, Valid, ReadWord;
      found := [];
      for i := 0 to |t.expected|
        invariant StateIs(z)
        invariant Ascending(found) && forall j: nat :: j in found <==> j < i && WordDiffers(z, t, j)
      {
        var actual := Query(CallReadWord(DATA_ADDR + 4 * i), z);
        if !Accepts(actual.value, t.expected[i]) {
          AddFound(found, i);
          found := found + [i];
        }
      }
    }

    /**
     * execute_test_case: the worker runs the loaded program as the reference machine
     * does, and the report names exactly where its final state is not as expected.
     */
    method ExecuteTestCase(t: TestCase, ghost z: Arch) returns (r: Result<Report, TestError>, ghost n: nat)
      requires Valid() && StateIs(z) && Placed(t, client.base, ram) && Steppable(Loaded(z.mem, t), client.base, ram)
      modifies client`log
      ensures |t.registers| != 31 ==> r == Err(BAD_CASE) && StateIs(z)
      ensures |t.registers| == 31 ==>
        var loaded := Loaded(z.mem, t);
        var last := IsaSteps(loaded, n);
        && StateIs(last) && n <= 1000
        && match r
           case Ok(report) => Ends(loaded, n, Ok(report.steps)) && Judges(report.registers, report.memory, last, t)
           case Err(e) => e.CLIENT? && Ends(loaded, n, Err(e.error))
    {
      hide IsBoard, Reached, StateIs, Valid, PutWords, IsaSteps, Steppable, Ends, Ascending;
      n := 0;
      var sent := Tell(CallStop, z);
      if |t.registers| != 31 {
        return Err(BAD_CASE), n;
      }
      ghost var now := z.(regs := ZERO_REGS);
      ClearRegisters(z);
      ClearMemory(|t.expected|, now);
      now := now.(mem := PutWords(now.mem, DATA_ADDR, Cleared(|t.expected|)));
      sent := LoadWords(BOOT, t.program, false, now);
      now := now.(mem := PutWords(now.mem, BOOT, t.program));
      sent := LoadWords(DATA_ADDR, t.memory, false, now);
      now := now.(mem := PutWords(now.mem, DATA_ADDR, t.memory));
      sent := Tell(CallStop, now);
      sent := Tell(CallSetPc(BOOT), now);
      now := now.(pc := BOOT);
      var steps;
      ghost var more;
      steps, more := StepToSelfJump(now);
      n := StepCount(more);
      if steps.Err? {
        return Err(CLIENT(steps.error)), n;
      }
      var registers := CompareRegisters(t, IsaSteps(now, n));
      var memory := CompareMemory(t, IsaSteps(now, n));
      r := Ok(Report(steps.value, registers, memory));
    }
  }

  // ----- On the chip -----

  /** A test case on the chip itself, from any ready state and with any memory contents. */
  method TestChip(
      client: WorkerInterface, t: TestCase, ghost x: Chip, ghost ram: Ram, ghost env: Environment, ghost limit: nat)
    returns (r: Result<Report, TestError>, ghost y: Chip, ghost n: nat)
    requires Base64K(client.base) && Ready(x) && Serves(env, client.base, limit)
    requires IsChip(client.bus, client.log, x, client.base, ram, env)
    requires Placed(t, client.base, ram) && Steppable(Loaded(x.sys.slave.mem, t), client.base, ram)
    modifies client`log
    ensures old(client.log) <= client.log && y == ChipAfter(x, client.log[|old(client.log)|..], client.base, env)
    ensures Ready(y)
    ensures |t.registers| != 31 ==> r == Err(BAD_CASE) && Abs(y.sys) == Abs(x.sys)
    ensures |t.registers| == 31 ==>
      var loaded := Loaded(x.sys.slave.mem, t);
      && Abs(y.sys) == IsaSteps(loaded, n) && n <= 1000
      && match r
         case Ok(report) => Ends(loaded, n, Ok(report.steps)) && Judges(report.registers, report.memory, Abs(y.sys), t)
         case Err(e) => e.CLIENT? && Ends(loaded, n, Err(e.error))
  {
    hide IsBoard, Reached, Ready, Serves, IsChip, ChipAfter, Abs, IsaSteps, Steppable, Judges, PutWords;
    ghost var a, start := Abs(x.sys), client.log;
    SameMemory(x);
    ChipIsBoard(client.bus, client.log, x, client.base, ram, env, limit);
    var session := new TestSession(client, a, ram);
    r, n := session.ExecuteTestCase(t, a);
    ghost var last := if |t.registers| == 31 then IsaSteps(Loaded(a.mem, t), n) else a;
    ChipReached(start, x, client.log, last, client.base, ram, env, limit);
    y := ChipAfter(x, client.log[|start|..], client.base, env);
  }

  /** There is such a session: out of reset, with any memory, base and delays of the master. */
  lemma SomeSession(m: Memory, base: Word, ram: Ram, d: Delays)
    ensures exists bus: Bus :: IsBoard(bus, [], Arch(BOOT_ADDR, ZERO_REGS, m), base, ram)
  {
    hide Ready, IsBoard, IsChip, Serves, Abs;
    var x := Chip(RESET_CM, ResetSys(m));
    ResetIsReady(m);
    SomeWorker(m, base, ram, d);
    var bus: Bus, env: Environment :| IsChip(bus, [], x, base, ram, env) && Serves(env, base, 0);
    ChipIsBoard(bus, [], x, base, ram, env, 0);
  }
}
