/**
 * The chip as the host sees it: an architectural state that each access reads or
 * changes at once, however many clocks the access takes.
 */
module Board {
  import opened Words
  import opened Isa
  import opened ByteLanes
  import opened Refinement
  import opened Handshakes
  import opened SocControl
  import opened Transactions
  import opened CmAndCore
  import opened Console
  import opened Session
  import opened Upload

  // ----- Accesses one after the other -----

  /** What an access of the host does to the state; START is not among these. */
  ghost function HostEffect(a: Arch, q: Ask, base: Word): Arch {
    match q
    case AskRead(_) => a
    case AskWrite(addr, value) =>
      if !InWindow(base, addr) then a.(mem := WriteWord(a.mem, addr, value, 15))
      else if addr % 0x1_0000 == ControlAddress(CTRL_REG_STEP) then IsaStep(a)
      else WriteEffect(a, addr % 0x1_0000, value)
  }

  /** At an address of the chip's, and neither a START nor a STEP over an undefined instruction. */
  ghost predicate Allowed(a: Arch, q: Ask, base: Word, ram: Ram) {
    Mapped(base, ram, q.addr) &&
    (q.AskWrite? && InWindow(base, q.addr) ==>
      && q.addr % 0x1_0000 != ControlAddress(CTRL_REG_START)
      && (q.addr % 0x1_0000 == ControlAddress(CTRL_REG_STEP) ==> Defined(a)))
  }

  ghost function HostState(a: Arch, more: seq<Access>, base: Word): Arch
    decreases |more|
  {
    hide HostEffect;
    if more == [] then a
    else HostEffect(HostState(a, more[..|more| - 1], base), AskOf(more[|more| - 1]), base)
  }

  ghost predicate Playable(a: Arch, more: seq<Access>, base: Word, ram: Ram)
    decreases |more|
  {
    hide Allowed, HostState;
    more == [] ||
    (&& Playable(a, more[..|more| - 1], base, ram)
     && Allowed(HostState(a, more[..|more| - 1], base), AskOf(more[|more| - 1]), base, ram))
  }

  lemma HostSnoc(a: Arch, more: seq<Access>, x: Access, base: Word, ram: Ram)
    ensures HostState(a, more + [x], base) == HostEffect(HostState(a, more, base), AskOf(x), base)
    ensures Playable(a, more + [x], base, ram) <==>
      Playable(a, more, base, ram) && Allowed(HostState(a, more, base), AskOf(x), base, ram)
  {
    hide HostEffect, Allowed;
    assert (more + [x])[..|more|] == more;
  }

  lemma HostNothing(a: Arch, base: Word, ram: Ram)
    ensures HostState(a, [], base) == a && Playable(a, [], base, ram)
  {
  }

  lemma {:induction false} HostAppend(a: Arch, p: seq<Access>, q: seq<Access>, base: Word, ram: Ram)
    ensures HostState(a, p + q, base) == HostState(HostState(a, p, base), q, base)
    ensures Playable(a, p + q, base, ram) <==> Playable(a, p, base, ram) && Playable(HostState(a, p, base), q, base, ram)
    decreases |q|
  {
    hide HostEffect, Allowed, HostState, Playable;
    if q == [] {
      assert p + q == p;
      HostNothing(HostState(a, p, base), base, ram);
    } else {
      var m, x := |q| - 1, q[|q| - 1];
      assert q == q[..m] + [x] && p + q == (p + q[..m]) + [x];
      HostAppend(a, p, q[..m], base, ram);
      HostSnoc(a, p + q[..m], x, base, ram);
      HostSnoc(HostState(a, p, base), q[..m], x, base, ram);
    }
  }

  lemma {:induction false} PlayableMapped(a: Arch, more: seq<Access>, base: Word, ram: Ram)
    requires Playable(a, more, base, ram)
    ensures AllMapped(more, base, ram)
    decreases |more|
  {
    hide HostState, Mapped;
    if more != [] {
      PlayableMapped(a, more[..|more| - 1], base, ram);
    }
  }

  // ----- What reads show -----

  /** v is a right answer to a read of `addr`: a word of memory, the pc, or a register. */
  ghost predicate Displays(a: Arch, addr: Word, base: Word, v: Word) {
    && (!InWindow(base, addr) ==> v == ReadWord(a.mem, addr))
    && (InWindow(base, addr) && addr % 0x1_0000 == ControlAddress(CTRL_REG_PC) ==> v == a.pc)
    && (forall r: RegIndex :: InWindow(base, addr) && addr % 0x1_0000 == RegisterAddress(r) ==> v == ReadReg(a.regs, r))
  }

  /** From `start` and `a` on, every read the host makes is answered from the state its accesses have made. */
  ghost predicate IsBoard(bus: Bus, start: seq<Access>, a: Arch, base: Word, ram: Ram) {
    forall more: seq<Access>, addr: Word ::
      Playable(a, more, base, ram) && Mapped(base, ram, addr) ==>
        Displays(HostState(a, more, base), addr, base, bus(start + more, addr))
  }

  /** Accesses have led from a to z. */
  ghost predicate Reached(start: seq<Access>, a: Arch, log: seq<Access>, z: Arch, base: Word, ram: Ram) {
    exists more :: log == start + more && Playable(a, more, base, ram) && HostState(a, more, base) == z
  }

  lemma ReachedStart(start: seq<Access>, a: Arch, base: Word, ram: Ram)
    ensures Reached(start, a, start, a, base, ram)
  {
    HostNothing(a, base, ram);
    assert start == start + [];
  }

  lemma ReachedMore(start: seq<Access>, a: Arch, log: seq<Access>, z: Arch, more: seq<Access>, base: Word, ram: Ram)
    requires Reached(start, a, log, z, base, ram) && Playable(z, more, base, ram)
    ensures Reached(start, a, log + more, HostState(z, more, base), base, ram)
  {
    hide HostState, Playable;
    var before :| log == start + before && Playable(a, before, base, ram) && HostState(a, before, base) == z;
    HostAppend(a, before, more, base, ram);
    assert log + more == start + (before + more);
  }

  lemma ReachedOne(start: seq<Access>, a: Arch, log: seq<Access>, z: Arch, x: Access, base: Word, ram: Ram)
    requires Reached(start, a, log, z, base, ram) && Allowed(z, AskOf(x), base, ram)
    ensures Reached(start, a, log + [x], HostEffect(z, AskOf(x), base), base, ram)
  {
    hide HostState, Playable, HostEffect, Allowed, Reached;
    HostNothing(z, base, ram);
    HostSnoc(z, [], x, base, ram);
    assert [] + [x] == [x];
    ReachedMore(start, a, log, z, [x], base, ram);
  }

  lemma ReadShows(bus: Bus, start: seq<Access>, a: Arch, log: seq<Access>, z: Arch, base: Word, ram: Ram, addr: Word)
    requires IsBoard(bus, start, a, base, ram) && Reached(start, a, log, z, base, ram) && Mapped(base, ram, addr)
    ensures Displays(z, addr, base, bus(log, addr))
  {
    hide HostState, Playable, Displays, Mapped;
  }

  lemma BoardLater(bus: Bus, start: seq<Access>, a: Arch, log: seq<Access>, z: Arch, base: Word, ram: Ram)
    requires IsBoard(bus, start, a, base, ram) && Reached(start, a, log, z, base, ram)
    ensures IsBoard(bus, log, z, base, ram)
  {
    hide HostState, Playable, Displays, Mapped;
    var before :| log == start + before && Playable(a, before, base, ram) && HostState(a, before, base) == z;
    forall more: seq<Access>, addr: Word | Playable(z, more, base, ram) && Mapped(base, ram, addr)
      ensures Displays(HostState(z, more, base), addr, base, bus(log + more, addr))
    {
      HostAppend(a, before, more, base, ram);
      assert log + more == start + (before + more);
    }
  }

  // ----- The chip is such a board -----

  lemma OneAccess(x: Chip, more: seq<Access>, base: Word, env: Environment)
    requires more != []
    ensures
      var m := |more| - 1;
      var y, q := ChipAfter(x, more[..m], base, env), AskOf(more[m]);
      ChipAfter(x, more, base, env) == Accessed(y, q, base, env(more[..m], y, q))
  {
    hide Accessed;
  }

  lemma NoAccess(x: Chip, base: Word, env: Environment)
    ensures ChipAfter(x, [], base, env) == x
  {
  }

  /** One access to a ready chip, handshakes, delays and all, is one access to the board. */
  lemma ChipAccess(x: Chip, q: Ask, base: Word, ram: Ram, c: Conduct, limit: nat)
    requires Ready(x) && Served(x, q, base, c, limit) && Allowed(Abs(x.sys), q, base, ram)
    ensures Ready(Accessed(x, q, base, c))
    ensures Abs(Accessed(x, q, base, c).sys) == HostEffect(Abs(x.sys), q, base)
  {
    hide Ready, Served, Abs, Carried, Deposit, IsaStep, Defined, WriteEffect, WriteWord;
    if q.AskRead? || !InWindow(base, q.addr) {
      ReadChangesNothing(x, q, base, c, limit);
      if q.AskWrite? {
        DepositChanges(Carried(x, q, base, c), q.addr, q.value);
      }
    } else if q.addr % 0x1_0000 == ControlAddress(CTRL_REG_STEP) {
      StepAccess(x, q, base, c, limit);
    } else {
      WriteAccess(x, q, base, c, limit);
    }
  }

  lemma {:induction false} ChipObeys(x: Chip, more: seq<Access>, base: Word, ram: Ram, env: Environment, limit: nat)
    requires Ready(x) && Serves(env, base, limit) && Playable(Abs(x.sys), more, base, ram)
    ensures Ready(ChipAfter(x, more, base, env))
    ensures Abs(ChipAfter(x, more, base, env).sys) == HostState(Abs(x.sys), more, base)
    decreases |more|
  {
    hide Ready, Served, ChipAfter, Abs, HostState, Playable, HostEffect, Allowed, Accessed;
    if more == [] {
      NoAccess(x, base, env);
      HostNothing(Abs(x.sys), base, ram);
    } else {
      var m := |more| - 1;
      assert more == more[..m] + [more[m]];
      HostSnoc(Abs(x.sys), more[..m], more[m], base, ram);
      ChipObeys(x, more[..m], base, ram, env, limit);
      OneAccess(x, more, base, env);
      var y, q := ChipAfter(x, more[..m], base, env), AskOf(more[m]);
      assert Served(y, q, base, env(more[..m], y, q), limit);
      ChipAccess(y, q, base, ram, env(more[..m], y, q), limit);
    }
  }

  lemma ChipAnswers(x: Chip, addr: Word, base: Word, c: Conduct, limit: nat)
    requires Ready(x) && Served(x, AskRead(addr), base, c, limit)
    ensures Displays(Abs(x.sys), addr, base, Answer(x, addr, base, c))
  {
    hide Ready, Served, ReadReg, Boundary, SysInv, Readable, Abs;
    if InWindow(base, addr) {
      var x1, i := WindowAnswer(x, addr, base, c, limit);
      hide Answer;
      ParkedPc(x1);
    } else {
      SameMemory(x);
    }
  }

  lemma SameMemory(x: Chip)
    ensures Abs(x.sys).mem == x.sys.slave.mem
  {
  }

  /** The bus that is the chip answers as the board does. */
  lemma ChipIsBoard(bus: Bus, start: seq<Access>, x: Chip, base: Word, ram: Ram, env: Environment, limit: nat)
    requires Ready(x) && Serves(env, base, limit) && IsChip(bus, start, x, base, ram, env)
    ensures IsBoard(bus, start, Abs(x.sys), base, ram)
  {
    hide Ready, Served, ChipAfter, Abs, HostState, Playable, Displays, Answer, Mapped, AllMapped;
    forall more: seq<Access>, addr: Word | Playable(Abs(x.sys), more, base, ram) && Mapped(base, ram, addr)
      ensures Displays(HostState(Abs(x.sys), more, base), addr, base, bus(start + more, addr))
    {
      var y, q := ChipAfter(x, more, base, env), AskRead(addr);
      PlayableMapped(Abs(x.sys), more, base, ram);
      ChipObeys(x, more, base, ram, env, limit);
      assert Served(y, q, base, env(more, y, q), limit);
      ChipAnswers(y, addr, base, env(more, y, q), limit);
    }
  }

  /** What the host has reached on its bus, the chip has reached in its registers and memory. */
  lemma ChipReached(
      start: seq<Access>, x: Chip, log: seq<Access>, z: Arch, base: Word, ram: Ram, env: Environment, limit: nat)
    requires Ready(x) && Serves(env, base, limit) && Reached(start, Abs(x.sys), log, z, base, ram)
    ensures start <= log
    ensures
      var y := ChipAfter(x, log[|start|..], base, env);
      Ready(y) && Abs(y.sys) == z
  {
    hide Ready, Serves, ChipAfter, Abs, HostState, Playable;
    var more :| log == start + more && Playable(Abs(x.sys), more, base, ram) && HostState(Abs(x.sys), more, base) == z;
    assert log[|start|..] == more;
    ChipObeys(x, more, base, ram, env, limit);
  }

  // ----- Words written from the host -----

  function PutWords(m: Memory, base: int, words: seq<int>): Memory
    requires InSpace(base, |words|)
    decreases |words|
  {
    if words == [] then m
    else
      var n := |words| - 1;
      WriteWord(PutWords(m, base, words[..n]), base + 4 * n, words[n] % 0x1_0000_0000, 15)
  }

  /** n words from `from` on lie in the memory, none of them behind the control module's window. */
  predicate Fits(base: Word, ram: Ram, from: int, n: nat) {
    && InSpace(from, n)
    && (n == 0 ||
        (&& ram.from <= from && from + 4 * n <= ram.from + ram.size
         && (from + 4 * n <= base || base + 0x1_0000 <= from)))
  }

  lemma ReadAfterWrite(m: Memory, addr: Word, value: Word, at: Word)
    requires addr % 4 == 0 && at % 4 == 0
    ensures ReadWord(WriteWord(m, addr, value, 15), at) == if at == addr then value else ReadWord(m, at)
  {
    hide ToLanes, FromLanes, PutLanes, LanesAt, Base;
    WordRoundTrip(value);
    AlignedApart(addr, at);
    LanesAfter(m, addr, ToLanes(value), at);
  }

  lemma AlignedApart(a: Word, b: Word)
    requires a % 4 == 0 && b % 4 == 0
    ensures Base(a) == a && Base(b) == b && (b == a || b >= a + 4 || b + 4 <= a)
  {
  }

  lemma LanesAfter(m: Memory, b: int, l: Lanes, b': int)
    requires b' == b || b' >= b + 4 || b' + 4 <= b
    ensures LanesAt(PutLanes(m, b, l, 15), b') == if b' == b then l else LanesAt(m, b')
  {
  }

  /** Word i reads back at base + 4i, and every other aligned word is as before. */
  lemma {:induction false} PutWordsRead(m: Memory, base: int, words: seq<int>, at: Word)
    requires InSpace(base, |words|) && base % 4 == 0 && at % 4 == 0
    ensures
      ReadWord(PutWords(m, base, words), at) ==
      if base <= at < base + 4 * |words| then words[(at - base) / 4] % 0x1_0000_0000 else ReadWord(m, at)
    decreases |words|
  {
    hide ReadWord, WriteWord;
    if words != [] {
      var n := |words| - 1;
      PutWordsRead(m, base, words[..n], at);
      ReadAfterWrite(PutWords(m, base, words[..n]), base + 4 * n, words[n] % 0x1_0000_0000, at);
    }
  }

  /** The writes of an upload are allowed, and make the memory the uploaded one. */
  lemma {:induction false} WritesPut(a: Arch, from: int, words: seq<int>, base: Word, ram: Ram)
    requires Fits(base, ram, from, |words|)
    ensures Playable(a, Writes(from, words), base, ram)
    ensures HostState(a, Writes(from, words), base) == a.(mem := PutWords(a.mem, from, words))
    decreases |words|
  {
    hide WriteWord, HostState, Playable;
    if words == [] {
      HostNothing(a, base, ram);
    } else {
      var n := |words| - 1;
      WritesPut(a, from, words[..n], base, ram);
      HostSnoc(a, Writes(from, words[..n]), Out(from + 4 * n, words[n] % 0x1_0000_0000), base, ram);
    }
  }

  lemma {:induction false} ReadsPlay(a: Arch, more: seq<Access>, base: Word, ram: Ram)
    requires AllMapped(more, base, ram) && forall k :: 0 <= k < |more| ==> more[k].In?
    ensures Playable(a, more, base, ram) && HostState(a, more, base) == a
    decreases |more|
  {
    hide HostState, Playable;
    if more == [] {
      HostNothing(a, base, ram);
    } else {
      var m := |more| - 1;
      assert more == more[..m] + [more[m]];
      ReadsPlay(a, more[..m], base, ram);
      HostSnoc(a, more[..m], more[m], base, ram);
    }
  }

  lemma {:induction false} ReadsInside(
      bus: Bus, log: seq<Access>, from: int, k: nat, n: nat, base: Word, ram: Ram)
    requires Fits(base, ram, from, n) && InSpace(from, k) && k <= n
    ensures AllMapped(Reads(bus, log, from, k), base, ram)
    ensures forall j :: 0 <= j < |Reads(bus, log, from, k)| ==> Reads(bus, log, from, k)[j].In?
    decreases k
  {
    if k > 0 {
      ReadsInside(bus, log, from, k - 1, n, base, ram);
    }
  }

  // ----- A board is a faithful memory for an upload -----

  function MemoryWords(a: Arch): Word -> Word {
    addr => ReadWord(a.mem, addr)
  }

  lemma {:induction false} WordsFollow(a: Arch, more: seq<Access>, from: int, n: nat, base: Word, ram: Ram, at: Word)
    requires from % 4 == 0 && Fits(base, ram, from, n) && StaysIn(more, from, n) && WordIn(at, from, n)
    ensures Playable(a, more, base, ram)
    ensures ReadWord(HostState(a, more, base).mem, at) == Latest(more, at, MemoryWords(a))
    decreases |more|
  {
    hide HostState, Playable, ReadWord, WriteWord, WordIn, Fits, InWindow, Mapped;
    if more == [] {
      HostNothing(a, base, ram);
    } else {
      var m, x := |more| - 1, more[|more| - 1];
      assert more == more[..m] + [x];
      WordAligned(x.addr, from, n, base, ram);
      WordsFollow(a, more[..m], from, n, base, ram, at);
      HostSnoc(a, more[..m], x, base, ram);
      if x.Out? {
        WordAligned(at, from, n, base, ram);
        ReadAfterWrite(HostState(a, more[..m], base).mem, x.addr, x.value, at);
      }
    }
  }

  lemma WordAligned(at: Word, from: int, n: nat, base: Word, ram: Ram)
    requires from % 4 == 0 && Fits(base, ram, from, n) && WordIn(at, from, n)
    ensures at % 4 == 0 && !InWindow(base, at) && Mapped(base, ram, at)
  {
  }

  lemma BoardIsFaithful(bus: Bus, log: seq<Access>, a: Arch, from: int, n: nat, base: Word, ram: Ram)
    requires IsBoard(bus, log, a, base, ram) && from % 4 == 0 && Fits(base, ram, from, n)
    ensures Faithful(bus, log, MemoryWords(a), from, n)
  {
    hide HostState, Playable, ReadWord, Latest, MemoryWords, Fits, WordIn, Mapped, InWindow;
    forall more: seq<Access>, at: Word | StaysIn(more, from, n) && WordIn(at, from, n)
      ensures bus(log + more, at) == Latest(more, at, MemoryWords(a))
    {
      WordAligned(at, from, n, base, ram);
      WordsFollow(a, more, from, n, base, ram, at);
    }
  }
}
