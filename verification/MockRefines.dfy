/**
 * The mock memory behaves as a slave of Machine, so everything proved of the core
 * against an arbitrary memory holds on the test bench.
 */
module MockRefines {
  import opened Wrappers
  import opened Words
  import opened Isa
  import opened ByteLanes
  import opened Arbiter
  import opened Machine
  import opened Handshakes
  import opened MockMemory

  // ----- Word arrays and byte memory -----

  /** The array holds the words of m from `base` on. */
  ghost predicate Holds(h: Half, m: Memory, base: int) {
    forall j :: 0 <= j < MEMORY_NUM_WORDS ==> h[j] == LanesAt(m, base + 4 * j)
  }

  function BaseOf(selector: bool): int {
    if selector then 0x1000 else 0
  }

  lemma LanesAfterPut(m: Memory, b: int, l: Lanes, s: Strobe, b': int)
    requires b' == b || b' >= b + 4 || b' + 4 <= b
    ensures LanesAt(PutLanes(m, b, l, s), b') == if b' == b then Merge(LanesAt(m, b), l, s) else LanesAt(m, b')
  {
  }

  lemma HoldsAfterPut(h: Half, m: Memory, base: int, k: Index, l: Lanes, s: Strobe)
    requires Holds(h, m, base)
    ensures Holds(Update(h, k, l, s), PutLanes(m, base + 4 * k, l, s), base)
  {
    hide LanesAt, PutLanes, Merge;
    forall j | 0 <= j < MEMORY_NUM_WORDS
      ensures Update(h, k, l, s)[j] == LanesAt(PutLanes(m, base + 4 * k, l, s), base + 4 * j)
    {
      LanesAfterPut(m, base + 4 * k, l, s, base + 4 * j);
    }
  }

  lemma HoldsElsewhere(h: Half, m: Memory, base: int, b: int, l: Lanes, s: Strobe)
    requires Holds(h, m, base) && (b + 4 <= base || b >= base + 0x1000)
    ensures Holds(h, PutLanes(m, b, l, s), base)
  {
    hide LanesAt, PutLanes;
    forall j | 0 <= j < MEMORY_NUM_WORDS
      ensures h[j] == LanesAt(PutLanes(m, b, l, s), base + 4 * j)
    {
      LanesAfterPut(m, b, l, s, base + 4 * j);
    }
  }

  /** The mock looks at thirteen address bits. */
  function Alias(a: Word): Word {
    a % 0x2000
  }

  lemma WordOf(a: int)
    ensures a / 0x1000 == a / 4 / 0x400 && a % 0x2000 == a / 4 % 0x800 * 4 + a % 4
  {
    var q, off := a / 4, a % 4;
    Nested(a, q, off, q / 0x400, q % 0x400, 0x400);
    Nested(a, q, off, q / 0x800, q % 0x800, 0x800);
  }

  lemma Nested(a: int, q: int, off: int, t: int, u: int, p: int)
    requires p == 0x400 || p == 0x800
    requires a == 4 * q + off && 0 <= off < 4 && q == p * t + u && 0 <= u < p
    ensures a / (4 * p) == t && a % (4 * p) == 4 * u + off
  {
    QuotientUnique(a, t, 4 * u + off, 4 * p);
  }

  lemma HalfOf(q: int)
    ensures q % 0x800 == q / 0x400 % 2 * 0x400 + q % 0x400
  {
    var t := q / 0x400;
    assert q == (t / 2) * 0x800 + (t % 2 * 0x400 + q % 0x400);
    QuotientUnique(q, t / 2, t % 2 * 0x400 + q % 0x400, 0x800);
  }

  lemma InWord(k: int, off: int)
    requires 0 <= off < 4
    ensures (4 * k + off) / 4 == k && (4 * k + off) % 4 == off
  {
  }

  lemma AliasParts(a: Word)
    ensures Base(Alias(a)) == BaseOf(Selector(a)) + 4 * IndexOf(a)
    ensures Selector(Alias(a)) == Selector(a) && IndexOf(Alias(a)) == IndexOf(a)
  {
    var q := a / 4;
    var half, k := q / 0x400 % 2, q % 0x400;
    WordOf(a);
    HalfOf(q);
    PartsOf(Alias(a), half, k, a % 4);
  }

  lemma PartsOf(r: Word, half: int, k: int, off: int)
    requires 0 <= half < 2 && 0 <= k < 0x400 && 0 <= off < 4 && r == 4 * (half * 0x400 + k) + off
    ensures Base(r) == half * 0x1000 + 4 * k && r / 4 % 1024 == k && r / 0x1000 == half
  {
    InWord(half * 0x400 + k, off);
    WordOf(r);
  }

  // ----- One clock -----

  predicate FlagsMatch(k: MockRegs, s: Slave) {
    && !(k.arready && k.rvalid)
    && (s.reading.Some? <==> k.rvalid)
    && Count(k.awready) + Count(k.wready) + Count(k.bvalid) == 1
    && (s.writeAddr.Some? <==> !k.awready)
    && (s.writeBeat.Some? <==> k.bvalid) && (s.committed <==> k.bvalid)
    && (k.wready ==> IndexOf(s.writeAddr.value) == k.latched)
  }

  ghost predicate DataMatch(k: MockRegs, s: Slave) {
    && Holds(k.dData, s.mem, BaseOf(false)) && Holds(k.iData, s.mem, BaseOf(true))
    && (k.rvalid && s.reading.Some? ==> k.rdata == ReadWord(s.mem, s.reading.value))
  }

  ghost predicate Simulates(k: MockRegs, s: Slave) {
    FlagsMatch(k, s) && DataMatch(k, s)
  }

  /** The mock's handshake lines as moves of a slave that writes with the data handshake. */
  function MovesOf(k: MockRegs): Moves {
    Moves(k.arready, k.rvalid, k.awready, k.wready, k.bvalid, true)
  }

  function Aliased(b: ToSlave): ToSlave {
    b.(araddr := Alias(b.araddr), awaddr := Alias(b.awaddr))
  }

  lemma FlagsStep(k: MockRegs, s: Slave, b: ToSlave, m: Memory)
    requires FlagsMatch(k, s)
    ensures SlaveLegal(s, MovesOf(k)) && FlagsMatch(MockNext(k, b), SlaveStep(s, Aliased(b), MovesOf(k), m))
    ensures Performs(s, Aliased(b), MovesOf(k)) <==> b.wvalid && k.wready
  {
    hide Merge, Update, ToLanes, FromLanes, Selector, Alias, IndexOf;
    AliasParts(b.awaddr);
  }

  lemma ReadStep(k: MockRegs, s: Slave, b: ToSlave)
    requires Simulates(k, s) && b.arvalid && k.arready
    ensures MockNext(k, b).rdata == ReadWord(s.mem, Alias(b.araddr))
  {
    hide Merge, Update, ToLanes, FromLanes, LanesAt, Alias, IndexOf, Base;
    AliasParts(b.araddr);
    var j: int := IndexOf(b.araddr);
    assert k.iData[j] == LanesAt(s.mem, 0x1000 + 4 * j) && k.dData[j] == LanesAt(s.mem, 0 + 4 * j);
  }

  /** What the abstract slave holds after a data clock, word by word. */
  lemma StoredHalves(k: MockRegs, s: Slave, b: ToSlave)
    requires Simulates(k, s) && b.wvalid && k.wready && Alias(s.writeAddr.value) == s.writeAddr.value
    ensures
      var m, l := MemNext(s, Aliased(b), MovesOf(k)), ToLanes(b.wdata);
      if Selector(s.writeAddr.value) then
        Holds(Update(k.iData, k.latched, l, b.wstrb), m, BaseOf(true)) && Holds(k.dData, m, BaseOf(false))
      else
        Holds(Update(k.dData, k.latched, l, b.wstrb), m, BaseOf(false)) && Holds(k.iData, m, BaseOf(true))
  {
    hide Merge, Update, ToLanes, LanesAt, PutLanes, Selector, Alias, IndexOf, Base, Holds;
    var addr := s.writeAddr.value;
    var l, at := ToLanes(b.wdata), BaseOf(Selector(addr)) + 4 * k.latched;
    AliasParts(addr);
    assert MemNext(s, Aliased(b), MovesOf(k)) == PutLanes(s.mem, at, l, b.wstrb);
    if Selector(addr) {
      HoldsAfterPut(k.iData, s.mem, BaseOf(true), k.latched, l, b.wstrb);
      HoldsElsewhere(k.dData, s.mem, BaseOf(false), at, l, b.wstrb);
    } else {
      HoldsAfterPut(k.dData, s.mem, BaseOf(false), k.latched, l, b.wstrb);
      HoldsElsewhere(k.iData, s.mem, BaseOf(true), at, l, b.wstrb);
    }
  }

  /** A data handshake writes the word its address handshake named. */
  lemma WriteStep(k: MockRegs, s: Slave, b: ToSlave)
    requires Simulates(k, s) && b.wvalid && k.wready
    requires Selector(b.awaddr) == Selector(s.writeAddr.value) && Alias(s.writeAddr.value) == s.writeAddr.value
    ensures
      var n, m := MockNext(k, b), MemNext(s, Aliased(b), MovesOf(k));
      Holds(n.dData, m, BaseOf(false)) && Holds(n.iData, m, BaseOf(true))
  {
    hide Update, ToLanes, Selector, Alias, IndexOf, Holds, MemNext;
    StoredHalves(k, s, b);
  }

  /** In a data clock the address still selects the half it selected at first, and no read is under way. */
  predicate WellTimed(k: MockRegs, s: Slave, b: ToSlave) {
    b.wvalid && k.wready && s.writeAddr.Some? ==>
      && Selector(b.awaddr) == Selector(s.writeAddr.value) && Alias(s.writeAddr.value) == s.writeAddr.value
      && !b.arvalid && !k.rvalid
  }

  lemma QuietMockStep(k: MockRegs, s: Slave, b: ToSlave, n: Slave)
    requires Simulates(k, s) && !(b.wvalid && k.wready)
    requires n == SlaveStep(s, Aliased(b), MovesOf(k), s.mem)
    ensures DataMatch(MockNext(k, b), n)
  {
    hide Merge, Update, ToLanes, FromLanes, LanesAt, Selector, Alias, IndexOf, Holds, ReadWord;
    if b.arvalid && k.arready {
      ReadStep(k, s, b);
    }
  }

  lemma DataStep(k: MockRegs, s: Slave, b: ToSlave, n: Slave)
    requires Simulates(k, s) && b.wvalid && k.wready && WellTimed(k, s, b)
    requires n == SlaveStep(s, Aliased(b), MovesOf(k), MemNext(s, Aliased(b), MovesOf(k)))
    ensures DataMatch(MockNext(k, b), n)
  {
    hide Merge, Update, ToLanes, FromLanes, LanesAt, Selector, Alias, IndexOf, Holds, ReadWord, MemNext;
    WriteStep(k, s, b);
  }

  /** One clock of the mock is one clock of the abstract slave, on the address bits the mock decodes. */
  lemma MockStep(k: MockRegs, s: Slave, b: ToSlave)
    requires Simulates(k, s) && WellTimed(k, s, b)
    ensures SlaveLegal(s, MovesOf(k)) && Simulates(MockNext(k, b), SlaveNext(s, Aliased(b), MovesOf(k)))
  {
    hide FlagsMatch, DataMatch, MemNext, MockNext, SlaveStep, Aliased, MovesOf, Selector, Alias;
    var m := MemNext(s, Aliased(b), MovesOf(k));
    FlagsStep(k, s, b, m);
    if b.wvalid && k.wready {
      DataStep(k, s, b, SlaveNext(s, Aliased(b), MovesOf(k)));
    } else {
      NoWrite(s, Aliased(b), MovesOf(k));
      QuietMockStep(k, s, b, SlaveNext(s, Aliased(b), MovesOf(k)));
    }
  }

  lemma NoWrite(s: Slave, b: ToSlave, mv: Moves)
    requires !Performs(s, b, mv)
    ensures MemNext(s, b, mv) == s.mem
  {
  }

  lemma ResetSimulates()
    ensures Simulates(ResetMock(), Slave(map[], None, None, None, false))
  {
  }

  // ----- The arbiter as master -----

  /** With the arbiter in front, timing is right exactly when the store's address has bit 12 clear. */
  lemma ArbiterTiming(st: ArbState, r: Request, k: MockRegs, s: Slave)
    requires FlagsMatch(k, s) && LatchesMatch(st, s)
    requires s.writeAddr.Some? ==> Alias(s.writeAddr.value) == s.writeAddr.value
    ensures
      WellTimed(k, s, Outputs(st, r)) <==>
      (Outputs(st, r).wvalid && k.wready ==> !Selector(s.writeAddr.value))
  {
    hide Alias, IndexOf;
  }

  /** A store whose address has bit 12 set leaves its own half as it was and is merged into the other. */
  lemma MisdirectedStore(st: ArbState, r: Request, k: MockRegs, s: Slave)
    requires FlagsMatch(k, s) && LatchesMatch(st, s) && Outputs(st, r).wvalid && k.wready
    ensures
      var b := Outputs(st, r);
      var n := MockNext(k, b);
      n.iData == k.iData && n.dData == Update(k.dData, k.latched, ToLanes(b.wdata), b.wstrb)
  {
    hide Alias, IndexOf, Update, ToLanes;
  }

  /** Two arrays that hold the same memory are the same. */
  lemma HoldsOnce(h: Half, h': Half, m: Memory, base: int)
    requires Holds(h, m, base) && Holds(h', m, base)
    ensures h == h'
  {
    hide LanesAt;
  }

  /**
   * The data clock of a store is a clock of the abstract slave if and only if bit 12
   * of its address is clear, or neither half would change at that word.
   */
  lemma StoreExact(st: ArbState, r: Request, k: MockRegs, s: Slave)
    requires Simulates(k, s) && LatchesMatch(st, s) && Outputs(st, r).wvalid && k.wready
    requires Alias(s.writeAddr.value) == s.writeAddr.value
    ensures
      var b := Outputs(st, r);
      Simulates(MockNext(k, b), SlaveNext(s, Aliased(b), MovesOf(k))) <==>
      (|| !Selector(s.writeAddr.value)
       || (Unchanged(k.dData, k.latched, b) && Unchanged(k.iData, k.latched, b)))
  {
    var b, selects := Outputs(st, r), Selector(s.writeAddr.value);
    hide Merge, Update, ToLanes, LanesAt, Selector, Alias, IndexOf, Holds, ReadWord, MemNext, FlagsMatch,
      Unchanged;
    var n, m, l := MockNext(k, b), MemNext(s, Aliased(b), MovesOf(k)), ToLanes(b.wdata);
    FlagsStep(k, s, b, m);
    NotReading(st, r, k, s, m);
    MisdirectedStore(st, r, k, s);
    StoredHalves(k, s, b);
    UnchangedMeans(k.dData, k.latched, b);
    UnchangedMeans(k.iData, k.latched, b);
    if selects && Holds(n.dData, m, BaseOf(false)) && Holds(n.iData, m, BaseOf(true)) {
      HoldsOnce(n.dData, k.dData, m, BaseOf(false));
      HoldsOnce(n.iData, Update(k.iData, k.latched, l, b.wstrb), m, BaseOf(true));
    }
  }

  /** The strobed lanes of the beat are already in the word. */
  predicate Unchanged(h: Half, at: Index, b: ToSlave) {
    Merge(h[at], ToLanes(b.wdata), b.wstrb) == h[at]
  }

  lemma UnchangedMeans(h: Half, at: Index, b: ToSlave)
    ensures Unchanged(h, at, b) <==> Update(h, at, ToLanes(b.wdata), b.wstrb) == h
  {
    hide Merge, ToLanes;
    assert Update(h, at, ToLanes(b.wdata), b.wstrb)[at] == Merge(h[at], ToLanes(b.wdata), b.wstrb);
  }

  lemma NotReading(st: ArbState, r: Request, k: MockRegs, s: Slave, m: Memory)
    requires FlagsMatch(k, s) && LatchesMatch(st, s) && Outputs(st, r).wvalid && k.wready
    ensures !MockNext(k, Outputs(st, r)).rvalid
    ensures SlaveStep(s, Aliased(Outputs(st, r)), MovesOf(k), m).reading == None
  {
    hide Merge, Update, ToLanes, Selector, Alias, IndexOf;
  }
}
